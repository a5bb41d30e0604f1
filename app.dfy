/** Apps reported by a device and their resolution to a well-known app (App.swift). */
module Apps {
  import opened Wrappers
  import opened FriendlyApps

  /** `struct App`: an app as a device lists it. */
  datatype App = App(id: string, name: string)

  /** The id lists of `allCases`, position by position. */
  function IdLists(): (r: seq<seq<string>>)
    ensures |r| == |AllCases| && forall i :: 0 <= i < |r| ==> r[i] == Ids(AllCases[i])
  {
    seq(|AllCases|, i requires 0 <= i < |AllCases| => Ids(AllCases[i]))
  }

  /** `firstIndex(where:)` from position `from`: the first list at or after it that holds `id`. */
  function IndexFrom(lists: seq<seq<string>>, id: string, from: nat): (r: Option<nat>)
    requires from <= |lists|
    decreases |lists| - from
    ensures r.Some? ==> from <= r.value < |lists| && id in lists[r.value]
    ensures r.Some? ==> forall j :: from <= j < r.value ==> id !in lists[j]
    ensures r.None? <==> forall j :: from <= j < |lists| ==> id !in lists[j]
  {
    if from == |lists| then None
    else if id in lists[from] then Some(from)
    else IndexFrom(lists, id, from + 1)
  }

  /**
   * `friendlyAppIndex`: `allCases.firstIndex(where: { $0.ids.contains(id) })`,
   * the smallest index whose id list holds the app's id, nil when there is none.
   */
  function FriendlyAppIndex(app: App): (r: Option<nat>)
    ensures r.Some? ==> r.value < |AllCases| && app.id in Ids(AllCases[r.value])
    ensures r.Some? ==> forall j :: 0 <= j < r.value ==> app.id !in Ids(AllCases[j])
    ensures r.None? <==> forall a :: app.id !in Ids(a)
  {
    var lists := IdLists();
    var r := IndexFrom(lists, app.id, 0);
    assert r.None? ==> forall a :: app.id !in Ids(a) by {
      if r.None? {
        forall a ensures app.id !in Ids(a) {
          AllCasesComplete(a);
          var j :| 0 <= j < |AllCases| && AllCases[j] == a;
          assert lists[j] == Ids(a);
        }
      }
    }
    r
  }

  /** The resolution depends on the id only, never on the display name. */
  lemma IndexIgnoresName(a: App, b: App)
    requires a.id == b.id
    ensures FriendlyAppIndex(a) == FriendlyAppIndex(b)
  {
  }

  /** An app reported with id "12" resolves to index 0, netflix. */
  lemma NetflixByShortId(name: string)
    ensures FriendlyAppIndex(App("12", name)) == Some(0)
    ensures AllCases[0] == Netflix
  {
    assert "12" in Ids(AllCases[0]);
  }

  /** Since ids are not shared, the resolved app is the only one whose list holds the id. */
  lemma {:induction false} IndexIsOwner(app: App, a: FriendlyApp)
    requires app.id in Ids(a)
    ensures FriendlyAppIndex(app).Some? && AllCases[FriendlyAppIndex(app).value] == a
  {
    var i := FriendlyAppIndex(app);
    if AllCases[i.value] != a {
      IdsDisjoint(a, AllCases[i.value], app.id);
    }
  }
}
