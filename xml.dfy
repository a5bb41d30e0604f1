/**
 * `XML.Accessor.keysAndTexts` (XML.swift): the immediate children of a
 * descriptor element as a name-to-text map. The document parser itself is
 * not modelled; an element is given as the list of its children.
 */
module Xml {
  import opened Wrappers

  /** A child element: its tag name and its text, if it has one. */
  datatype Child = Child(name: string, text: Option<string>)

  /** Swift's `Character.isWhitespace`: the Unicode White_Space characters. */
  predicate IsWhitespace(c: char) {
    ('\U{9}' <= c <= '\U{D}') || c == ' ' || c == '\U{85}' || c == '\U{A0}' || c == '\U{1680}'
    || ('\U{2000}' <= c <= '\U{200A}') || c == '\U{2028}' || c == '\U{2029}' || c == '\U{202F}'
    || c == '\U{205F}' || c == '\U{3000}'
  }

  /** `text.allSatisfy(\.isWhitespace)`; true of the empty text. */
  predicate AllWhitespace(t: string) {
    forall i :: 0 <= i < |t| ==> IsWhitespace(t[i])
  }

  /** A child contributes to the map when it has a text that is not blank. */
  predicate Qualifies(c: Child) {
    c.text.Some? && !AllWhitespace(c.text.value)
  }

  /** The `compactMap` step: the (name, text) pairs of the qualifying children, in order. */
  function CompactPairs(children: seq<Child>): (r: seq<(string, string)>)
    ensures |r| <= |children|
  {
    if children == [] then []
    else if Qualifies(children[0]) then [(children[0].name, children[0].text.value)] + CompactPairs(children[1..])
    else CompactPairs(children[1..])
  }

  /** `Dictionary(pairs, uniquingKeysWith: { first, _ in first })`, folded over `acc` from the left. */
  function FirstWins(pairs: seq<(string, string)>, acc: map<string, string>): map<string, string> {
    if pairs == [] then acc
    else
      var (k, v) := pairs[0];
      FirstWins(pairs[1..], if k in acc then acc else acc[k := v])
  }

  /** `c` is a qualifying child named `k`. */
  predicate Named(c: Child, k: string) {
    Qualifies(c) && c.name == k
  }

  /** No child before position `i` is a qualifying child named `k`. */
  predicate NoneNamedBefore(children: seq<Child>, k: string, i: int)
    requires i <= |children|
  {
    forall j :: 0 <= j < i ==> !Named(children[j], k)
  }

  /** The reference reading: the text of the first qualifying child named `k`. */
  function FirstText(children: seq<Child>, k: string): (r: Option<string>)
    ensures r.None? <==> NoneNamedBefore(children, k, |children|)
    ensures r.Some? ==> exists i :: 0 <= i < |children| && Named(children[i], k)
                                    && r.value == children[i].text.value && NoneNamedBefore(children, k, i)
  {
    if children == [] then None
    else if Named(children[0], k) then
      assert NoneNamedBefore(children, k, 0);
      Some(children[0].text.value)
    else
      var r := FirstText(children[1..], k);
      assert NoneNamedBefore(children, k, |children|) <==> NoneNamedBefore(children[1..], k, |children| - 1) by {
        assert forall j :: 1 <= j < |children| ==> children[j] == children[1..][j - 1];
      }
      assert r.Some? ==> exists i :: 0 <= i < |children| && Named(children[i], k)
                                     && r.value == children[i].text.value && NoneNamedBefore(children, k, i) by {
        if r.Some? {
          var i :| 0 <= i < |children[1..]| && Named(children[1..][i], k)
                   && r.value == children[1..][i].text.value && NoneNamedBefore(children[1..], k, i);
          assert forall j :: 1 <= j < i + 1 ==> children[j] == children[1..][j - 1];
          assert NoneNamedBefore(children, k, i + 1);
        }
      }
      r
  }

  /** The first value listed for `k` in a list of pairs. */
  function FirstValue(pairs: seq<(string, string)>, k: string): Option<string> {
    if pairs == [] then None
    else if pairs[0].0 == k then Some(pairs[0].1)
    else FirstValue(pairs[1..], k)
  }

  /** Keys already present are kept; any other key gets its first listed value. */
  lemma {:induction false} FirstWinsLookup(pairs: seq<(string, string)>, acc: map<string, string>, k: string)
    ensures k in FirstWins(pairs, acc) <==> k in acc || FirstValue(pairs, k).Some?
    ensures k in FirstWins(pairs, acc) ==>
              FirstWins(pairs, acc)[k] == if k in acc then acc[k] else FirstValue(pairs, k).value
  {
    if pairs != [] {
      var (k', v) := pairs[0];
      FirstWinsLookup(pairs[1..], if k' in acc then acc else acc[k' := v], k);
    }
  }

  /** The first pair for `k` comes from the first qualifying child named `k`. */
  lemma {:induction false} CompactPairsFirst(children: seq<Child>, k: string)
    ensures FirstValue(CompactPairs(children), k) == FirstText(children, k)
  {
    if children != [] {
      CompactPairsFirst(children[1..], k);
    }
  }

  /**
   * `keysAndTexts`: nothing for a missing element; otherwise the map from
   * each qualifying child's name to the text of the first qualifying child
   * with that name.
   */
  function KeysAndTexts(element: Option<seq<Child>>): map<string, string> {
    match element
    case None => map[]
    case Some(children) => FirstWins(CompactPairs(children), map[])
  }

  /** A key is present exactly when some child of that name qualifies, and it maps to the first such child's text. */
  lemma KeysAndTextsLookup(children: seq<Child>, k: string)
    ensures k in KeysAndTexts(Some(children)) <==> FirstText(children, k).Some?
    ensures k in KeysAndTexts(Some(children)) ==> KeysAndTexts(Some(children))[k] == FirstText(children, k).value
  {
    FirstWinsLookup(CompactPairs(children), map[], k);
    CompactPairsFirst(children, k);
  }

  /** Without an element the map is empty. */
  lemma NoElementNoKeys()
    ensures KeysAndTexts(None) == map[]
  {
  }

  /** A child that has no text, or only blanks, contributes no key when no other child of its name qualifies. */
  lemma {:induction false} BlankChildContributesNothing(children: seq<Child>, i: nat)
    requires i < |children| && !Qualifies(children[i])
    requires forall j :: 0 <= j < |children| && j != i ==> children[j].name != children[i].name
    ensures children[i].name !in KeysAndTexts(Some(children))
  {
    KeysAndTextsLookup(children, children[i].name);
  }

  /** Among children of one name, the first qualifying one wins: blank ones before it do not shadow it. */
  lemma {:induction false} FirstQualifyingWins(children: seq<Child>, i: nat)
    requires i < |children| && Qualifies(children[i])
    requires forall j :: 0 <= j < i ==> !(Qualifies(children[j]) && children[j].name == children[i].name)
    ensures children[i].name in KeysAndTexts(Some(children))
    ensures KeysAndTexts(Some(children))[children[i].name] == children[i].text.value
  {
    var k := children[i].name;
    KeysAndTextsLookup(children, k);
    var r := FirstText(children, k);
    var i' :| 0 <= i' < |children| && Qualifies(children[i']) && children[i'].name == k
              && r.value == children[i'].text.value
              && forall j :: 0 <= j < i' ==> !(Qualifies(children[j]) && children[j].name == k);
    assert i' == i;
  }

  /** Every key of the map is the name of a qualifying child. */
  lemma KeysAreQualifyingNames(children: seq<Child>, k: string)
    requires k in KeysAndTexts(Some(children))
    ensures exists i :: 0 <= i < |children| && Qualifies(children[i]) && children[i].name == k
  {
    KeysAndTextsLookup(children, k);
  }
}
