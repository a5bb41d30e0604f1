/**
 * A discovered TV (Device.swift): its record, its construction through the
 * resolver hook, its saved connection and the analytics attributes it
 * reports. The resolver (`Device.updateHandler`) is a function given by the
 * caller; the XML parser is a function from bytes to the children of the
 * descriptor's `root/device` element.
 */
module Devices {
  import opened Wrappers
  import opened Strings
  import Xml

  /** `Device.SSDPInfo`: the port the descriptor came from and its bytes. */
  datatype SsdpInfo = SsdpInfo(port: int, data: Bytes)

  /** `SSDPInfo.empty`. */
  const Empty: SsdpInfo := SsdpInfo(0, [])

  /** `Device.Connection`: what is saved to reconnect to a device. */
  datatype Connection = Connection(host: string, ssdpInfo: SsdpInfo)

  /** `Device.InfoError`. */
  datatype InfoError = WrongDeviceType | NoName | NoControlUrl | NoInfo

  /** What the resolver may set on a device: every stored property but the host. */
  datatype Profile = Profile(name: string, model: Option<string>, manufacturer: Option<string>,
                             remoteType: Option<string>, hasCaster: bool, ssdpInfo: SsdpInfo)

  /** The resolver's answer: whether it recognised the device, and the device as it left it. */
  datatype Resolution = Resolution(success: bool, profile: Profile)

  /** `Device.UpdateHandler`: given the host, the current profile and the new descriptor. */
  type Handler = (string, Profile, SsdpInfo) -> Resolution

  /** A device before the resolver has seen it: no name, no remote, no caster, `SSDPInfo.empty`. */
  const Initial: Profile := Profile("", None, None, None, false, Empty)

  /** A location URL, with the host and the port Foundation reads from it. */
  datatype Location = Location(url: string, host: Option<string>, port: Option<int>)

  /** One value of `analyticsAttributes`: a text, a list of texts or a flag. */
  datatype Value = Str(text: string) | List(items: seq<string>) | Flag(flag: bool)

  /** `Device`. `remote` is represented by the name of its type, `caster` by its presence. */
  class Device {
    const host: string
    var name: string
    var model: Option<string>
    var manufacturer: Option<string>
    var remoteType: Option<string>
    var hasCaster: bool
    var ssdpInfo: SsdpInfo

    /** The stored properties that the resolver may change. */
    function State(): Profile
      reads this
    {
      Profile(name, model, manufacturer, remoteType, hasCaster, ssdpInfo)
    }

    /** `connection`. */
    function SavedConnection(): Connection
      reads this
    {
      Connection(host, ssdpInfo)
    }

    /** The first part of `init(host:ssdpInfo:)`: the host is kept, the rest starts empty. */
    constructor(host: string)
      ensures this.host == host && State() == Initial
    {
      this.host := host;
      name, model, manufacturer, remoteType, hasCaster := "", None, None, None, false;
      ssdpInfo := Empty;
    }

    /** `handler(self, info)`: the resolver updates the device and says whether it recognised it. */
    method Resolve(handler: Handler, info: SsdpInfo) returns (success: bool)
      modifies this
      ensures success == handler(host, old(State()), info).success
      ensures State() == handler(host, old(State()), info).profile
    {
      var r := handler(host, State(), info);
      name, model, manufacturer, remoteType, hasCaster := r.profile.name, r.profile.model, r.profile.manufacturer, r.profile.remoteType, r.profile.hasCaster;
      ssdpInfo := r.profile.ssdpInfo;
      success := r.success;
    }

    /**
     * `analyticsAttributes`, given the parser and the entries of
     * `DeviceBrowser.shared.locationData` in enumeration order.
     */
    method AnalyticsAttributes(parse: Bytes -> Option<seq<Xml.Child>>, locations: seq<(Location, Bytes)>)
      returns (attributes: map<string, Value>)
      ensures forall key :: Get(attributes, key)
                            == Attribute(State(), Xml.KeysAndTexts(parse(ssdpInfo.data)), SameHost(locations, host, parse), key)
    {
      var own := Xml.KeysAndTexts(parse(ssdpInfo.data));
      attributes := OwnPass(own);
      ghost var maps: seq<map<string, string>> := [];
      forall key
        ensures Get(attributes, key) == Gathered(own, maps, key)
      {
        PrefixesExclusive(key);
      }
      var i := 0;
      while i < |locations|
        invariant 0 <= i <= |locations|
        invariant maps == SameHost(locations[..i], host, parse)
        invariant forall key :: Get(attributes, key) == Gathered(own, maps, key)
      {
        var (location, data) := locations[i];
        assert locations[..i + 1][..i] == locations[..i];
        if location.host == Some(host) {
          var values := Xml.KeysAndTexts(parse(data));
          attributes := OtherPass(own, maps, values, attributes);
          maps := maps + [values];
        }
        i := i + 1;
      }
      assert locations[..i] == locations;
      attributes := PrunePass(own, maps, attributes);
      attributes := FixedPass(State(), attributes);
    }
  }

  /** The outcome of `init(host:ssdpInfo:)`, which may throw. */
  datatype Made = Made(device: Device) | Failed(error: InfoError)

  /**
   * `init(host:ssdpInfo:)`: without a resolver the device keeps its empty
   * profile; with one, it throws `noInfo` exactly when the resolver does not
   * recognise the device, and otherwise the device is as the resolver left it.
   */
  method NewDevice(host: string, info: SsdpInfo, handler: Option<Handler>) returns (r: Made)
    ensures r.Failed? <==> handler.Some? && !handler.value(host, Initial, info).success
    ensures r.Failed? ==> r.error == NoInfo
    ensures r.Made? ==> fresh(r.device) && r.device.host == host
    ensures r.Made? && handler.None? ==> r.device.State() == Initial
    ensures r.Made? && handler.Some? ==> r.device.State() == handler.value(host, Initial, info).profile
  {
    var d := new Device(host);
    if handler.Some? {
      var success := d.Resolve(handler.value, info);
      if !success {
        return Failed(NoInfo);
      }
    }
    r := Made(d);
  }

  /** Whether `init(host:ssdpInfo:)` succeeds: always without a resolver, otherwise when the resolver recognises the device. */
  predicate Recognised(handler: Option<Handler>, host: string, info: SsdpInfo) {
    handler.None? || handler.value(host, Initial, info).success
  }

  /** The profile of a device that `init(host:ssdpInfo:)` made. */
  function MadeProfile(handler: Option<Handler>, host: string, info: SsdpInfo): Profile {
    if handler.None? then Initial else handler.value(host, Initial, info).profile
  }

  /** `init(connection:)`. */
  method FromConnection(c: Connection, handler: Option<Handler>) returns (r: Made)
    ensures r.Failed? <==> handler.Some? && !handler.value(c.host, Initial, c.ssdpInfo).success
    ensures r.Made? ==> fresh(r.device) && r.device.host == c.host
    ensures r.Made? ==> r.device.State() == MadeProfile(handler, c.host, c.ssdpInfo)
    ensures r.Made? && handler.None? ==> r.device.SavedConnection() == Connection(c.host, Empty)
    ensures r.Made? && handler.Some? ==> r.device.State() == handler.value(c.host, Initial, c.ssdpInfo).profile
  {
    r := NewDevice(c.host, c.ssdpInfo, handler);
  }

  const OwnPrefix: string := "SSDP"
  const OtherPrefix: string := "OtherSSDP"
  const Unknown: string := "Unknown"

  /** Dictionary lookup. */
  function Get(m: map<string, Value>, key: string): Option<Value> {
    if key in m then Some(m[key]) else None
  }

  /** The descriptor maps of the entries whose location is on `host`, in order. */
  function SameHost(locations: seq<(Location, Bytes)>, host: string, parse: Bytes -> Option<seq<Xml.Child>>): seq<map<string, string>>
  {
    if locations == [] then []
    else
      var last := locations[|locations| - 1];
      SameHost(locations[..|locations| - 1], host, parse)
      + (if last.0.host == Some(host) then [Xml.KeysAndTexts(parse(last.1))] else [])
  }

  /** `if !current.contains(value) { current + [value] }`. */
  function AppendNew(list: seq<string>, v: string): seq<string> {
    if v in list then list else list + [v]
  }

  /** The values seen for descriptor key `k` across `maps`, each once, in the order first seen. */
  function Others(maps: seq<map<string, string>>, k: string): seq<string> {
    if maps == [] then []
    else
      var m := maps[|maps| - 1];
      var prev := Others(maps[..|maps| - 1], k);
      if k in m then AppendNew(prev, m[k]) else prev
  }

  /** After the first pass: "SSDP" + k holds the device's own text for k. */
  function OwnEntry(own: map<string, string>, key: string): Option<Value> {
    if OwnPrefix <= key && key[|OwnPrefix|..] in own then Some(Str(own[key[|OwnPrefix|..]])) else None
  }

  /** After the second pass: "OtherSSDP" + k holds every value seen for k, when there is one. */
  function Gathered(own: map<string, string>, maps: seq<map<string, string>>, key: string): Option<Value> {
    if OtherPrefix <= key then
      var l := Others(maps, key[|OtherPrefix|..]);
      if l == [] then None else Some(List(l))
    else OwnEntry(own, key)
  }

  /** After the third pass: the lists of a single value are gone. */
  function Pruned(own: map<string, string>, maps: seq<map<string, string>>, key: string): Option<Value> {
    if OtherPrefix <= key then
      var l := Others(maps, key[|OtherPrefix|..]);
      if |l| < 2 then None else Some(List(l))
    else OwnEntry(own, key)
  }

  /** The keys written last: name, model, manufacturer, remote and caster presence, remote type. */
  function FixedEntry(p: Profile, key: string): Option<Value> {
    if key == "Name" then Some(Str(p.name))
    else if key == "Model" then Some(Str(p.model.GetOr(Unknown)))
    else if key == "Manufacturer" then Some(Str(p.manufacturer.GetOr(Unknown)))
    else if key == "HasRemote" then Some(Flag(p.remoteType.Some?))
    else if key == "HasCaster" then Some(Flag(p.hasCaster))
    else if key == "RemoteType" && p.remoteType.Some? then Some(Str(p.remoteType.value))
    else None
  }

  /** The value `analyticsAttributes` reports under `key`. */
  function Attribute(p: Profile, own: map<string, string>, maps: seq<map<string, string>>, key: string): Option<Value> {
    if FixedEntry(p, key).Some? then FixedEntry(p, key) else Pruned(own, maps, key)
  }

  lemma PrefixSplit(p: string, key: string)
    requires p <= key
    ensures key == p + key[|p|..]
  {
  }

  /** No key starts with both "OtherSSDP" and "SSDP". */
  lemma PrefixesExclusive(key: string)
    ensures OtherPrefix <= key ==> !(OwnPrefix <= key)
  {
    if OtherPrefix <= key {
      assert key[0] == 'O';
    }
  }

  lemma PrefixJoin(p: string, k: string)
    ensures p <= p + k && (p + k)[|p|..] == k
  {
  }

  /** Appending one more map: its value for `k` joins the list unless already there. */
  lemma OthersSnoc(maps: seq<map<string, string>>, m: map<string, string>, k: string)
    ensures Others(maps + [m], k) == if k in m then AppendNew(Others(maps, k), m[k]) else Others(maps, k)
  {
    assert (maps + [m])[..|maps|] == maps;
  }

  /** The first pass: every own descriptor key k becomes "SSDP" + k. */
  method OwnPass(own: map<string, string>) returns (attributes: map<string, Value>)
    ensures forall key :: Get(attributes, key) == OwnEntry(own, key)
  {
    attributes := map[];
    var rest := own.Keys;
    while rest != {}
      invariant rest <= own.Keys
      invariant forall key :: Get(attributes, key) == OwnEntry(own - rest, key)
      decreases |rest|
    {
      var k :| k in rest;
      ghost var before, oldRest := attributes, rest;
      attributes := attributes[OwnPrefix + k := Str(own[k])];
      rest := rest - {k};
      forall key
        ensures Get(attributes, key) == OwnEntry(own - rest, key)
      {
        if key == OwnPrefix + k {
          PrefixJoin(OwnPrefix, k);
          assert k in own - rest;
        } else {
          assert Get(attributes, key) == Get(before, key) == OwnEntry(own - oldRest, key);
          if OwnPrefix <= key {
            PrefixSplit(OwnPrefix, key);
            assert key[|OwnPrefix|..] != k;
          }
        }
      }
    }
    assert own - rest == own;
  }

  /** The second pass over one location on the device's host: its values join the "OtherSSDP" lists. */
  method OtherPass(own: map<string, string>, ghost maps: seq<map<string, string>>, values: map<string, string>,
                   start: map<string, Value>) returns (attributes: map<string, Value>)
    requires forall key :: Get(start, key) == Gathered(own, maps, key)
    ensures forall key :: Get(attributes, key) == Gathered(own, maps + [values], key)
  {
    attributes := start;
    var rest := values.Keys;
    forall key
      ensures Get(attributes, key) == Gathered(own, maps + [values - rest], key)
    {
      if OtherPrefix <= key {
        OthersSnoc(maps, values - rest, key[|OtherPrefix|..]);
      }
    }
    while rest != {}
      invariant rest <= values.Keys
      invariant forall key :: Get(attributes, key) == Gathered(own, maps + [values - rest], key)
      decreases |rest|
    {
      var k :| k in rest;
      var key := OtherPrefix + k;
      PrefixJoin(OtherPrefix, k);
      ghost var before := attributes;
      ghost var m0 := values - rest;
      OthersSnoc(maps, m0, k);
      assert Get(attributes, key) == Gathered(own, maps + [m0], key);
      var current := if key in attributes && attributes[key].List? then attributes[key].items else [];
      assert current == Others(maps, k);
      if values[k] !in current {
        attributes := attributes[key := List(current + [values[k]])];
      }
      rest := rest - {k};
      ghost var m1 := values - rest;
      OthersSnoc(maps, m1, k);
      forall key' | key' != key
        ensures Get(attributes, key') == Gathered(own, maps + [m1], key')
      {
        assert Get(attributes, key') == Get(before, key');
        if OtherPrefix <= key' {
          PrefixSplit(OtherPrefix, key');
          var k' := key'[|OtherPrefix|..];
          OthersSnoc(maps, m0, k');
          OthersSnoc(maps, m1, k');
        }
      }
    }
    assert values - rest == values;
  }

  /** The third pass: every "OtherSSDP" list of a single value is removed. */
  method PrunePass(own: map<string, string>, ghost maps: seq<map<string, string>>, start: map<string, Value>)
    returns (attributes: map<string, Value>)
    requires forall key :: Get(start, key) == Gathered(own, maps, key)
    ensures forall key :: Get(attributes, key) == Pruned(own, maps, key)
  {
    attributes := start;
    var rest := start.Keys;
    while rest != {}
      invariant rest <= attributes.Keys
      invariant forall key :: Get(attributes, key) == if key in rest then Gathered(own, maps, key) else Pruned(own, maps, key)
      decreases |rest|
    {
      var k :| k in rest;
      if OtherPrefix <= k && attributes[k].List? && |attributes[k].items| == 1 {
        attributes := attributes - {k};
      }
      rest := rest - {k};
    }
  }

  /** The last step: the fixed keys are written over whatever the passes left. */
  method FixedPass(p: Profile, start: map<string, Value>) returns (attributes: map<string, Value>)
    ensures forall key :: Get(attributes, key) == if FixedEntry(p, key).Some? then FixedEntry(p, key) else Get(start, key)
  {
    attributes := start["Name" := Str(p.name)]["Model" := Str(p.model.GetOr(Unknown))]
                       ["Manufacturer" := Str(p.manufacturer.GetOr(Unknown))]
                       ["HasRemote" := Flag(p.remoteType.Some?)]["HasCaster" := Flag(p.hasCaster)];
    if p.remoteType.Some? {
      attributes := attributes["RemoteType" := Str(p.remoteType.value)];
    }
  }

  /** Every own descriptor key k is reported as "SSDP" + k with its text. */
  lemma OwnKeyReported(p: Profile, own: map<string, string>, maps: seq<map<string, string>>, k: string)
    requires k in own
    ensures Attribute(p, own, maps, OwnPrefix + k) == Some(Str(own[k]))
  {
    var key := OwnPrefix + k;
    PrefixJoin(OwnPrefix, k);
    assert key[0] == 'S';
    assert !(OtherPrefix <= key) by {
      assert key[0] != OtherPrefix[0];
    }
  }

  /** "OtherSSDP" + k is reported exactly when at least two distinct values were seen for k, and then lists them. */
  lemma OtherKeyReported(p: Profile, own: map<string, string>, maps: seq<map<string, string>>, k: string)
    ensures Attribute(p, own, maps, OtherPrefix + k).Some? <==> |Others(maps, k)| >= 2
    ensures |Others(maps, k)| >= 2 ==> Attribute(p, own, maps, OtherPrefix + k) == Some(List(Others(maps, k)))
  {
    var key := OtherPrefix + k;
    PrefixJoin(OtherPrefix, k);
    assert key[0] == 'O';
  }

  /** No reported list holds a single value, and only "OtherSSDP" keys hold lists. */
  lemma NoSingletonLists(p: Profile, own: map<string, string>, maps: seq<map<string, string>>, key: string)
    requires Attribute(p, own, maps, key).Some? && Attribute(p, own, maps, key).value.List?
    ensures OtherPrefix <= key && |Attribute(p, own, maps, key).value.items| >= 2
  {
  }

  /** The fixed keys: the name, "Unknown" for a missing model or manufacturer, presence flags, and the remote's type only with a remote. */
  lemma FixedKeys(p: Profile, own: map<string, string>, maps: seq<map<string, string>>)
    ensures Attribute(p, own, maps, "Name") == Some(Str(p.name))
    ensures Attribute(p, own, maps, "Model") == Some(Str(if p.model.Some? then p.model.value else "Unknown"))
    ensures Attribute(p, own, maps, "Manufacturer") == Some(Str(if p.manufacturer.Some? then p.manufacturer.value else "Unknown"))
    ensures Attribute(p, own, maps, "HasRemote") == Some(Flag(p.remoteType.Some?))
    ensures Attribute(p, own, maps, "HasCaster") == Some(Flag(p.hasCaster))
    ensures Attribute(p, own, maps, "RemoteType").Some? <==> p.remoteType.Some?
  {
    assert !(OtherPrefix <= "RemoteType") && !(OwnPrefix <= "RemoteType") by {
      assert "RemoteType"[0] == 'R';
    }
  }

  /** The gathered values for a key are pairwise distinct. */
  lemma {:induction false} OthersDistinct(maps: seq<map<string, string>>, k: string)
    ensures Distinct(Others(maps, k))
  {
    if maps != [] {
      OthersDistinct(maps[..|maps| - 1], k);
    }
  }

  /** A value is gathered for k exactly when some map gives it for k. */
  lemma {:induction false} OthersMembers(maps: seq<map<string, string>>, k: string, v: string)
    ensures v in Others(maps, k) <==> exists i :: 0 <= i < |maps| && k in maps[i] && maps[i][k] == v
  {
    if maps != [] {
      var init := maps[..|maps| - 1];
      OthersMembers(init, k, v);
      assert forall i :: 0 <= i < |init| ==> init[i] == maps[i];
      if exists i :: 0 <= i < |maps| && k in maps[i] && maps[i][k] == v {
        var i :| 0 <= i < |maps| && k in maps[i] && maps[i][k] == v;
        if i < |init| {
          assert init[i] == maps[i];
        }
      }
    }
  }

  /** The maps considered are exactly those of the entries whose location is on `host`. */
  lemma {:induction false} SameHostMembers(locations: seq<(Location, Bytes)>, host: string,
                                           parse: Bytes -> Option<seq<Xml.Child>>, m: map<string, string>)
    ensures m in SameHost(locations, host, parse) <==>
              exists i :: 0 <= i < |locations| && locations[i].0.host == Some(host) && m == Xml.KeysAndTexts(parse(locations[i].1))
  {
    if locations != [] {
      var init := locations[..|locations| - 1];
      SameHostMembers(init, host, parse, m);
      assert forall i :: 0 <= i < |init| ==> init[i] == locations[i];
      if exists i :: 0 <= i < |locations| && locations[i].0.host == Some(host) && m == Xml.KeysAndTexts(parse(locations[i].1)) {
        var i :| 0 <= i < |locations| && locations[i].0.host == Some(host) && m == Xml.KeysAndTexts(parse(locations[i].1));
        if i < |init| {
          assert init[i] == locations[i];
        }
      }
    }
  }
}
