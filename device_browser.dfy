/**
 * The registry of discovered TVs (DeviceBrowser.swift): the persisted
 * connections, tokens and MAC addresses, the list of devices, the locations
 * already requested and their fetched descriptors. Discovery results and
 * finished fetches arrive as event methods; the parser and the resolver are
 * given as functions.
 */
module DeviceBrowsers {
  import opened Wrappers
  import opened Devices
  import Xml

  /** Every saved connection has a host of its own. */
  predicate UniqueHosts(cs: seq<Connection>) {
    forall i, j :: 0 <= i < j < |cs| ==> cs[i].host != cs[j].host
  }

  /** `savedConnections.contains(where: { $0.host == host })`. */
  predicate HasHost(cs: seq<Connection>, host: string) {
    exists i :: 0 <= i < |cs| && cs[i].host == host
  }

  /** `macAddresses[host] ?? []`. */
  function MacsFor(macs: map<string, set<string>>, host: string): set<string> {
    if host in macs then macs[host] else {}
  }

  /** `macAddresses[host, default: []].insert(mac)`, when there is a MAC. */
  function InsertMac(macs: map<string, set<string>>, host: string, mac: Option<string>): (r: map<string, set<string>>)
    ensures MacsFor(r, host) == MacsFor(macs, host) + (if mac.Some? then {mac.value} else {})
    ensures forall h :: h != host ==> (h in r <==> h in macs) && MacsFor(r, h) == MacsFor(macs, h)
  {
    if mac.Some? then macs[host := MacsFor(macs, host) + {mac.value}] else macs
  }

  /** Inserting a MAC never removes one, for any host. */
  lemma InsertMacGrows(macs: map<string, set<string>>, host: string, mac: Option<string>, h: string)
    ensures MacsFor(macs, h) <= MacsFor(InsertMac(macs, host, mac), h)
  {
  }

  /** No child other than the one at `i` is called `name`. */
  predicate OnlyNamesake(cs: seq<Xml.Child>, name: string, i: nat) {
    forall j :: 0 <= j < |cs| && j != i ==> cs[j].name != name
  }

  /** The position of the only child called `name`; none when there is no such child or several. */
  function LoneIndex(cs: seq<Xml.Child>, name: string): (r: Option<nat>)
    ensures r.Some? ==> r.value < |cs| && cs[r.value].name == name && OnlyNamesake(cs, name, r.value)
    ensures r.None? ==> forall i :: 0 <= i < |cs| && cs[i].name == name ==> !OnlyNamesake(cs, name, i)
  {
    if cs == [] then None
    else
      var rest := LoneIndex(cs[1..], name);
      assert forall i :: 1 <= i < |cs| ==> cs[i] == cs[1..][i - 1];
      if cs[0].name == name then
        if forall i :: 0 <= i < |cs[1..]| ==> cs[1..][i].name != name then Some(0) else None
      else if rest.Some? then Some(rest.value + 1)
      else None
  }

  /**
   * `element[name].text`: the subscript yields one element when exactly one
   * child has the name, and then its text; with no such child or with
   * several, the accessor has no text.
   */
  function ChildText(children: Option<seq<Xml.Child>>, name: string): (r: Option<string>)
    ensures r.Some? ==> children.Some? && exists i :: 0 <= i < |children.value| && children.value[i].name == name
                                                    && OnlyNamesake(children.value, name, i) && children.value[i].text == r
    ensures children.Some? ==>
              forall i :: 0 <= i < |children.value| && children.value[i].name == name && OnlyNamesake(children.value, name, i)
                ==> r == children.value[i].text
    ensures children.Some? ==>
              forall i, j :: 0 <= i < j < |children.value| && children.value[i].name == name && children.value[j].name == name
                ==> r.None?
  {
    match children
    case None => None
    case Some(cs) =>
      var k := LoneIndex(cs, name);
      if k.Some? then cs[k.value].text else None
  }

  /** `_devices.first(where: { $0.host == host })`, by position. */
  function IndexOfHost(devices: seq<Device>, host: string): (r: Option<nat>)
    ensures r.Some? ==> r.value < |devices| && devices[r.value].host == host
    ensures r.None? <==> forall i :: 0 <= i < |devices| ==> devices[i].host != host
  {
    if devices == [] then None
    else if devices[0].host == host then Some(0)
    else
      var r := IndexOfHost(devices[1..], host);
      assert forall i :: 1 <= i < |devices| ==> devices[i] == devices[1..][i - 1];
      if r.Some? then Some(r.value + 1) else None
  }

  /** `_devices.filter { $0.remote != nil }`. */
  function WithRemote(devices: seq<Device>): (r: seq<Device>)
    reads devices
    ensures |r| <= |devices|
    ensures forall i :: 0 <= i < |r| ==> r[i] in devices && r[i].remoteType.Some?
    ensures forall i :: 0 <= i < |devices| && devices[i].remoteType.Some? ==> devices[i] in r
    ensures (forall i :: 0 <= i < |devices| ==> devices[i].remoteType.Some?) ==> r == devices
  {
    if devices == [] then []
    else
      var rest := WithRemote(devices[1..]);
      assert forall i :: 1 <= i < |devices| ==> devices[i] == devices[1..][i - 1];
      if devices[0].remoteType.Some? then [devices[0]] + rest else rest
  }

  /** The static properties that `DeviceBrowser` keeps in user defaults. */
  class Store {
    var savedConnections: seq<Connection>
    var lastConnection: Option<Connection>
    var tokens: map<string, string>
    var macAddresses: map<string, set<string>>

    /** Saved connections are unique by host. */
    predicate Valid()
      reads this
    {
      UniqueHosts(savedConnections)
    }

    /** The default values: nothing saved. */
    constructor()
      ensures Valid()
      ensures savedConnections == [] && lastConnection == None && tokens == map[] && macAddresses == map[]
    {
      savedConnections, lastConnection, tokens, macAddresses := [], None, map[], map[];
    }
  }

  /** The saved connections that `init(connection:)` succeeds on, in order: what `compactMap` keeps. */
  function AcceptedConnections(saved: seq<Connection>, handler: Option<Handler>): (r: seq<Connection>)
    ensures |r| <= |saved|
    ensures forall c :: c in r ==> c in saved
    ensures handler.None? ==> r == saved
  {
    if saved == [] then []
    else
      var last := saved[|saved| - 1];
      var rest := AcceptedConnections(saved[..|saved| - 1], handler);
      assert saved == saved[..|saved| - 1] + [last];
      rest + (if Recognised(handler, last.host, last.ssdpInfo) then [last] else [])
  }

  /** One more saved connection adds it to the accepted ones exactly when the resolver accepts it. */
  lemma AcceptedStep(saved: seq<Connection>, i: nat, handler: Option<Handler>)
    requires i < |saved|
    ensures AcceptedConnections(saved[..i + 1], handler)
            == AcceptedConnections(saved[..i], handler)
               + (if Recognised(handler, saved[i].host, saved[i].ssdpInfo) then [saved[i]] else [])
  {
    assert saved[..i + 1][..i] == saved[..i];
  }

  /** A connection is kept exactly when it is saved and the resolver accepts it. */
  lemma {:induction false} AcceptedMembers(saved: seq<Connection>, handler: Option<Handler>, c: Connection)
    ensures c in AcceptedConnections(saved, handler) <==> c in saved && Recognised(handler, c.host, c.ssdpInfo)
  {
    if saved != [] {
      var init, last := saved[..|saved| - 1], saved[|saved| - 1];
      AcceptedMembers(init, handler, c);
      assert saved == init + [last];
    }
  }

  /**
   * The loop of `init()`: a device for each saved connection the resolver
   * accepts, in order, with the host and the profile `init(connection:)`
   * gives it (`DeviceHosts` adds that the hosts are saved and distinct).
   */
  method DevicesFor(saved: seq<Connection>, handler: Option<Handler>) returns (devices: seq<Device>)
    ensures forall j :: 0 <= j < |devices| ==> fresh(devices[j])
    ensures MadeFrom(devices, AcceptedConnections(saved, handler), handler)
  {
    devices := [];
    var i := 0;
    ghost var accepted: seq<Connection> := [];
    while i < |saved|
      invariant 0 <= i <= |saved|
      invariant forall j :: 0 <= j < |devices| ==> fresh(devices[j])
      invariant accepted == AcceptedConnections(saved[..i], handler)
      invariant MadeFrom(devices, accepted, handler)
    {
      var made := FromConnection(saved[i], handler);
      AcceptedStep(saved, i, handler);
      if made.Made? {
        MadeFromAppend(devices, accepted, handler, made.device, saved[i]);
        var d := made.device;
        assert forall j :: 0 <= j < |devices| + 1 ==> (devices + [d])[j] == if j < |devices| then devices[j] else d;
        devices := devices + [d];
        accepted := accepted + [saved[i]];
      }
      i := i + 1;
    }
    assert saved[..i] == saved;
  }

  /** Each device has the host of the connection at its position and the profile made from that connection. */
  ghost predicate MadeFrom(devices: seq<Device>, cs: seq<Connection>, handler: Option<Handler>)
    reads devices
  {
    && |devices| == |cs|
    && forall j :: 0 <= j < |devices| ==>
         devices[j].host == cs[j].host && devices[j].State() == MadeProfile(handler, cs[j].host, cs[j].ssdpInfo)
  }

  /** A device made from one more connection extends the correspondence. */
  lemma MadeFromAppend(devices: seq<Device>, cs: seq<Connection>, handler: Option<Handler>, d: Device, c: Connection)
    requires MadeFrom(devices, cs, handler)
    requires d.host == c.host && d.State() == MadeProfile(handler, c.host, c.ssdpInfo)
    ensures MadeFrom(devices + [d], cs + [c], handler)
  {
  }

  /** Devices made from the accepted connections, in order, are on saved hosts, each on its own. */
  lemma DeviceHosts(devices: seq<Device>, saved: seq<Connection>, handler: Option<Handler>)
    requires UniqueHosts(saved)
    requires |devices| == |AcceptedConnections(saved, handler)|
    requires forall j :: 0 <= j < |devices| ==> devices[j].host == AcceptedConnections(saved, handler)[j].host
    ensures forall j :: 0 <= j < |devices| ==> HasHost(saved, devices[j].host)
    ensures forall j, j' :: 0 <= j < j' < |devices| ==> devices[j].host != devices[j'].host
  {
    var accepted := AcceptedConnections(saved, handler);
    AcceptedUnique(saved, handler);
    forall j | 0 <= j < |devices|
      ensures HasHost(saved, devices[j].host)
    {
      assert accepted[j] in saved;
      var k :| 0 <= k < |saved| && saved[k] == accepted[j];
      assert saved[k].host == devices[j].host;
    }
  }

  /** Keeping some of the connections keeps their hosts unique. */
  lemma {:induction false} AcceptedUnique(saved: seq<Connection>, handler: Option<Handler>)
    requires UniqueHosts(saved)
    ensures UniqueHosts(AcceptedConnections(saved, handler))
  {
    if saved != [] {
      var init := saved[..|saved| - 1];
      var last := saved[|saved| - 1];
      assert UniqueHosts(init) by {
        forall i, j | 0 <= i < j < |init|
          ensures init[i].host != init[j].host
        {
          assert init[i] == saved[i] && init[j] == saved[j];
        }
      }
      AcceptedUnique(init, handler);
      var rest := AcceptedConnections(init, handler);
      forall k | 0 <= k < |rest|
        ensures rest[k].host != last.host
      {
        assert rest[k] in init;
        var m :| 0 <= m < |init| && init[m] == rest[k];
        assert init[m] == saved[m];
      }
    }
  }

  /** `DeviceBrowser`. */
  class DeviceBrowser {
    const store: Store
    var isBrowsing: bool
    var isRequiringRemote: bool
    var requestedLocations: seq<Location>
    var entries: seq<Device>
    var locationData: map<Location, Bytes>

    /**
     * Each location is requested once; one device per host; data is only
     * held for requested locations.
     */
    predicate Valid()
      reads this
    {
      && Distinct(requestedLocations)
      && (forall i, j :: 0 <= i < j < |entries| ==> entries[i].host != entries[j].host)
      && (forall l :: l in locationData ==> l in requestedLocations)
    }

    /** `devices`. */
    function Devices(): (r: seq<Device>)
      reads this, entries
      ensures !isRequiringRemote ==> r == entries
      ensures isRequiringRemote ==> forall i :: 0 <= i < |r| ==> r[i] in entries && r[i].remoteType.Some?
      ensures isRequiringRemote ==> forall i :: 0 <= i < |entries| && entries[i].remoteType.Some? ==> entries[i] in r
    {
      if isRequiringRemote then WithRemote(entries) else entries
    }

    /** `init()`: one device for each saved connection the resolver accepts, in order, as `DevicesFor` makes them. */
    constructor(store: Store, handler: Option<Handler>)
      requires store.Valid()
      ensures Valid() && this.store == store
      ensures !isBrowsing && !isRequiringRemote && requestedLocations == [] && locationData == map[]
      ensures forall d :: d in entries ==> fresh(d)
      ensures |entries| == |AcceptedConnections(store.savedConnections, handler)| <= |store.savedConnections|
      ensures forall j :: 0 <= j < |entries| ==>
                var c := AcceptedConnections(store.savedConnections, handler)[j];
                entries[j].host == c.host && entries[j].State() == MadeProfile(handler, c.host, c.ssdpInfo)
      ensures forall j :: 0 <= j < |entries| ==> HasHost(store.savedConnections, entries[j].host)
      ensures handler.None? ==> |entries| == |store.savedConnections|
      ensures handler.None? ==> forall j :: 0 <= j < |entries| ==> entries[j].SavedConnection() == Connection(store.savedConnections[j].host, Empty)
    {
      this.store := store;
      isBrowsing, isRequiringRemote := false, false;
      requestedLocations, locationData := [], map[];
      var devices := DevicesFor(store.savedConnections, handler);
      DeviceHosts(devices, store.savedConnections, handler);
      entries := devices;
    }

    /** `saveConnection(_:)`: the last connection is always set; a connection to a new host is appended. */
    method SaveConnection(connection: Option<Connection>)
      requires store.Valid()
      modifies store
      ensures store.Valid()
      ensures store.lastConnection == connection
      ensures connection.Some? && !HasHost(old(store.savedConnections), connection.value.host) ==>
                store.savedConnections == old(store.savedConnections) + [connection.value]
      ensures connection.None? || HasHost(old(store.savedConnections), connection.value.host) ==>
                store.savedConnections == old(store.savedConnections)
      ensures store.tokens == old(store.tokens) && store.macAddresses == old(store.macAddresses)
    {
      store.lastConnection := connection;
      if connection.Some? && !HasHost(store.savedConnections, connection.value.host) {
        store.savedConnections := store.savedConnections + [connection.value];
      }
    }

    /** `startBrowsing(isRequiringRemote:)`: ignored while browsing; otherwise the flags are set. */
    method StartBrowsing(requiringRemote: bool)
      requires Valid()
      modifies this
      ensures Valid()
      ensures old(isBrowsing) ==> unchanged(this)
      ensures !old(isBrowsing) ==> isBrowsing && isRequiringRemote == requiringRemote
      ensures requestedLocations == old(requestedLocations) && entries == old(entries) && locationData == old(locationData)
    {
      if isBrowsing {
        return;
      }
      isRequiringRemote := requiringRemote;
      isBrowsing := true;
    }

    /**
     * `ssdpDiscovery(_:didDiscoverService:)`, given the service's location
     * as Foundation parses it (`None` when it is missing or not a URL): a
     * location with a host and a port is requested the first time it is
     * seen, and only then.
     */
    method DidDiscover(location: Option<Location>) returns (requested: bool)
      requires Valid()
      modifies this
      ensures Valid()
      ensures requested <==> location.Some? && location.value.host.Some? && location.value.port.Some?
                             && location.value !in old(requestedLocations)
      ensures requestedLocations == old(requestedLocations) + (if requested then [location.value] else [])
      ensures entries == old(entries) && locationData == old(locationData)
      ensures isBrowsing == old(isBrowsing) && isRequiringRemote == old(isRequiringRemote)
    {
      requested := false;
      if location.None? || location.value.host.None? || location.value.port.None? {
        return;
      }
      if location.value !in requestedLocations {
        requestedLocations := requestedLocations + [location.value];
        requested := true;
      }
    }

    /**
     * The registration step of the fetch handler: a device already on `host`
     * is handed to the resolver with the new descriptor; otherwise a device
     * made from the descriptor is appended when construction succeeds.
     */
    method Register(host: string, info: SsdpInfo, handler: Option<Handler>)
      requires Valid()
      modifies this, set d | d in entries
      ensures Valid()
      ensures isBrowsing == old(isBrowsing) && isRequiringRemote == old(isRequiringRemote)
      ensures requestedLocations == old(requestedLocations) && locationData == old(locationData)
      ensures |old(entries)| <= |entries| && entries[..|old(entries)|] == old(entries)
      ensures IndexOfHost(old(entries), host).Some? ==> entries == old(entries)
      ensures IndexOfHost(old(entries), host).None? ==>
                |entries| == |old(entries)| + (if Recognised(handler, host, info) then 1 else 0)
                && (|entries| > |old(entries)| ==>
                      fresh(entries[|old(entries)|]) && entries[|old(entries)|].host == host
                      && entries[|old(entries)|].State() == MadeProfile(handler, host, info))
      ensures forall i :: 0 <= i < |old(entries)| && (handler.None? || entries[i].host != host) ==>
                entries[i].State() == old(entries[i].State())
      ensures handler.Some? ==>
                forall i :: 0 <= i < |old(entries)| && entries[i].host == host ==>
                  entries[i].State() == handler.value(host, old(entries[i].State()), info).profile
    {
      var found := IndexOfHost(entries, host);
      if found.Some? {
        if handler.Some? {
          var _ := entries[found.value].Resolve(handler.value, info);
        }
      } else {
        var made := NewDevice(host, info, handler);
        if made.Made? {
          entries := entries + [made.device];
        }
      }
    }

    /**
     * The handler of the descriptor fetch started for `location`. With data:
     * the data is stored; a device already on the host is handed to the
     * resolver, otherwise a new device is appended when construction
     * succeeds; the `wifiMac` and `wiredMac` texts join the host's MACs.
     */
    method DidFetch(location: Location, data: Option<Bytes>, handler: Option<Handler>,
                    parse: Bytes -> Option<seq<Xml.Child>>)
      requires Valid() && location in requestedLocations && location.host.Some? && location.port.Some?
      modifies this, store, set d | d in entries
      ensures Valid()
      ensures data.None? ==> unchanged(this) && unchanged(store)
      ensures data.Some? ==> locationData == old(locationData)[location := data.value]
      ensures isRequiringRemote == old(isRequiringRemote)
      ensures |old(entries)| <= |entries| && entries[..|old(entries)|] == old(entries)
      ensures data.Some? && IndexOfHost(old(entries), location.host.value).Some? ==> entries == old(entries)
      ensures data.Some? && IndexOfHost(old(entries), location.host.value).None? ==>
                var info := SsdpInfo(location.port.value, data.value);
                |entries| == |old(entries)| + (if Recognised(handler, location.host.value, info) then 1 else 0)
                && (|entries| > |old(entries)| ==>
                      fresh(entries[|old(entries)|]) && entries[|old(entries)|].host == location.host.value
                      && entries[|old(entries)|].State() == MadeProfile(handler, location.host.value, info))
      ensures forall i :: 0 <= i < |old(entries)| && (data.None? || handler.None? || entries[i].host != location.host.value) ==>
                entries[i].State() == old(entries[i].State())
      ensures data.Some? && handler.Some? ==>
                forall i :: 0 <= i < |old(entries)| && entries[i].host == location.host.value ==>
                  entries[i].State()
                  == handler.value(location.host.value, old(entries[i].State()), SsdpInfo(location.port.value, data.value)).profile
      ensures data.Some? ==>
                (store.macAddresses ==
                 InsertMac(InsertMac(old(store.macAddresses), location.host.value, ChildText(parse(data.value), "wifiMac")),
                           location.host.value, ChildText(parse(data.value), "wiredMac")))
      ensures requestedLocations == old(requestedLocations) && isBrowsing == old(isBrowsing)
      ensures store.savedConnections == old(store.savedConnections) && store.tokens == old(store.tokens)
      ensures store.lastConnection == old(store.lastConnection)
    {
      if data.None? {
        return;
      }
      var host, bytes := location.host.value, data.value;
      // Registration does not read the stored data, so it may come first.
      Register(host, SsdpInfo(location.port.value, bytes), handler);
      locationData := locationData[location := bytes];
      var children := parse(bytes);
      var withWifi := InsertMac(store.macAddresses, host, ChildText(children, "wifiMac"));
      store.macAddresses := InsertMac(withWifi, host, ChildText(children, "wiredMac"));
    }
  }

  /** A connection to a host already saved is not saved again, but still becomes the last one. */
  method SaveTwice(c: Connection, d: Connection) returns (saved: seq<Connection>, last: Option<Connection>)
    requires c.host == d.host
    ensures saved == [c] && last == Some(d)
  {
    var store := new Store();
    var browser := new DeviceBrowser(store, None);
    browser.SaveConnection(Some(c));
    assert HasHost(store.savedConnections, d.host) by {
      assert store.savedConnections[0].host == d.host;
    }
    browser.SaveConnection(Some(d));
    browser.SaveConnection(None);
    browser.SaveConnection(Some(d));
    saved, last := store.savedConnections, store.lastConnection;
  }

  /** A location seen twice is requested once. */
  method DiscoverTwice(l: Location) returns (first: bool, second: bool, requested: seq<Location>)
    requires l.host.Some? && l.port.Some?
    ensures first && !second && requested == [l]
  {
    var store := new Store();
    var browser := new DeviceBrowser(store, None);
    first := browser.DidDiscover(Some(l));
    second := browser.DidDiscover(Some(l));
    requested := browser.requestedLocations;
  }
}
