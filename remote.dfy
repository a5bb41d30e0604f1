/**
 * The defaults every TV remote inherits (the `Remote` protocol extension in
 * Remote.swift): the capabilities a remote lacks unless it says otherwise,
 * the token and MAC addresses it keeps in the registry's persisted store,
 * waking the TV and appending to its log. The brand-specific members of the
 * protocol have no body in the source and are not modelled.
 */
module Remotes {
  import opened Wrappers
  import opened Strings
  import Commands
  import WakeOnLan
  import DeviceBrowsers

  /** `RemoteStatus`. */
  datatype RemoteStatus = Connecting | Connected | Disconnected | Failed

  const AllStatuses: seq<RemoteStatus> := [Connecting, Connected, Disconnected, Failed]

  /** There are exactly four statuses. */
  lemma FourStatuses(s: RemoteStatus)
    ensures s in AllStatuses && |AllStatuses| == 4 && Distinct(AllStatuses)
  {
  }

  /** `Channel`. */
  datatype Channel = Channel(id: string, name: string, number: string)

  /** The default `channels`. */
  const DefaultChannels: seq<Channel> := []

  /** What is sent for a MAC: the packet and port `target` hands to `sendto`, when the socket got that far. */
  function Sent(mac: string, results: WakeOnLan.SocketResults, littleEndian: bool): Option<WakeOnLan.Transmission>
    requires results.socket >= 0 ==> WakeOnLan.ValidMac(mac)
  {
    if results.socket >= 0 && results.setOption != -1 then
      Some(WakeOnLan.Transmission(WakeOnLan.MagicPacket(WakeOnLan.AddressBytes(mac)),
                                  WakeOnLan.SinPort(WakeOnLan.DefaultDevice(mac).port, littleEndian)))
    else None
  }

  /** The line `addLog` appends: the time, a colon, the message with its newlines made spaces, a newline. */
  function LogLine(time: string, message: string): string {
    time + ": " + ReplaceAll(message, "\n", " ") + "\n"
  }

  /** A log line ends in its only newline, when the time has none, and starts with the time. */
  lemma LogLineShape(time: string, message: string)
    requires '\n' !in time
    ensures var line := LogLine(time, message);
            |line| > 0 && line[|line| - 1] == '\n' && '\n' !in line[..|line| - 1] && HasPrefix(line, time + ": ")
  {
    var body := ReplaceAll(message, "\n", " ");
    assert "\n" == ['\n'];
    ReplaceCharRemovesIt(message, '\n', " ");
    var line := LogLine(time, message);
    assert line[..|line| - 1] == time + ": " + body;
    assert line[..|time + ": "|] == time + ": ";
  }

  /** A remote, seen through the protocol's default members. */
  class Remote {
    const id: string
    const host: string
    const store: DeviceBrowsers.Store
    var logs: string
    /** The `sendCommandClick` calls the default members have made. */
    var clicks: seq<Commands.Command>

    constructor(id: string, host: string, store: DeviceBrowsers.Store)
      ensures this.id == id && this.host == host && this.store == store && logs == "" && clicks == []
    {
      this.id, this.host, this.store := id, host, store;
      logs, clicks := "", [];
    }

    /** The default `canMovePointer`, `canScroll` and `canOpenURLs`: none of them. */
    predicate CanMovePointer() { false }
    predicate CanScroll() { false }
    predicate CanOpenUrls() { false }

    /** The default `clickPointer()`: exactly a click of `ok`. */
    method ClickPointer()
      modifies this
      ensures clicks == old(clicks) + [Commands.Ok] && logs == old(logs)
    {
      clicks := clicks + [Commands.Ok];
    }

    /**
     * The default `openChannel`, `resetTouchLocations`, `movePointer`,
     * `scroll`, `openURL` and `setPin` (whose arguments do not matter): nothing.
     */
    method Ignore()
      modifies this, store
      ensures unchanged(this) && unchanged(store)
    {
    }

    /** `token`: the entry for this remote's id. */
    function Token(): Option<string>
      reads store
    {
      if id in store.tokens then Some(store.tokens[id]) else None
    }

    /** Setting `token`: only the entry for this id changes, and nil removes it. */
    method SetToken(token: Option<string>)
      modifies store
      ensures Token() == token
      ensures store.tokens == if token.Some? then old(store.tokens)[id := token.value] else old(store.tokens) - {id}
      ensures forall other :: other != id ==> (other in store.tokens <==> other in old(store.tokens))
      ensures store.macAddresses == old(store.macAddresses) && store.savedConnections == old(store.savedConnections)
      ensures store.lastConnection == old(store.lastConnection)
    {
      if token.Some? {
        store.tokens := store.tokens[id := token.value];
      } else {
        store.tokens := store.tokens - {id};
      }
    }

    /** `macAddresses`: the set stored for this remote's host, or none. */
    function MacAddresses(): set<string>
      reads store
    {
      DeviceBrowsers.MacsFor(store.macAddresses, host)
    }

    /** Setting `macAddresses`: only the entry for this host changes. */
    method SetMacAddresses(macs: set<string>)
      modifies store
      ensures MacAddresses() == macs
      ensures store.macAddresses == old(store.macAddresses)[host := macs]
      ensures store.tokens == old(store.tokens) && store.savedConnections == old(store.savedConnections)
      ensures store.lastConnection == old(store.lastConnection)
    {
      store.macAddresses := store.macAddresses[host := macs];
    }

    /**
     * `wake()`: `target` once for each stored MAC, on the default broadcast
     * address and port, with the socket results `outcome` gives; the errors
     * are dropped. Returns the MACs in the order tried and what was sent.
     */
    method Wake(outcome: string -> WakeOnLan.SocketResults, littleEndian: bool, reason: string)
      returns (tried: seq<string>, sent: seq<Option<WakeOnLan.Transmission>>)
      requires forall mac :: mac in MacAddresses() && outcome(mac).socket >= 0 ==> WakeOnLan.ValidMac(mac)
      ensures Distinct(tried) && |tried| == |MacAddresses()|
      ensures forall mac :: mac in tried <==> mac in MacAddresses()
      ensures |sent| == |tried| && forall i :: 0 <= i < |tried| ==> sent[i] == Sent(tried[i], outcome(tried[i]), littleEndian)
    {
      var macs := MacAddresses();
      var rest := macs;
      tried, sent := [], [];
      while rest != {}
        invariant rest <= macs
        invariant Distinct(tried)
        invariant forall mac :: mac in tried <==> mac in macs && mac !in rest
        invariant |sent| == |tried| && forall i :: 0 <= i < |tried| ==> sent[i] == Sent(tried[i], outcome(tried[i]), littleEndian)
        decreases |rest|
      {
        var mac :| mac in rest;
        var _, transmission := WakeOnLan.Target(WakeOnLan.DefaultDevice(mac), outcome(mac), littleEndian, reason);
        tried, sent := tried + [mac], sent + [transmission];
        rest := rest - {mac};
      }
      DistinctCardinality(tried);
      assert (set m | m in tried) == macs;
    }

    /** `addLog(_:)`: the old log stays as it was; one line is appended. */
    method AddLog(time: string, message: string)
      modifies this
      ensures logs == old(logs) + LogLine(time, message)
      ensures clicks == old(clicks)
    {
      logs := logs + (time + ": " + ReplaceAll(message, "\n", " ") + "\n");
    }
  }

  /** The default capabilities: no channels, no pointer, no scrolling, no URLs. */
  lemma DefaultCapabilities(r: Remote)
    ensures DefaultChannels == [] && !r.CanMovePointer() && !r.CanScroll() && !r.CanOpenUrls()
  {
  }

  /** Two remotes with the same id share one token, and two on the same host share MAC addresses. */
  method SharedStore(id: string, host: string, token: Option<string>, macs: set<string>)
    returns (seenToken: Option<string>, seenMacs: set<string>)
    ensures seenToken == token && seenMacs == macs
  {
    var store := new DeviceBrowsers.Store();
    var a := new Remote(id, host, store);
    var b := new Remote(id, host, store);
    a.SetToken(token);
    a.SetMacAddresses(macs);
    seenToken, seenMacs := b.Token(), b.MacAddresses();
  }

  /** Two log lines are appended in order, whatever newlines the messages hold. */
  method LogTwice(time: string) returns (logs: string)
    ensures logs == LogLine(time, "a\nb") + LogLine(time, "c")
  {
    var store := new DeviceBrowsers.Store();
    var r := new Remote("id", "host", store);
    r.AddLog(time, "a\nb");
    r.AddLog(time, "c");
    logs := r.logs;
  }
}
