/**
 * Wake-on-LAN (Support/WakeOnLAN.swift): the magic packet built from a MAC
 * address, the port as it is stored in the socket address, and the order in
 * which `target(device:)` reports failures. The socket calls themselves are
 * not modelled; their results are arguments.
 */
module WakeOnLan {
  import opened Wrappers

  /** `WakeOnLAN.Device`: the MAC address, the broadcast address and the UDP port. */
  datatype Device = Device(mac: string, broadcastAddr: string, port: uint16)

  /** `Device(mac:)` with its defaults: the limited broadcast address and port 9. */
  function DefaultDevice(mac: string): Device {
    Device(mac, "255.255.255.255", 9)
  }

  /** `WakeError`; each case carries the `strerror` text of the failed call. */
  datatype WakeError =
    | SocketSetupFailed(reason: string)
    | SetSocketOptionsFailed(reason: string)
    | SendMagicPacketFailed(reason: string)

  // ---------------------------------------------------------------- MAC text

  /** `mac.components(separatedBy: sep)`: the pieces between separators, empty ones included. */
  function Components(s: string, sep: char): (r: seq<string>)
    ensures |r| >= 1
    ensures forall i :: 0 <= i < |r| ==> sep !in r[i]
    ensures Joined(r, sep) == s
  {
    if s == [] then [[]]
    else
      var rest := Components(s[1..], sep);
      if s[0] == sep then
        assert Joined([[]] + rest, sep) == [] + [sep] + Joined(rest, sep);
        [[]] + rest
      else
        var r := [[s[0]] + rest[0]] + rest[1..];
        assert r[1..] == rest[1..];
        assert Joined(r, sep) == [s[0]] + Joined(rest, sep) by {
          if |rest| > 1 {
            assert Joined(rest, sep) == rest[0] + [sep] + Joined(rest[1..], sep);
          }
        }
        r
  }

  /** The pieces glued back together with the separator between them: the inverse of `Components`. */
  function Joined(parts: seq<string>, sep: char): string
    requires |parts| >= 1
  {
    if |parts| == 1 then parts[0] else parts[0] + [sep] + Joined(parts[1..], sep)
  }

  /** How often `c` occurs in `s`. */
  function Count(s: string, c: char): nat {
    if s == [] then 0 else (if s[0] == c then 1 else 0) + Count(s[1..], c)
  }

  /** There is one more component than there are separators. */
  lemma {:induction false} ComponentsCount(s: string, sep: char)
    ensures |Components(s, sep)| == Count(s, sep) + 1
  {
    if s != [] {
      ComponentsCount(s[1..], sep);
    }
  }

  /** A hexadecimal digit, in either case. */
  predicate IsHexDigit(c: char) {
    '0' <= c <= '9' || 'a' <= c <= 'f' || 'A' <= c <= 'F'
  }

  function HexDigitValue(c: char): (d: nat)
    requires IsHexDigit(c)
    ensures d < 16
  {
    if '0' <= c <= '9' then c as int - '0' as int
    else if 'a' <= c <= 'f' then c as int - 'a' as int + 10
    else c as int - 'A' as int + 10
  }

  predicate IsHexString(s: string) {
    forall i :: 0 <= i < |s| ==> IsHexDigit(s[i])
  }

  /** `strtoul(s, nil, 16)` on a string of hexadecimal digits; the empty string reads as 0. */
  function HexValue(s: string): (v: nat)
    requires IsHexString(s)
    ensures |s| <= 1 ==> v < 16
    ensures |s| <= 2 ==> v < 256
  {
    if s == [] then 0 else HexValue(s[..|s| - 1]) * 16 + HexDigitValue(s[|s| - 1])
  }

  /**
   * What the packet builder needs of a MAC address: every component is
   * hexadecimal, and its value fits in the `CUnsignedChar` it is converted to
   * (a larger value stops the program).
   */
  predicate ValidMac(mac: string) {
    forall i :: 0 <= i < |Components(mac, ':')| ==>
      IsHexString(Components(mac, ':')[i]) && HexValue(Components(mac, ':')[i]) < 256
  }

  /** `numbers`: the value of each component. */
  function Numbers(mac: string): (r: seq<nat>)
    requires forall i :: 0 <= i < |Components(mac, ':')| ==> IsHexString(Components(mac, ':')[i])
    ensures |r| == |Components(mac, ':')|
    ensures forall i :: 0 <= i < |r| ==> r[i] == HexValue(Components(mac, ':')[i])
  {
    var parts := Components(mac, ':');
    seq(|parts|, i requires 0 <= i < |parts| => HexValue(parts[i]))
  }

  /** An address written with one or two digits per field is always accepted. */
  lemma ShortFieldsAreValid(mac: string)
    requires forall i :: 0 <= i < |Components(mac, ':')| ==>
               IsHexString(Components(mac, ':')[i]) && |Components(mac, ':')[i]| <= 2
    ensures ValidMac(mac)
  {
  }

  // ---------------------------------------------------------------- packet

  /** The synchronisation stream that opens every magic packet. */
  const SyncStream: seq<byte> := [0xFF, 0xFF, 0xFF, 0xFF, 0xFF, 0xFF]

  /** How many times this implementation repeats the address. */
  const Repetitions: nat := 20

  /** `s` written `n` times in a row. */
  function Repeat(s: seq<byte>, n: nat): (r: seq<byte>)
    ensures |r| == n * |s|
  {
    if n == 0 then [] else Repeat(s, n - 1) + s
  }

  /** The `k`-th copy of `s` in `Repeat(s, n)` starts at `k * |s|`. */
  lemma {:induction false} RepeatAt(s: seq<byte>, n: nat, k: nat, j: nat)
    requires k < n && j < |s|
    ensures k * |s| + j < n * |s|
    ensures Repeat(s, n)[k * |s| + j] == s[j]
  {
    assert (n - 1) * |s| == n * |s| - |s|;
    if k < n - 1 {
      RepeatAt(s, n - 1, k, j);
    } else {
      assert k * |s| == (n - 1) * |s|;
    }
  }

  /** The reference packet: the synchronisation stream, then the address bytes twenty times. */
  function MagicPacket(address: seq<byte>): seq<byte> {
    SyncStream + Repeat(address, Repetitions)
  }

  /** The packet is 6 + 20·n bytes long, opens with six 0xFF, and repeats the address. */
  lemma MagicPacketLayout(address: seq<byte>, k: nat, j: nat)
    requires k < Repetitions && j < |address|
    ensures |MagicPacket(address)| == 6 + 20 * |address|
    ensures forall i :: 0 <= i < 6 ==> MagicPacket(address)[i] == 0xFF
    ensures 6 + k * |address| + j < |MagicPacket(address)|
    ensures MagicPacket(address)[6 + k * |address| + j] == address[j]
  {
    RepeatAt(address, Repetitions, k, j);
  }

  /** The numbers of a valid address, converted to bytes. */
  function ToBytes(numbers: seq<nat>): (r: seq<byte>)
    requires forall i :: 0 <= i < |numbers| ==> numbers[i] < 256
    ensures |r| == |numbers| && forall i :: 0 <= i < |r| ==> r[i] as int == numbers[i]
  {
    seq(|numbers|, i requires 0 <= i < |numbers| => numbers[i] as byte)
  }

  /** The address bytes of a valid MAC address, each value converted to a byte. */
  function AddressBytes(mac: string): (r: seq<byte>)
    requires ValidMac(mac)
    ensures |r| == |Components(mac, ':')|
    ensures forall i :: 0 <= i < |r| ==> r[i] as int == HexValue(Components(mac, ':')[i])
  {
    ToBytes(Numbers(mac))
  }

  /** `createMagicPacket(mac:)`: the header loop, the component values, then the twenty copies. */
  method CreateMagicPacket(mac: string) returns (buffer: seq<byte>)
    requires ValidMac(mac)
    ensures buffer == MagicPacket(AddressBytes(mac))
  {
    buffer := [];
    var h := 0;
    while h < 6
      invariant 0 <= h <= 6
      invariant buffer == SyncStream[..h]
    {
      buffer := buffer + [0xFF];
      h := h + 1;
    }
    var numbers := Numbers(mac);
    assert ToBytes(numbers) == AddressBytes(mac);
    buffer := AppendCopies(buffer, numbers);
  }

  /** The loop `for _ in 1...20 { for number in numbers { buffer.append(CUnsignedChar(number)) } }`. */
  method AppendCopies(start: seq<byte>, numbers: seq<nat>) returns (buffer: seq<byte>)
    requires forall i :: 0 <= i < |numbers| ==> numbers[i] < 256
    ensures buffer == start + Repeat(ToBytes(numbers), Repetitions)
  {
    buffer := start;
    ghost var address := ToBytes(numbers);
    var r := 0;
    while r < Repetitions
      invariant 0 <= r <= Repetitions
      invariant buffer == start + Repeat(address, r)
    {
      var j := 0;
      while j < |numbers|
        invariant 0 <= j <= |numbers|
        invariant buffer == start + Repeat(address, r) + address[..j]
      {
        ghost var before := buffer;
        buffer := buffer + [numbers[j] as byte];
        assert address[..j + 1] == address[..j] + [address[j]];
        assert buffer == before + [address[j]];
        j := j + 1;
      }
      assert address[..|numbers|] == address;
      assert buffer == start + (Repeat(address, r) + address);
      r := r + 1;
    }
  }

  /** An address of six fields, five colons, gives a packet of 126 bytes. */
  lemma SixFieldPacketLength(mac: string)
    requires ValidMac(mac) && Count(mac, ':') == 5
    ensures |MagicPacket(AddressBytes(mac))| == 126
  {
    ComponentsCount(mac, ':');
  }

  // ---------------------------------------------------------------- port

  /** `_OSSwapInt16`: the two bytes of a 16-bit value exchanged. */
  function Swap16(x: uint16): (r: uint16)
    ensures r as int / 256 == x as int % 256 && r as int % 256 == x as int / 256
  {
    ((x as int % 256) * 256 + x as int / 256) as uint16
  }

  /** Swapping twice gives the value back. */
  lemma Swap16Involution(x: uint16)
    ensures Swap16(Swap16(x)) == x
  {
  }

  /** `sin_port`: the port swapped on a little-endian host, as is on a big-endian one. */
  function SinPort(port: uint16, littleEndian: bool): uint16 {
    if littleEndian then Swap16(port) else port
  }

  /** The two bytes of a 16-bit value as the host stores them in memory. */
  function MemoryBytes(x: uint16, littleEndian: bool): seq<byte> {
    if littleEndian then [(x as int % 256) as byte, (x as int / 256) as byte]
    else [(x as int / 256) as byte, (x as int % 256) as byte]
  }

  /** Whatever the host's byte order, the stored port is in network order: high byte first. */
  lemma SinPortIsNetworkOrder(port: uint16, littleEndian: bool)
    ensures MemoryBytes(SinPort(port, littleEndian), littleEndian)
            == [(port as int / 256) as byte, (port as int % 256) as byte]
  {
  }

  // ---------------------------------------------------------------- target

  /** The results of the three socket calls: `socket`, `setsockopt` and `sendto`. */
  datatype SocketResults = SocketResults(socket: int, setOption: int, sent: int)

  /** What `sendto` is asked to send: the packet and the port as stored in the address. */
  datatype Transmission = Transmission(packet: seq<byte>, sinPort: uint16)

  /**
   * `target(device:)`. Returns the error, if any, and what was handed to
   * `sendto`, if it was reached. The packet is built only once the socket is
   * open, so only then must the MAC address be valid.
   */
  method Target(device: Device, results: SocketResults, littleEndian: bool, reason: string)
    returns (error: Option<WakeError>, transmission: Option<Transmission>)
    requires results.socket >= 0 ==> ValidMac(device.mac)
    ensures results.socket < 0 ==> error == Some(SocketSetupFailed(reason)) && transmission == None
    ensures results.socket >= 0 && results.setOption == -1 ==>
              error == Some(SetSocketOptionsFailed(reason)) && transmission == None
    ensures results.socket >= 0 && results.setOption != -1 ==>
              transmission == Some(Transmission(MagicPacket(AddressBytes(device.mac)), SinPort(device.port, littleEndian)))
    ensures results.socket >= 0 && results.setOption != -1 ==>
              (error.None? <==> results.sent == |MagicPacket(AddressBytes(device.mac))|)
    ensures results.socket >= 0 && results.setOption != -1 && results.sent != |MagicPacket(AddressBytes(device.mac))| ==>
              error == Some(SendMagicPacketFailed(reason))
    ensures error.Some? && error.value.SendMagicPacketFailed? ==> error.value.reason == reason && transmission.Some?
  {
    var sinPort := if littleEndian then Swap16(device.port) else device.port;
    if results.socket < 0 {
      return Some(SocketSetupFailed(reason)), None;
    }
    var packet := CreateMagicPacket(device.mac);
    if results.setOption == -1 {
      return Some(SetSocketOptionsFailed(reason)), None;
    }
    transmission := Some(Transmission(packet, sinPort));
    if results.sent != |packet| {
      return Some(SendMagicPacketFailed(reason)), transmission;
    }
    error := None;
  }
}
