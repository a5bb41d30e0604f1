/**
 * SSDP discovery (Support/SSDP.swift): reading the headers of a discovery
 * response, the M-SEARCH request text, and the flags of `SSDPDiscovery`
 * that decide when the delegate hears "finished". Sockets are not modelled:
 * the outcome of each socket call is an argument of the method that makes it.
 */
module Ssdp {
  import opened Wrappers
  import opened Strings

  // ---------------------------------------------------------------- headers

  /** The characters at which the regular-expression `.` stops: the line terminators. */
  predicate IsLineTerminator(c: char) {
    c == '\n' || c == '\U{B}' || c == '\U{C}' || c == '\r' || c == '\U{85}' || c == '\U{2028}' || c == '\U{2029}'
  }

  /** What `.*` matches at the start of `s`: everything up to the first line terminator. */
  function RestOfLine(s: string): (r: string)
    ensures r <= s
    ensures forall i :: 0 <= i < |r| ==> !IsLineTerminator(r[i])
    ensures |r| == |s| || IsLineTerminator(s[|r|])
  {
    if s == [] || IsLineTerminator(s[0]) then []
    else [s[0]] + RestOfLine(s[1..])
  }

  /** The text the regular expression `"\(header): .*"` looks for. */
  function Marker(header: string): string {
    header + ": "
  }

  /**
   * `parse(header:in:)`: the first occurrence of "header: " anywhere in the
   * response (case-sensitive, not anchored to a line start), extended to the
   * end of its line; then every "header: " in that match is removed.
   */
  function ParseHeader(header: string, response: string): (r: Option<string>)
    ensures r.None? <==> !Contains(response, Marker(header))
    ensures r.Some? ==> forall i :: 0 <= i < |r.value| ==> !IsLineTerminator(r.value[i])
  {
    var m := Marker(header);
    match FindFirst(response, m)
    case None => None
    case Some(i) =>
      Some(MatchValue(m, RestOfLine(response[i + |m|..])))
  }

  /**
   * What the regular expression matched, the marker and the rest of its
   * line, with every marker removed: the leading one goes, and the value
   * stays on one line.
   */
  function MatchValue(m: string, line: string): (r: string)
    requires m != []
    requires forall i :: 0 <= i < |line| ==> !IsLineTerminator(line[i])
    ensures r == ReplaceAll(line, m, "")
    ensures forall i :: 0 <= i < |r| ==> !IsLineTerminator(r[i])
  {
    ReplaceAllLeading(line, m, "");
    RemoveKeepsChars(line, m);
    ReplaceAll(m + line, m, "")
  }

  /** Removing occurrences of a pattern introduces no new character. */
  lemma {:induction false} RemoveKeepsChars(s: string, p: string)
    requires p != []
    ensures forall i :: 0 <= i < |ReplaceAll(s, p, "")| ==> ReplaceAll(s, p, "")[i] in s
  {
    if p <= s {
      RemoveKeepsChars(s[|p|..], p);
      assert ReplaceAll(s, p, "") == ReplaceAll(s[|p|..], p, "");
      forall i | 0 <= i < |ReplaceAll(s, p, "")|
        ensures ReplaceAll(s, p, "")[i] in s
      {
        assert ReplaceAll(s, p, "")[i] in s[|p|..];
      }
    } else if s != [] {
      RemoveKeepsChars(s[1..], p);
      var t := ReplaceAll(s[1..], p, "");
      forall i | 0 <= i < |ReplaceAll(s, p, "")|
        ensures ReplaceAll(s, p, "")[i] in s
      {
        if i > 0 {
          assert ReplaceAll(s, p, "")[i] == t[i - 1];
          assert t[i - 1] in s[1..];
        }
      }
    }
  }

  /** Once the first marker is found at `i`, the value is the rest of its line with every marker removed. */
  lemma ParseHeaderFound(header: string, response: string, i: nat)
    requires FindFirst(response, Marker(header)) == Some(i)
    ensures ParseHeader(header, response) == Some(ReplaceAll(RestOfLine(response[i + |Marker(header)|..]), Marker(header), ""))
  {
    var m := Marker(header);
    var line := RestOfLine(response[i + |m|..]);
    assert ParseHeader(header, response) == Some(MatchValue(m, line));
  }

  /**
   * The well-formed case: when the first "header: " comes right after
   * `before` and is followed by a single-line value without "header: " in
   * it, the parsed value is that value.
   */
  lemma ParseHeaderLine(header: string, before: string, value: string, after: string)
    requires NoneStartsIn(before, Marker(header) + value + after, Marker(header))
    requires forall i :: 0 <= i < |value| ==> !IsLineTerminator(value[i])
    requires after == [] || IsLineTerminator(after[0])
    requires !Contains(value, Marker(header))
    ensures ParseHeader(header, before + Marker(header) + value + after) == Some(value)
  {
    var m := Marker(header);
    var response := before + m + value + after;
    FoundAfter(before, m, value, after);
    ParseHeaderFound(header, response, |before|);
    LineAfter(before, m, value, after);
    ReplaceAllAbsent(value, m, "");
  }

  /** The first occurrence is the one right after `before` when none starts inside it. */
  lemma FoundAfter(before: string, m: string, value: string, after: string)
    requires NoneStartsIn(before, m + value + after, m)
    ensures FindFirst(before + m + value + after, m) == Some(|before|)
  {
    SplitAfter(before, m, value, after);
    FindFirstAt(before + m + value + after, m, |before|);
  }

  /** The line after the marker is the value. */
  lemma LineAfter(before: string, m: string, value: string, after: string)
    requires forall i :: 0 <= i < |value| ==> !IsLineTerminator(value[i])
    requires after == [] || IsLineTerminator(after[0])
    ensures RestOfLine((before + m + value + after)[|before| + |m|..]) == value
  {
    SplitAfter(before, m, value, after);
    RestOfLineStops(value, after);
  }

  /** Dropping the leading parts of a concatenation. */
  lemma SplitAfter(before: string, m: string, value: string, after: string)
    ensures before + m + value + after == before + (m + value + after)
    ensures (before + m + value + after)[|before|..] == m + value + after
    ensures (before + m + value + after)[|before| + |m|..] == value + after
  {
  }

  /** `.*` stops exactly at the end of a single-line value followed by a terminator or the end. */
  lemma {:induction false} RestOfLineStops(value: string, after: string)
    requires forall i :: 0 <= i < |value| ==> !IsLineTerminator(value[i])
    requires after == [] || IsLineTerminator(after[0])
    ensures RestOfLine(value + after) == value
  {
    if value != [] {
      assert (value + after)[1..] == value[1..] + after;
      RestOfLineStops(value[1..], after);
      assert [value[0]] + value[1..] == value;
    }
  }

  /** The match is not anchored: "ST: " is found inside a leading "HOST: " line. */
  lemma StReadFromHost(host: string, rest: string)
    requires forall i :: 0 <= i < |host| ==> !IsLineTerminator(host[i])
    requires 'S' !in host
    requires rest == [] || IsLineTerminator(rest[0])
    ensures ParseHeader("ST", "HOST: " + host + rest) == Some(host)
  {
    var m := Marker("ST");
    assert "HO" + m == "HOST: ";
    MissingCharNoStart("HO", m + host + rest, m, 0);
    MissingCharNotContained(host, m, 'S');
    ParseHeaderLine("ST", "HO", host, rest);
  }

  /** `SSDPService`: the responding host and four optional header values. */
  datatype Service = Service(
    host: string,
    location: Option<string>,
    server: Option<string>,
    searchTarget: Option<string>,
    uniqueServiceName: Option<string>)

  /**
   * `SSDPService.init(host:response:)`: each field is the parse of the first
   * spelling of its header that occurs in the response.
   */
  function ServiceOf(host: string, response: string): (s: Service)
    ensures s.host == host
    ensures s.location.None? <==>
              !Contains(response, Marker("LOCATION")) && !Contains(response, Marker("Location"))
              && !Contains(response, Marker("location"))
    ensures s.server.None? <==>
              !Contains(response, Marker("SERVER")) && !Contains(response, Marker("Server"))
              && !Contains(response, Marker("server"))
    ensures s.searchTarget.None? <==> !Contains(response, Marker("ST")) && !Contains(response, Marker("st"))
    ensures s.uniqueServiceName.None? <==> !Contains(response, Marker("USN")) && !Contains(response, Marker("usn"))
  {
    Service(host,
            ParseHeader("LOCATION", response).OrElse(ParseHeader("Location", response)).OrElse(ParseHeader("location", response)),
            ParseHeader("SERVER", response).OrElse(ParseHeader("Server", response)).OrElse(ParseHeader("server", response)),
            ParseHeader("ST", response).OrElse(ParseHeader("st", response)),
            ParseHeader("USN", response).OrElse(ParseHeader("usn", response)))
  }

  /** "LOCATION" wins over "Location", which wins over "location". */
  lemma LocationPriority(host: string, response: string)
    ensures Contains(response, Marker("LOCATION")) ==>
              ServiceOf(host, response).location == ParseHeader("LOCATION", response)
    ensures !Contains(response, Marker("LOCATION")) && Contains(response, Marker("Location")) ==>
              ServiceOf(host, response).location == ParseHeader("Location", response)
    ensures !Contains(response, Marker("LOCATION")) && !Contains(response, Marker("Location")) ==>
              ServiceOf(host, response).location == ParseHeader("location", response)
  {
  }

  /** "SERVER" wins over "Server", which wins over "server". */
  lemma ServerPriority(host: string, response: string)
    ensures Contains(response, Marker("SERVER")) ==>
              ServiceOf(host, response).server == ParseHeader("SERVER", response)
    ensures !Contains(response, Marker("SERVER")) && Contains(response, Marker("Server")) ==>
              ServiceOf(host, response).server == ParseHeader("Server", response)
    ensures !Contains(response, Marker("SERVER")) && !Contains(response, Marker("Server")) ==>
              ServiceOf(host, response).server == ParseHeader("server", response)
  {
  }

  /** "ST" wins over "st", and "USN" over "usn"; there is no mixed-case spelling of either. */
  lemma SearchTargetAndUsnPriority(host: string, response: string)
    ensures Contains(response, Marker("ST")) ==> ServiceOf(host, response).searchTarget == ParseHeader("ST", response)
    ensures !Contains(response, Marker("ST")) ==> ServiceOf(host, response).searchTarget == ParseHeader("st", response)
    ensures Contains(response, Marker("USN")) ==> ServiceOf(host, response).uniqueServiceName == ParseHeader("USN", response)
    ensures !Contains(response, Marker("USN")) ==> ServiceOf(host, response).uniqueServiceName == ParseHeader("usn", response)
  {
  }

  // ---------------------------------------------------------------- request

  /** The decimal digits of `n`, most significant first, as string interpolation writes them. */
  function NatToString(n: nat): (r: string)
    ensures |r| >= 1
    ensures forall i :: 0 <= i < |r| ==> '0' <= r[i] <= '9'
  {
    if n < 10 then [DigitChar(n)] else NatToString(n / 10) + [DigitChar(n % 10)]
  }

  function DigitChar(d: nat): (c: char)
    requires d < 10
    ensures '0' <= c <= '9'
  {
    ['0', '1', '2', '3', '4', '5', '6', '7', '8', '9'][d]
  }

  /** The value of a string of decimal digits. */
  function DecimalValue(s: string): nat
    requires forall i :: 0 <= i < |s| ==> '0' <= s[i] <= '9'
  {
    if s == [] then 0 else DecimalValue(s[..|s| - 1]) * 10 + (s[|s| - 1] as int - '0' as int)
  }

  /** The digits written for `n` read back as `n`. */
  lemma {:induction false} NatToStringValue(n: nat)
    ensures DecimalValue(NatToString(n)) == n
  {
    if n >= 10 {
      NatToStringValue(n / 10);
      var s := NatToString(n);
      assert s[..|s| - 1] == NatToString(n / 10);
    }
  }

  /** `"\(i)"` for an integer: a minus sign before the digits of a negative value. */
  function IntToString(i: int): (r: string)
    ensures i >= 0 ==> r == NatToString(i)
    ensures i < 0 ==> r == "-" + NatToString(-i)
  {
    if i < 0 then "-" + NatToString(-i) else NatToString(i)
  }

  /** The written form of an integer is digits, after a minus sign for a negative one. */
  lemma IntToStringChars(i: int)
    ensures forall k :: 0 <= k < |IntToString(i)| ==> IntToString(i)[k] == '-' || '0' <= IntToString(i)[k] <= '9'
  {
  }

  /** The default port and wait are written "1900" and "10". */
  lemma DefaultNumbers()
    ensures IntToString(1900) == "1900" && IntToString(10) == "10"
  {
    assert NatToString(1) == "1";
    assert NatToString(19) == "19";
    assert NatToString(190) == "190";
  }

  /** The SSDP multicast group of section 1.3.2 of the UPnP Device Architecture 1.1. */
  const MulticastAddress: string := "239.255.255.250"
  const Crlf: string := "\r\n"
  const RequestLine: string := "M-SEARCH * HTTP/1.1\r\n"

  /** One header line of the request: "NAME: value" and CRLF. */
  function HeaderLine(name: string, value: string): string {
    Marker(name) + value + Crlf
  }

  /** The value of the request's HOST line: the group, a colon and the port. */
  function HostValue(port: int): string {
    MulticastAddress + ":" + IntToString(port)
  }

  /**
   * The M-SEARCH request: the request line, then MAN, HOST (the multicast
   * group and the port), ST and MX (whole seconds), each ending in CRLF,
   * then an empty line.
   */
  function SearchMessage(port: int, searchTarget: string, mx: int): string {
    RequestLine
    + HeaderLine("MAN", ManValue)
    + HeaderLine("HOST", HostValue(port))
    + HeaderLine("ST", searchTarget)
    + HeaderLine("MX", IntToString(mx))
    + Crlf
  }

  /** The MAN value the request sends: the quoted "ssdp:discover". */
  const ManValue: string := "\"ssdp:discover\""

  /** Everything after the MAN value, and everything after the HOST value. */
  function AfterMan(port: int, searchTarget: string, mx: int): string {
    Crlf + HeaderLine("HOST", HostValue(port)) + HeaderLine("ST", searchTarget) + HeaderLine("MX", IntToString(mx)) + Crlf
  }

  function AfterHost(searchTarget: string, mx: int): string {
    Crlf + HeaderLine("ST", searchTarget) + HeaderLine("MX", IntToString(mx)) + Crlf
  }

  /** Everything before the MX marker. */
  function BeforeMx(port: int, searchTarget: string): string {
    RequestLine + HeaderLine("MAN", ManValue) + HeaderLine("HOST", HostValue(port)) + HeaderLine("ST", searchTarget)
  }

  /** The request around the MAN marker. */
  lemma SplitAtMan(port: int, searchTarget: string, mx: int)
    ensures SearchMessage(port, searchTarget, mx) == RequestLine + Marker("MAN") + ManValue + AfterMan(port, searchTarget, mx)
  {
    var m := Marker("MAN");
    var l2, l3, l4 := HeaderLine("HOST", HostValue(port)), HeaderLine("ST", searchTarget), HeaderLine("MX", IntToString(mx));
    var t := l2 + (l3 + (l4 + Crlf));
    Regroup6(RequestLine, HeaderLine("MAN", ManValue), l2, l3, l4, Crlf);
    Regroup4(m, ManValue, Crlf, t);
    Regroup5(Crlf, l2, l3, l4, Crlf);
    Regroup4(RequestLine, m, ManValue, AfterMan(port, searchTarget, mx));
  }

  /** The request around the HOST marker. */
  lemma SplitAtHost(port: int, searchTarget: string, mx: int)
    ensures SearchMessage(port, searchTarget, mx)
            == RequestLine + HeaderLine("MAN", ManValue) + Marker("HOST") + HostValue(port) + AfterHost(searchTarget, mx)
  {
    var m := Marker("HOST");
    var v := HostValue(port);
    var l1, l3, l4 := HeaderLine("MAN", ManValue), HeaderLine("ST", searchTarget), HeaderLine("MX", IntToString(mx));
    var u := l3 + (l4 + Crlf);
    Regroup6(RequestLine, l1, HeaderLine("HOST", v), l3, l4, Crlf);
    Regroup4(Crlf, l3, l4, Crlf);
    Regroup4(m, v, Crlf, u);
    Regroup5(RequestLine, l1, m, v, AfterHost(searchTarget, mx));
  }

  /** The request around the "ST: " that ends "HOST: ". */
  lemma SplitInsideHost(port: int, searchTarget: string, mx: int)
    ensures SearchMessage(port, searchTarget, mx)
            == RequestLine + (HeaderLine("MAN", ManValue) + "HO") + Marker("ST") + HostValue(port) + AfterHost(searchTarget, mx)
  {
    var l1 := HeaderLine("MAN", ManValue);
    var m := Marker("ST");
    var w := HostValue(port) + AfterHost(searchTarget, mx);
    assert Marker("HOST") == "HO" + m;
    SplitAtHost(port, searchTarget, mx);
    Regroup5(RequestLine, l1, Marker("HOST"), HostValue(port), AfterHost(searchTarget, mx));
    Regroup3("HO", m, w);
    Regroup3(l1, "HO", m + w);
    Regroup5(RequestLine, l1 + "HO", m, HostValue(port), AfterHost(searchTarget, mx));
  }

  /** The request around the MX marker. */
  lemma SplitAtMx(port: int, searchTarget: string, mx: int)
    ensures SearchMessage(port, searchTarget, mx) == BeforeMx(port, searchTarget) + Marker("MX") + IntToString(mx) + (Crlf + Crlf)
  {
    var b := BeforeMx(port, searchTarget);
    var m := Marker("MX");
    var v := IntToString(mx);
    assert SearchMessage(port, searchTarget, mx) == b + (m + v + Crlf) + Crlf;
    Regroup3(b, m + v + Crlf, Crlf);
    Regroup4(m, v, Crlf, Crlf);
    Regroup4(b, m, v, Crlf + Crlf);
  }

  /** The characters of the HOST value: digits, dots, a colon, perhaps a minus. */
  lemma HostValueChars(port: int)
    ensures forall i :: 0 <= i < |HostValue(port)| ==> HostChar(HostValue(port)[i])
  {
    IntToStringChars(port);
    assert forall i :: 0 <= i < |MulticastAddress| ==> HostChar(MulticastAddress[i]);
  }

  /** A character of a HOST value: a decimal digit, '.', ':' or '-'. */
  predicate HostChar(c: char) {
    '0' <= c <= '9' || c == '.' || c == ':' || c == '-'
  }

  /** No "MAN: " starts in the request line. */
  lemma ManNoStart(rest: string)
    ensures NoneStartsIn(RequestLine, rest, Marker("MAN"))
  {
    assert 'N' !in RequestLine;
    assert RequestLine[|RequestLine| - 2] == '\r' && RequestLine[|RequestLine| - 1] == '\n';
    MissingCharNoStart(RequestLine, rest, Marker("MAN"), 2);
  }

  /** No "HOST: " starts before the HOST line. */
  lemma HostNoStart(rest: string)
    ensures NoneStartsIn(RequestLine + HeaderLine("MAN", ManValue), rest, Marker("HOST"))
  {
    var before := RequestLine + HeaderLine("MAN", ManValue);
    assert 'O' !in before;
    assert before[|before| - 1] == '\n';
    MissingCharNoStart(before, rest, Marker("HOST"), 1);
  }

  /** No "ST: " starts before the "ST: " that ends "HOST: ". */
  lemma StNoStart(rest: string)
    ensures NoneStartsIn(RequestLine + (HeaderLine("MAN", ManValue) + "HO"), rest, Marker("ST"))
  {
    var m := Marker("ST");
    var q2 := HeaderLine("MAN", ManValue) + "HO";
    assert ':' !in RequestLine;
    assert RequestLine[|RequestLine| - 2] == '\r' && RequestLine[|RequestLine| - 1] == '\n';
    MissingCharNoStart(RequestLine, q2 + rest, m, 2);
    assert 'S' !in q2;
    MissingCharNoStart(q2, rest, m, 0);
    NoneStartsInConcat(RequestLine, q2, rest, m);
  }

  lemma HostValueLacksX(port: int)
    ensures 'X' !in HeaderLine("HOST", HostValue(port))
  {
    HostValueChars(port);
    forall i | 0 <= i < |HostValue(port)| ensures HostValue(port)[i] != 'X' {
      assert HostChar(HostValue(port)[i]);
    }
    assert HeaderLine("HOST", HostValue(port)) == "HOST: " + HostValue(port) + "\r\n";
  }

  /** No "MX: " starts before the MX line, when the search target holds no 'X'. */
  lemma MxNoStart(port: int, searchTarget: string, rest: string)
    requires 'X' !in searchTarget
    ensures NoneStartsIn(BeforeMx(port, searchTarget), rest, Marker("MX"))
  {
    var before := BeforeMx(port, searchTarget);
    HostValueLacksX(port);
    assert 'X' !in RequestLine && 'X' !in HeaderLine("MAN", ManValue);
    assert 'X' !in HeaderLine("ST", searchTarget);
    assert 'X' !in before;
    assert before[|before| - 1] == '\n';
    MissingCharNoStart(before, rest, Marker("MX"), 1);
  }

  /** The MAN value is one line, without "MAN: ". */
  lemma ManValueFacts()
    ensures forall i :: 0 <= i < |ManValue| ==> !IsLineTerminator(ManValue[i])
    ensures !Contains(ManValue, Marker("MAN"))
  {
    ManValueLacksM();
    MissingCharNotContained(ManValue, Marker("MAN"), 'M');
    ManValuePrintable();
  }

  lemma ManValueLacksM()
    ensures 'M' !in ManValue
  {
  }

  lemma ManValuePrintable()
    ensures forall i :: 0 <= i < |ManValue| ==> ' ' <= ManValue[i] <= 'z'
  {
  }

  /** The HOST value is one line, without "HOST: " or "ST: ". */
  lemma HostValueFacts(port: int)
    ensures forall i :: 0 <= i < |HostValue(port)| ==> !IsLineTerminator(HostValue(port)[i])
    ensures !Contains(HostValue(port), Marker("HOST")) && !Contains(HostValue(port), Marker("ST"))
  {
    HostValueChars(port);
    assert 'S' !in HostValue(port) by {
      forall i | 0 <= i < |HostValue(port)| ensures HostValue(port)[i] != 'S' {
        assert HostChar(HostValue(port)[i]);
      }
    }
    MissingCharNotContained(HostValue(port), Marker("HOST"), 'S');
    MissingCharNotContained(HostValue(port), Marker("ST"), 'S');
  }

  /** A written integer is one line, without "MX: ". */
  lemma MxValueFacts(mx: int)
    ensures forall i :: 0 <= i < |IntToString(mx)| ==> !IsLineTerminator(IntToString(mx)[i])
    ensures !Contains(IntToString(mx), Marker("MX"))
  {
    IntToStringChars(mx);
    assert 'M' !in IntToString(mx);
    MissingCharNotContained(IntToString(mx), Marker("MX"), 'M');
  }

  /** The parts after a value start with CR. */
  lemma AftersStartWithCr(port: int, searchTarget: string, mx: int)
    ensures AfterMan(port, searchTarget, mx)[0] == '\r'
    ensures AfterHost(searchTarget, mx)[0] == '\r'
    ensures (Crlf + Crlf)[0] == '\r'
  {
  }

  /** The request's MAN header reads back with the response parser. */
  lemma RequestManReadsBack(port: int, searchTarget: string, mx: int)
    ensures ParseHeader("MAN", SearchMessage(port, searchTarget, mx)) == Some(ManValue)
  {
    var after := AfterMan(port, searchTarget, mx);
    SplitAtMan(port, searchTarget, mx);
    ManNoStart(Marker("MAN") + ManValue + after);
    ManValueFacts();
    AftersStartWithCr(port, searchTarget, mx);
    ParseHeaderLine("MAN", RequestLine, ManValue, after);
  }

  /** The request's HOST header reads back with the response parser: the group and the port. */
  lemma RequestHostReadsBack(port: int, searchTarget: string, mx: int)
    ensures ParseHeader("HOST", SearchMessage(port, searchTarget, mx)) == Some(HostValue(port))
  {
    var after := AfterHost(searchTarget, mx);
    SplitAtHost(port, searchTarget, mx);
    HostNoStart(Marker("HOST") + HostValue(port) + after);
    HostValueFacts(port);
    AftersStartWithCr(port, searchTarget, mx);
    ParseHeaderLine("HOST", RequestLine + HeaderLine("MAN", ManValue), HostValue(port), after);
  }

  /**
   * The request's ST header does not read back: the unanchored match finds
   * "ST: " inside "HOST: " first, and yields the HOST value.
   */
  lemma RequestStReadsHost(port: int, searchTarget: string, mx: int)
    ensures ParseHeader("ST", SearchMessage(port, searchTarget, mx)) == Some(HostValue(port))
  {
    var after := AfterHost(searchTarget, mx);
    SplitInsideHost(port, searchTarget, mx);
    StNoStart(Marker("ST") + HostValue(port) + after);
    HostValueFacts(port);
    AftersStartWithCr(port, searchTarget, mx);
    ParseHeaderLine("ST", RequestLine + (HeaderLine("MAN", ManValue) + "HO"), HostValue(port), after);
  }

  /** The request's MX header reads back with the response parser, when the search target holds no 'X'. */
  lemma RequestMxReadsBack(port: int, searchTarget: string, mx: int)
    requires 'X' !in searchTarget
    ensures ParseHeader("MX", SearchMessage(port, searchTarget, mx)) == Some(IntToString(mx))
  {
    SplitAtMx(port, searchTarget, mx);
    MxNoStart(port, searchTarget, Marker("MX") + IntToString(mx) + (Crlf + Crlf));
    MxValueFacts(mx);
    AftersStartWithCr(port, searchTarget, mx);
    ParseHeaderLine("MX", BeforeMx(port, searchTarget), IntToString(mx), Crlf + Crlf);
  }

  // ---------------------------------------------------------------- discovery

  /** What the delegate is told, in order. The error value itself is not modelled. */
  datatype Event = DidStart | DidDiscover(service: Service) | DidFailWithError | DidFinish

  /** How the socket calls of `discoverService` turn out. */
  datatype SetupOutcome = Ready | CreateFailed | ListenFailed | WriteFailed

  /**
   * How one `readDatagram` turns out: a datagram with its byte count and,
   * when they could be had, the sender's host name and the UTF-8 text; or
   * an error thrown by the read.
   */
  datatype ReadOutcome = Datagram(bytesRead: int, host: Option<string>, text: Option<string>) | ReadError

  /** `SSDPDiscovery`: a socket, held or not, and the delegate calls made so far. */
  class Discovery {
    var socket: bool
    var events: seq<Event>

    constructor()
      ensures !socket && events == []
    {
      socket := false;
      events := [];
    }

    /** `isDiscovering`: a socket is held. */
    predicate IsDiscovering()
      reads this
    {
      socket
    }

    /** `forceStop()`: close the socket if there is one and drop it; nobody is told. */
    method ForceStop()
      modifies this
      ensures !IsDiscovering()
      ensures events == old(events)
    {
      socket := false;
    }

    /** `stop()`: only a held socket is dropped and reported as finished. */
    method Stop()
      modifies this
      ensures !IsDiscovering()
      ensures events == old(events) + (if old(socket) then [DidFinish] else [])
    {
      if socket {
        ForceStop();
        events := events + [DidFinish];
      }
    }

    /**
     * `discoverService(forDuration:searchTarget:port:)`: report the start,
     * open and bind the socket, send the request; any failure force-stops
     * and is reported. Returns the request when it was sent.
     */
    method DiscoverService(mx: int, searchTarget: string, port: int, outcome: SetupOutcome) returns (sent: Option<string>)
      modifies this
      ensures IsDiscovering() <==> outcome == Ready
      ensures events == old(events) + [DidStart] + (if outcome == Ready then [] else [DidFailWithError])
      ensures sent == if outcome == Ready then Some(SearchMessage(port, searchTarget, mx)) else None
    {
      events := events + [DidStart];
      var message := SearchMessage(port, searchTarget, mx);
      sent := None;
      if outcome == CreateFailed {
        ForceStop();
        events := events + [DidFailWithError];
        return;
      }
      socket := true;
      if outcome == ListenFailed || outcome == WriteFailed {
        ForceStop();
        events := events + [DidFailWithError];
        return;
      }
      sent := Some(message);
    }

    /**
     * `readResponses()`: without a socket nothing happens; a non-empty
     * datagram with a sender and a text is reported as a service; a read
     * error force-stops and is reported.
     */
    method ReadResponse(outcome: ReadOutcome)
      modifies this
      ensures !old(socket) ==> socket == old(socket) && events == old(events)
      ensures old(socket) && outcome.ReadError? ==> !socket && events == old(events) + [DidFailWithError]
      ensures old(socket) && outcome.Datagram? ==>
                socket &&
                events == old(events) +
                  (if outcome.bytesRead > 0 && outcome.host.Some? && outcome.text.Some?
                   then [DidDiscover(ServiceOf(outcome.host.value, outcome.text.value))] else [])
    {
      if !socket {
        return;
      }
      match outcome
      case ReadError =>
        ForceStop();
        events := events + [DidFailWithError];
      case Datagram(n, host, text) =>
        if n > 0 && host.Some? && text.Some? {
          events := events + [DidDiscover(ServiceOf(host.value, text.value))];
        }
    }
  }

  /** Stopping twice after a successful start reports "finished" once. */
  method StopTwice() returns (events: seq<Event>)
    ensures events == [DidStart, DidFinish]
  {
    var d := new Discovery();
    var _ := d.DiscoverService(10, "ssdp:all", 1900, Ready);
    d.Stop();
    d.Stop();
    events := d.events;
  }

  /** After a failed setup, a later `stop()` reports nothing more: the error is the last word. */
  method FailedSetupThenStop(outcome: SetupOutcome) returns (events: seq<Event>)
    requires outcome != Ready
    ensures events == [DidStart, DidFailWithError]
  {
    var d := new Discovery();
    var _ := d.DiscoverService(10, "ssdp:all", 1900, outcome);
    d.Stop();
    events := d.events;
  }

  /** After a read error, neither a further read nor `stop()` reports anything. */
  method ReadErrorThenStop(next: ReadOutcome) returns (events: seq<Event>)
    ensures events == [DidStart, DidFailWithError]
  {
    var d := new Discovery();
    var _ := d.DiscoverService(10, "ssdp:all", 1900, Ready);
    d.ReadResponse(ReadError);
    d.ReadResponse(next);
    d.Stop();
    events := d.events;
  }
}
