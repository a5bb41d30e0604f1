/** Remote-control actions and their compact string and URL forms (Action.swift). */
module Actions {
  import opened Wrappers
  import opened Strings
  import Commands
  import FriendlyApps

  /** `enum Action`. */
  datatype Action =
    | OpenApp(app: FriendlyApps.FriendlyApp)
    | SendCommand(command: Commands.Command)
    | SendText(text: string)

  const TypePrefix: string := ""
  const AppPrefix: string := TypePrefix + "app-"
  const CommandPrefix: string := TypePrefix + "command-"
  const TextPrefix: string := TypePrefix + "text-"
  const UrlScheme: string := "action://"

  /** `type`: the compact string form of an action. */
  function Type(a: Action): string {
    match a
    case OpenApp(f) => TypePrefix + "app-" + FriendlyApps.RawValue(f)
    case SendCommand(c) => TypePrefix + "command-" + Commands.RawValue(c)
    case SendText(s) => TypePrefix + "text-" + s
  }

  /**
   * `init?(type:)`. The prefixes are tried in the order app, command, text;
   * the first one that matches decides the branch, and every occurrence of
   * it (not only the leading one) is removed before the remainder is read.
   */
  function FromType(t: string): Option<Action> {
    if HasPrefix(t, AppPrefix) then
      match FriendlyApps.Parse(ReplaceAll(t, AppPrefix, ""))
      case Some(f) => Some(OpenApp(f))
      case None => None
    else if HasPrefix(t, CommandPrefix) then
      match Commands.Parse(ReplaceAll(t, CommandPrefix, ""))
      case Some(c) => Some(SendCommand(c))
      case None => None
    else if HasPrefix(t, TextPrefix) then
      Some(SendText(ReplaceAll(t, TextPrefix, "")))
    else
      None
  }

  /** `url.absoluteString`: the type behind the "action://" scheme. */
  function Url(a: Action): string {
    UrlScheme + Type(a)
  }

  /** `init?(url:)`: the scheme must lead; then every occurrence of it is removed and the rest decoded. */
  function FromUrl(absoluteString: string): Option<Action> {
    if HasPrefix(absoluteString, UrlScheme) then
      FromType(ReplaceAll(absoluteString, UrlScheme, ""))
    else
      None
  }

  /** With the empty type prefix, the three forms are "app-", "command-" and "text-" followed by the payload. */
  lemma TypeForms(a: Action)
    ensures a.OpenApp? ==> Type(a) == "app-" + FriendlyApps.RawValue(a.app)
    ensures a.SendCommand? ==> Type(a) == "command-" + Commands.RawValue(a.command)
    ensures a.SendText? ==> Type(a) == "text-" + a.text
  {
    match a
    case OpenApp(f) => AppForm(f);
    case SendCommand(c) => CommandForm(c);
    case SendText(s) => TextForm(s);
  }

  lemma AppForm(f: FriendlyApps.FriendlyApp)
    ensures Type(OpenApp(f)) == "app-" + FriendlyApps.RawValue(f)
  {
  }

  lemma CommandForm(c: Commands.Command)
    ensures Type(SendCommand(c)) == "command-" + Commands.RawValue(c)
  {
  }

  lemma TextForm(s: string)
    ensures Type(SendText(s)) == "text-" + s
  {
  }

  /** Decoding the form of an app launch gives the same launch back. */
  lemma AppRoundTrip(f: FriendlyApps.FriendlyApp)
    ensures FromType(Type(OpenApp(f))) == Some(OpenApp(f))
  {
    var raw := FriendlyApps.RawValue(f);
    assert Type(OpenApp(f)) == AppPrefix + raw;
    ReplaceAllLeading(raw, AppPrefix, "");
    FriendlyApps.RawValueLacksAppPrefix(f);
    assert AppPrefix == "app-";
    ReplaceAllAbsent(raw, AppPrefix, "");
    assert ReplaceAll(AppPrefix + raw, AppPrefix, "") == raw;
    FriendlyApps.ParseRawValue(f);
    assert HasPrefix(AppPrefix + raw, AppPrefix);
  }

  /** Decoding the form of a command gives the same command back. */
  lemma CommandRoundTrip(c: Commands.Command)
    ensures FromType(Type(SendCommand(c))) == Some(SendCommand(c))
  {
    var raw := Commands.RawValue(c);
    assert Type(SendCommand(c)) == CommandPrefix + raw;
    assert !HasPrefix(CommandPrefix + raw, AppPrefix) by {
      assert (CommandPrefix + raw)[0] == 'c';
    }
    ReplaceAllLeading(raw, CommandPrefix, "");
    Commands.RawValueLacksCommandPrefix(c);
    assert CommandPrefix == "command-";
    ReplaceAllAbsent(raw, CommandPrefix, "");
    assert ReplaceAll(CommandPrefix + raw, CommandPrefix, "") == raw;
    Commands.ParseRawValue(c);
    assert HasPrefix(CommandPrefix + raw, CommandPrefix);
  }

  /** Decoding the form of a text gives the text with every "text-" removed from it. */
  lemma TextDecodesStripped(s: string)
    ensures FromType(Type(SendText(s))) == Some(SendText(ReplaceAll(s, TextPrefix, "")))
  {
    var t := TextPrefix + s;
    assert Type(SendText(s)) == t;
    assert !HasPrefix(t, AppPrefix) && !HasPrefix(t, CommandPrefix) by {
      assert t[0] == 't';
    }
    ReplaceAllLeading(s, TextPrefix, "");
    assert ReplaceAll(t, TextPrefix, "") == ReplaceAll(s, TextPrefix, "");
    assert HasPrefix(t, TextPrefix);
  }

  /** A text survives the round trip exactly when it does not itself contain "text-". */
  lemma TextRoundTripIff(s: string)
    ensures FromType(Type(SendText(s))) == Some(SendText(s)) <==> !Contains(s, TextPrefix)
  {
    TextDecodesStripped(s);
    RemoveAllIdentity(s, TextPrefix);
  }

  /**
   * A "text-" inside the text is stripped as well: for any characters a and
   * b, the text a + "text-" + b comes back as a + b ("atext-b" as "ab").
   */
  lemma StripsEveryTextPrefix(a: char, b: char)
    ensures FromType(Type(SendText([a] + TextPrefix + [b]))) == Some(SendText([a, b]))
  {
    var s := [a] + (TextPrefix + [b]);
    assert [a] + TextPrefix + [b] == s;
    assert !(TextPrefix <= s) by {
      assert s[1] == 't' != TextPrefix[1];
    }
    ReplaceAllSkip(a, TextPrefix + [b], TextPrefix, "");
    ReplaceAllLeading([b], TextPrefix, "");
    MissingCharNotContained([b], TextPrefix, if b == 't' then 'e' else 't');
    ReplaceAllAbsent([b], TextPrefix, "");
    assert ReplaceAll(s, TextPrefix, "") == [a] + ("" + [b]) == [a, b];
    TextDecodesStripped(s);
  }

  /** Stripping "text-" from "te" + "text-" + x keeps "te" and x, and these may join into a new "text-". */
  lemma {:induction false} StripAroundPrefix(x: string)
    requires !Contains(x, TextPrefix)
    ensures ReplaceAll(['t'] + (['e'] + (TextPrefix + x)), TextPrefix, "") == ['t'] + (['e'] + x)
  {
    var tail := TextPrefix + x;
    var s1 := ['e'] + tail;
    var s0 := ['t'] + s1;
    assert s0[2] == 't' != TextPrefix[2];
    ReplaceAllSkip('t', s1, TextPrefix, "");
    assert !(TextPrefix <= s1);
    ReplaceAllSkip('e', tail, TextPrefix, "");
    ReplaceAllLeading(x, TextPrefix, "");
    ReplaceAllAbsent(x, TextPrefix, "");
    calc {
      ReplaceAll(s0, TextPrefix, "");
      ['t'] + ReplaceAll(s1, TextPrefix, "");
      ['t'] + (['e'] + ReplaceAll(tail, TextPrefix, ""));
      { assert ReplaceAll(tail, TextPrefix, "") == "" + x == x; }
      ['t'] + (['e'] + x);
    }
  }

  /**
   * Decoding after encoding is not even idempotent on texts: one round
   * trip turns "tetext-xt-" into "text-", and a second one (below) into "".
   */
  lemma TextRoundTripCreatesPrefix()
    ensures FromType(Type(SendText("te" + TextPrefix + "xt-"))) == Some(SendText(TextPrefix))
  {
    var x := "xt-";
    MissingCharNotContained(x, TextPrefix, 'e');
    StripAroundPrefix(x);
    var s := ['t'] + (['e'] + (TextPrefix + x));
    assert "te" + TextPrefix + x == s by {
      assert "te" == ['t'] + ['e'];
    }
    assert ['t'] + (['e'] + x) == TextPrefix;
    TextDecodesStripped(s);
  }

  /** The round trip of the text "text-" gives the empty text. */
  lemma TextRoundTripOfPrefix()
    ensures FromType(Type(SendText("text-"))) == Some(SendText(""))
  {
    TextDecodesStripped("text-");
    assert "text-" == TextPrefix + "";
    ReplaceAllLeading("", TextPrefix, "");
  }

  /** A string that starts with "app-" decodes to an app launch or to nothing, never to a command or a text. */
  lemma AppPrefixDecidesBranch(t: string)
    requires HasPrefix(t, AppPrefix)
    ensures FromType(t).None? <==> FriendlyApps.Parse(ReplaceAll(t, AppPrefix, "")).None?
    ensures FromType(t).Some? ==> FromType(t).value.OpenApp?
  {
  }

  /** A string that starts with "command-" decodes to a command or to nothing. */
  lemma CommandPrefixDecidesBranch(t: string)
    requires HasPrefix(t, CommandPrefix)
    ensures FromType(t).None? <==> Commands.Parse(ReplaceAll(t, CommandPrefix, "")).None?
    ensures FromType(t).Some? ==> FromType(t).value.SendCommand?
  {
    assert !HasPrefix(t, AppPrefix) by {
      assert t[0] == 'c';
    }
  }

  /** A string with none of the three prefixes decodes to nothing. */
  lemma NoPrefixNoAction(t: string)
    requires !HasPrefix(t, AppPrefix) && !HasPrefix(t, CommandPrefix) && !HasPrefix(t, TextPrefix)
    ensures FromType(t) == None
  {
  }

  /** Only strings starting with "action://" can decode from the URL form. */
  lemma UrlNeedsScheme(u: string)
    ensures FromUrl(u).Some? ==> HasPrefix(u, UrlScheme)
  {
  }

  /** Behind the scheme, a type that does not itself contain "action://" is decoded as it is. */
  lemma UrlStripsScheme(t: string)
    requires !Contains(t, UrlScheme)
    ensures FromUrl(UrlScheme + t) == FromType(t)
  {
    ReplaceAllLeading(t, UrlScheme, "");
    ReplaceAllAbsent(t, UrlScheme, "");
    assert ReplaceAll(UrlScheme + t, UrlScheme, "") == t;
    assert HasPrefix(UrlScheme + t, UrlScheme);
  }

  /** The URL form of an app launch or a command decodes to the same action. */
  lemma UrlRoundTrip(a: Action)
    requires !a.SendText?
    ensures FromUrl(Url(a)) == Some(a)
  {
    var t := Type(a);
    match a {
      case OpenApp(f) =>
        FriendlyApps.RawValueLacksAppPrefix(f);
        assert t == AppPrefix + FriendlyApps.RawValue(f);
        AppRoundTrip(f);
      case SendCommand(c) =>
        Commands.RawValueLacksCommandPrefix(c);
        assert t == CommandPrefix + Commands.RawValue(c);
        CommandRoundTrip(c);
    }
    assert ':' !in t;
    MissingCharNotContained(t, UrlScheme, ':');
    UrlStripsScheme(t);
  }

  /** The URL form of a text decodes to the same text when it holds neither "action://" nor "text-". */
  lemma UrlTextRoundTrip(s: string)
    requires !Contains(s, UrlScheme) && !Contains(s, TextPrefix)
    ensures FromUrl(Url(SendText(s))) == Some(SendText(s))
  {
    var t := Type(SendText(s));
    assert t == TextPrefix + s;
    ContainsAfterPrefix(TextPrefix, s, UrlScheme);
    UrlStripsScheme(t);
    TextRoundTripIff(s);
  }
}
