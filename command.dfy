/** The closed vocabulary of remote-control buttons (Command.swift). */
module Commands {
  import opened Wrappers
  import opened Strings

  /** `enum Command: String, CaseIterable`, 32 cases in declaration order. */
  datatype Command =
    | Power | Source | Menu | Exit | VolumeUp | VolumeDown | Subtitles | Settings
    | ChannelUp | ChannelDown | Pause | Play | Mute | FastBackward | FastForward | Back
    | Home | ArrowUp | ArrowDown | ArrowLeft | ArrowRight | Ok
    | Digit1 | Digit2 | Digit3 | Digit4 | Digit5 | Digit6 | Digit7 | Digit8 | Digit9 | Digit0

  /** `Command.allCases`. */
  const AllCases: seq<Command> := [
    Power, Source, Menu, Exit, VolumeUp, VolumeDown, Subtitles, Settings,
    ChannelUp, ChannelDown, Pause, Play, Mute, FastBackward, FastForward, Back,
    Home, ArrowUp, ArrowDown, ArrowLeft, ArrowRight, Ok,
    Digit1, Digit2, Digit3, Digit4, Digit5, Digit6, Digit7, Digit8, Digit9, Digit0]

  /** `rawValue`: the Swift case name. */
  function RawValue(c: Command): string {
    match c
    case Power => "power"
    case Source => "source"
    case Menu => "menu"
    case Exit => "exit"
    case VolumeUp => "volumeUp"
    case VolumeDown => "volumeDown"
    case Subtitles => "subtitles"
    case Settings => "settings"
    case ChannelUp => "channelUp"
    case ChannelDown => "channelDown"
    case Pause => "pause"
    case Play => "play"
    case Mute => "mute"
    case FastBackward => "fastBackward"
    case FastForward => "fastForward"
    case Back => "back"
    case Home => "home"
    case ArrowUp => "arrowUp"
    case ArrowDown => "arrowDown"
    case ArrowLeft => "arrowLeft"
    case ArrowRight => "arrowRight"
    case Ok => "ok"
    case Digit1 => "digit1"
    case Digit2 => "digit2"
    case Digit3 => "digit3"
    case Digit4 => "digit4"
    case Digit5 => "digit5"
    case Digit6 => "digit6"
    case Digit7 => "digit7"
    case Digit8 => "digit8"
    case Digit9 => "digit9"
    case Digit0 => "digit0"
  }

  /** `Command(rawValue:)`: exact, case-sensitive match of a case name. */
  function Parse(s: string): Option<Command> {
    match s
    case "power" => Some(Power)
    case "source" => Some(Source)
    case "menu" => Some(Menu)
    case "exit" => Some(Exit)
    case "volumeUp" => Some(VolumeUp)
    case "volumeDown" => Some(VolumeDown)
    case "subtitles" => Some(Subtitles)
    case "settings" => Some(Settings)
    case "channelUp" => Some(ChannelUp)
    case "channelDown" => Some(ChannelDown)
    case "pause" => Some(Pause)
    case "play" => Some(Play)
    case "mute" => Some(Mute)
    case "fastBackward" => Some(FastBackward)
    case "fastForward" => Some(FastForward)
    case "back" => Some(Back)
    case "home" => Some(Home)
    case "arrowUp" => Some(ArrowUp)
    case "arrowDown" => Some(ArrowDown)
    case "arrowLeft" => Some(ArrowLeft)
    case "arrowRight" => Some(ArrowRight)
    case "ok" => Some(Ok)
    case "digit1" => Some(Digit1)
    case "digit2" => Some(Digit2)
    case "digit3" => Some(Digit3)
    case "digit4" => Some(Digit4)
    case "digit5" => Some(Digit5)
    case "digit6" => Some(Digit6)
    case "digit7" => Some(Digit7)
    case "digit8" => Some(Digit8)
    case "digit9" => Some(Digit9)
    case "digit0" => Some(Digit0)
    case _ => None
  }

  /** Parsing the raw value of any case gives that case back. */
  lemma ParseRawValue(c: Command)
    ensures Parse(RawValue(c)) == Some(c)
  {
    if c.Power? || c.Source? || c.Menu? || c.Exit? || c.VolumeUp? || c.VolumeDown? || c.Subtitles? || c.Settings? {
      ParseRawValue1(c);
    } else if c.ChannelUp? || c.ChannelDown? || c.Pause? || c.Play? || c.Mute? || c.FastBackward? || c.FastForward? || c.Back? {
      ParseRawValue2(c);
    } else if c.Home? || c.ArrowUp? || c.ArrowDown? || c.ArrowLeft? || c.ArrowRight? || c.Ok? || c.Digit1? || c.Digit2? {
      ParseRawValue3(c);
    } else if c.Digit3? || c.Digit4? || c.Digit5? || c.Digit6? {
      ParseRawValue4(c);
    } else {
      ParseRawValue5(c);
    }
  }

  // The round trip and the character facts are proved for groups of eight cases, which keeps each proof small.
  lemma ParseRawValue1(c: Command)
    requires c.Power? || c.Source? || c.Menu? || c.Exit? || c.VolumeUp? || c.VolumeDown? || c.Subtitles? || c.Settings?
    ensures Parse(RawValue(c)) == Some(c)
  {
  }

  lemma ParseRawValue2(c: Command)
    requires c.ChannelUp? || c.ChannelDown? || c.Pause? || c.Play? || c.Mute? || c.FastBackward? || c.FastForward? || c.Back?
    ensures Parse(RawValue(c)) == Some(c)
  {
  }

  lemma ParseRawValue3(c: Command)
    requires c.Home? || c.ArrowUp? || c.ArrowDown? || c.ArrowLeft? || c.ArrowRight? || c.Ok? || c.Digit1? || c.Digit2?
    ensures Parse(RawValue(c)) == Some(c)
  {
  }

  lemma ParseRawValue4(c: Command)
    requires c.Digit3? || c.Digit4? || c.Digit5? || c.Digit6?
    ensures Parse(RawValue(c)) == Some(c)
  {
  }

  lemma ParseRawValue5(c: Command)
    requires c.Digit7? || c.Digit8? || c.Digit9? || c.Digit0?
    ensures Parse(RawValue(c)) == Some(c)
  {
  }

  /** A successful parse returns a case whose raw value is the input itself. */
  lemma ParseSound(s: string)
    ensures Parse(s).Some? ==> RawValue(Parse(s).value) == s
  {
  }

  /** Parsing is exactly the inverse of `rawValue`: it succeeds on the 32 case names and nothing else. */
  lemma ParseIff(s: string, c: Command)
    ensures Parse(s) == Some(c) <==> RawValue(c) == s
  {
    ParseRawValue(c);
    ParseSound(s);
  }

  /** Matching is case-sensitive: "Power" names no command. */
  lemma ParseIsCaseSensitive()
    ensures Parse("Power") == None
  {
  }

  /** `allCases` lists all 32 cases, each exactly once, in declaration order. */
  lemma AllCasesComplete(c: Command)
    ensures |AllCases| == 32 && Distinct(AllCases)
    ensures c in AllCases
  {
    OrdinalsInOrder();
  }

  /** The position of a case in declaration order. */
  function Ordinal(c: Command): nat {
    match c
    case Power => 0
    case Source => 1
    case Menu => 2
    case Exit => 3
    case VolumeUp => 4
    case VolumeDown => 5
    case Subtitles => 6
    case Settings => 7
    case ChannelUp => 8
    case ChannelDown => 9
    case Pause => 10
    case Play => 11
    case Mute => 12
    case FastBackward => 13
    case FastForward => 14
    case Back => 15
    case Home => 16
    case ArrowUp => 17
    case ArrowDown => 18
    case ArrowLeft => 19
    case ArrowRight => 20
    case Ok => 21
    case Digit1 => 22
    case Digit2 => 23
    case Digit3 => 24
    case Digit4 => 25
    case Digit5 => 26
    case Digit6 => 27
    case Digit7 => 28
    case Digit8 => 29
    case Digit9 => 30
    case Digit0 => 31
  }

  /** `allCases` holds each case at its ordinal, so no case appears twice. */
  lemma OrdinalsInOrder()
    ensures forall i :: 0 <= i < |AllCases| ==> Ordinal(AllCases[i]) == i
  {
    OrdinalsFirstHalf();
    OrdinalsSecondHalf();
  }

  /** The first sixteen entries of `allCases` sit at their ordinals. */
  lemma OrdinalsFirstHalf()
    ensures forall i :: 0 <= i < 16 ==> Ordinal(AllCases[i]) == i
  {
  }

  /** The last sixteen entries of `allCases` sit at their ordinals. */
  lemma OrdinalsSecondHalf()
    ensures forall i :: 16 <= i < 32 ==> Ordinal(AllCases[i]) == i
  {
  }

  /** Different cases have different raw values. */
  lemma {:induction false} RawValueInjective(c: Command, d: Command)
    ensures RawValue(c) == RawValue(d) ==> c == d
  {
    ParseRawValue(c);
    ParseRawValue(d);
  }

  /** Raw values are plain identifiers: none holds a '-' or a ':'. */
  lemma RawValueLacksPunctuation(c: Command)
    ensures '-' !in RawValue(c) && ':' !in RawValue(c)
  {
    if c.Power? || c.Source? || c.Menu? || c.Exit? || c.VolumeUp? || c.VolumeDown? || c.Subtitles? || c.Settings? {
      LacksPunctuation1(c);
    } else if c.ChannelUp? || c.ChannelDown? || c.Pause? || c.Play? || c.Mute? || c.FastBackward? || c.FastForward? || c.Back? {
      LacksPunctuation2(c);
    } else if c.Home? || c.ArrowUp? || c.ArrowDown? || c.ArrowLeft? || c.ArrowRight? || c.Ok? || c.Digit1? || c.Digit2? {
      LacksPunctuation3(c);
    } else if c.Digit3? || c.Digit4? || c.Digit5? || c.Digit6? {
      LacksPunctuation4(c);
    } else {
      LacksPunctuation5(c);
    }
  }

  lemma LacksPunctuation1(c: Command)
    requires c.Power? || c.Source? || c.Menu? || c.Exit? || c.VolumeUp? || c.VolumeDown? || c.Subtitles? || c.Settings?
    ensures '-' !in RawValue(c) && ':' !in RawValue(c)
  {
  }

  lemma LacksPunctuation2(c: Command)
    requires c.ChannelUp? || c.ChannelDown? || c.Pause? || c.Play? || c.Mute? || c.FastBackward? || c.FastForward? || c.Back?
    ensures '-' !in RawValue(c) && ':' !in RawValue(c)
  {
  }

  lemma LacksPunctuation3(c: Command)
    requires c.Home? || c.ArrowUp? || c.ArrowDown? || c.ArrowLeft? || c.ArrowRight? || c.Ok? || c.Digit1? || c.Digit2?
    ensures '-' !in RawValue(c) && ':' !in RawValue(c)
  {
  }

  lemma LacksPunctuation4(c: Command)
    requires c.Digit3? || c.Digit4? || c.Digit5? || c.Digit6?
    ensures '-' !in RawValue(c) && ':' !in RawValue(c)
  {
  }

  lemma LacksPunctuation5(c: Command)
    requires c.Digit7? || c.Digit8? || c.Digit9? || c.Digit0?
    ensures '-' !in RawValue(c) && ':' !in RawValue(c)
  {
  }

  /** Hence no raw value contains the action prefix "command-". */
  lemma RawValueLacksCommandPrefix(c: Command)
    ensures '-' !in RawValue(c) && ':' !in RawValue(c)
    ensures !Contains(RawValue(c), "command-")
  {
    RawValueLacksPunctuation(c);
    MissingCharNotContained(RawValue(c), "command-", '-');
  }
}
