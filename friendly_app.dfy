/** The closed set of well-known streaming apps and their vendor ids (FriendlyApp.swift). */
module FriendlyApps {
  import opened Wrappers
  import opened Strings

  /** `enum FriendlyApp: String, CaseIterable`, 13 cases in declaration order. */
  datatype FriendlyApp =
    | Netflix | YouTube | AppleTV | Spotify | PrimeVideo | DisneyPlus | HboMax
    | GooglePlay | Browser | Ted | HboGo | Vevo | Vimeo

  /** `FriendlyApp.allCases`. */
  const AllCases: seq<FriendlyApp> := [
    Netflix, YouTube, AppleTV, Spotify, PrimeVideo, DisneyPlus, HboMax,
    GooglePlay, Browser, Ted, HboGo, Vevo, Vimeo]

  /** `rawValue`: the Swift case name. */
  function RawValue(a: FriendlyApp): string {
    match a
    case Netflix => "netflix"
    case YouTube => "youTube"
    case AppleTV => "appleTV"
    case Spotify => "spotify"
    case PrimeVideo => "primeVideo"
    case DisneyPlus => "disneyPlus"
    case HboMax => "hboMax"
    case GooglePlay => "googlePlay"
    case Browser => "browser"
    case Ted => "ted"
    case HboGo => "hboGo"
    case Vevo => "vevo"
    case Vimeo => "vimeo"
  }

  /** `FriendlyApp(rawValue:)`: exact, case-sensitive match of a case name. */
  function Parse(s: string): Option<FriendlyApp> {
    match s
    case "netflix" => Some(Netflix)
    case "youTube" => Some(YouTube)
    case "appleTV" => Some(AppleTV)
    case "spotify" => Some(Spotify)
    case "primeVideo" => Some(PrimeVideo)
    case "disneyPlus" => Some(DisneyPlus)
    case "hboMax" => Some(HboMax)
    case "googlePlay" => Some(GooglePlay)
    case "browser" => Some(Browser)
    case "ted" => Some(Ted)
    case "hboGo" => Some(HboGo)
    case "vevo" => Some(Vevo)
    case "vimeo" => Some(Vimeo)
    case _ => None
  }

  /** `ids`: the vendor-specific identifiers under which each app is known, in table order. */
  function Ids(a: FriendlyApp): seq<string> {
    match a
    case Netflix => ["11101200001", "netflix", "com.netflix.mediaclient", "12"]
    case YouTube => ["111299001912", "youtube.leanback.v4", "com.google.android.youtube.tv", "837"]
    case AppleTV => ["com.apple.appletv", "com.apple.atve.sony.appletv", "551012"]
    case Spotify => ["3201606009684", "spotify-beehive", "com.spotify.tv.android", "22297"]
    case PrimeVideo => ["3201512006785", "amazon", "com.amazon.amazonvideo.livingroom", "13"]
    case DisneyPlus => ["3201901017640", "com.disney.disneyplus-prod", "com.disney.disneyplus", "291097"]
    case HboMax => ["3201601007230", "com.hbo.hbomax", "com.hbo.hbonow"]
    case GooglePlay => ["3201601007250", "com.google.android.videos"]
    case Browser => ["org.tizen.browser", "com.webos.app.browser"]
    case Ted => ["111299001922", "com.ted.android.tv"]
    case HboGo => ["3201706012478"]
    case Vevo => ["3201601007390", "com.vevo.tv", "644183"]
    case Vimeo => ["11101000410", "com.vimeo.android.videoapp"]
  }

  /** Parsing the raw value of any case gives that case back. */
  lemma ParseRawValue(a: FriendlyApp)
    ensures Parse(RawValue(a)) == Some(a)
  {
  }

  /** A successful parse returns a case whose raw value is the input itself. */
  lemma ParseSound(s: string)
    ensures Parse(s).Some? ==> RawValue(Parse(s).value) == s
  {
  }

  /** Parsing is exactly the inverse of `rawValue`. */
  lemma ParseIff(s: string, a: FriendlyApp)
    ensures Parse(s) == Some(a) <==> RawValue(a) == s
  {
    ParseRawValue(a);
    ParseSound(s);
  }

  /** `allCases` lists all 13 cases, each exactly once, in declaration order. */
  lemma AllCasesComplete(a: FriendlyApp)
    ensures |AllCases| == 13 && Distinct(AllCases)
    ensures a in AllCases
  {
  }

  /** Raw values are plain identifiers: none holds a '-' or a ':'. */
  lemma RawValueLacksPunctuation(a: FriendlyApp)
    ensures '-' !in RawValue(a) && ':' !in RawValue(a)
  {
    match a
    case Netflix =>
    case YouTube =>
    case AppleTV =>
    case Spotify =>
    case PrimeVideo =>
    case DisneyPlus =>
    case HboMax =>
    case GooglePlay =>
    case Browser =>
    case Ted =>
    case HboGo =>
    case Vevo =>
    case Vimeo =>
  }

  /** Hence no raw value contains the action prefix "app-". */
  lemma RawValueLacksAppPrefix(a: FriendlyApp)
    ensures '-' !in RawValue(a) && ':' !in RawValue(a)
    ensures !Contains(RawValue(a), "app-")
  {
    RawValueLacksPunctuation(a);
    MissingCharNotContained(RawValue(a), "app-", '-');
  }

  /** Every app is known under at least one id. */
  lemma IdsNonEmpty(a: FriendlyApp)
    ensures |Ids(a)| > 0
  {
  }

  /** The table read the other way round: each id with the app whose list holds it. */
  const OwnerTable: map<string, FriendlyApp> := map[
    "11101200001" := Netflix,
    "netflix" := Netflix,
    "com.netflix.mediaclient" := Netflix,
    "12" := Netflix,
    "111299001912" := YouTube,
    "youtube.leanback.v4" := YouTube,
    "com.google.android.youtube.tv" := YouTube,
    "837" := YouTube,
    "com.apple.appletv" := AppleTV,
    "com.apple.atve.sony.appletv" := AppleTV,
    "551012" := AppleTV,
    "3201606009684" := Spotify,
    "spotify-beehive" := Spotify,
    "com.spotify.tv.android" := Spotify,
    "22297" := Spotify,
    "3201512006785" := PrimeVideo,
    "amazon" := PrimeVideo,
    "com.amazon.amazonvideo.livingroom" := PrimeVideo,
    "13" := PrimeVideo,
    "3201901017640" := DisneyPlus,
    "com.disney.disneyplus-prod" := DisneyPlus,
    "com.disney.disneyplus" := DisneyPlus,
    "291097" := DisneyPlus,
    "3201601007230" := HboMax,
    "com.hbo.hbomax" := HboMax,
    "com.hbo.hbonow" := HboMax,
    "3201601007250" := GooglePlay,
    "com.google.android.videos" := GooglePlay,
    "org.tizen.browser" := Browser,
    "com.webos.app.browser" := Browser,
    "111299001922" := Ted,
    "com.ted.android.tv" := Ted,
    "3201706012478" := HboGo,
    "3201601007390" := Vevo,
    "com.vevo.tv" := Vevo,
    "644183" := Vevo,
    "11101000410" := Vimeo,
    "com.vimeo.android.videoapp" := Vimeo
  ]

  /** The app whose list holds `id`, if any. */
  function Owner(id: string): Option<FriendlyApp> {
    if id in OwnerTable then Some(OwnerTable[id]) else None
  }

  /** Each id of an app's list is owned by that app. */
  lemma OwnerOfIds(a: FriendlyApp, id: string)
    requires id in Ids(a)
    ensures Owner(id) == Some(a)
  {
    match a
    case Netflix => NetflixOwnsIds();
    case YouTube => YouTubeOwnsIds();
    case AppleTV => AppleTVOwnsIds();
    case Spotify => SpotifyOwnsIds();
    case PrimeVideo => PrimeVideoOwnsIds();
    case DisneyPlus => DisneyPlusOwnsIds();
    case HboMax => HboMaxOwnsIds();
    case GooglePlay => GooglePlayOwnsIds();
    case Browser => BrowserOwnsIds();
    case Ted => TedOwnsIds();
    case HboGo => HboGoOwnsIds();
    case Vevo => VevoOwnsIds();
    case Vimeo => VimeoOwnsIds();
  }

  // One lemma per app keeps each table lookup a small proof of its own.
  lemma NetflixOwnsIds()
    ensures forall id :: id in Ids(Netflix) ==> Owner(id) == Some(Netflix)
  {
  }

  lemma YouTubeOwnsIds()
    ensures forall id :: id in Ids(YouTube) ==> Owner(id) == Some(YouTube)
  {
  }

  lemma AppleTVOwnsIds()
    ensures forall id :: id in Ids(AppleTV) ==> Owner(id) == Some(AppleTV)
  {
  }

  lemma SpotifyOwnsIds()
    ensures forall id :: id in Ids(Spotify) ==> Owner(id) == Some(Spotify)
  {
  }

  lemma PrimeVideoOwnsIds()
    ensures forall id :: id in Ids(PrimeVideo) ==> Owner(id) == Some(PrimeVideo)
  {
  }

  lemma DisneyPlusOwnsIds()
    ensures forall id :: id in Ids(DisneyPlus) ==> Owner(id) == Some(DisneyPlus)
  {
  }

  lemma HboMaxOwnsIds()
    ensures forall id :: id in Ids(HboMax) ==> Owner(id) == Some(HboMax)
  {
  }

  lemma GooglePlayOwnsIds()
    ensures forall id :: id in Ids(GooglePlay) ==> Owner(id) == Some(GooglePlay)
  {
  }

  lemma BrowserOwnsIds()
    ensures forall id :: id in Ids(Browser) ==> Owner(id) == Some(Browser)
  {
  }

  lemma TedOwnsIds()
    ensures forall id :: id in Ids(Ted) ==> Owner(id) == Some(Ted)
  {
  }

  lemma HboGoOwnsIds()
    ensures forall id :: id in Ids(HboGo) ==> Owner(id) == Some(HboGo)
  {
  }

  lemma VevoOwnsIds()
    ensures forall id :: id in Ids(Vevo) ==> Owner(id) == Some(Vevo)
  {
  }

  lemma VimeoOwnsIds()
    ensures forall id :: id in Ids(Vimeo) ==> Owner(id) == Some(Vimeo)
  {
  }

  /** The table is exactly the lists read backwards: an app owns an id iff its list holds it, and no owner means no list does. */
  lemma OwnerIff(id: string, a: FriendlyApp)
    ensures Owner(id) == Some(a) <==> id in Ids(a)
    ensures Owner(id).None? <==> forall b :: id !in Ids(b)
  {
    if id in Ids(a) {
      OwnerOfIds(a, id);
    }
    if Owner(id).None? {
      forall b | id in Ids(b)
        ensures false
      {
        OwnerOfIds(b, id);
      }
    } else {
      OwnedIdsListed(id, Owner(id).value);
    }
  }

  /** An id the table maps to an app is in that app's list. */
  lemma OwnedIdsListed(id: string, a: FriendlyApp)
    requires Owner(id) == Some(a)
    ensures id in Ids(a)
  {
  }

  /** As the table is written, no id belongs to two different apps. */
  lemma IdsDisjoint(a: FriendlyApp, b: FriendlyApp, id: string)
    requires a != b && id in Ids(a)
    ensures id !in Ids(b)
  {
    OwnerOfIds(a, id);
    if id in Ids(b) {
      OwnerOfIds(b, id);
    }
  }

  /** The two short numeric ids of the table. */
  lemma ShortNumericIds()
    ensures "12" in Ids(Netflix) && "13" in Ids(PrimeVideo)
  {
  }
}
