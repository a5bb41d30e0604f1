# Unimote, modelled in Dafny

This project models the core of Unimote, the smart-TV remote control in the
nexus_verse Swift package (`Sources/NexusVerse/Unimote`), and proves
properties of that model. It covers:

- the remote-control actions and their compact string and URL forms;
- the closed vocabularies those forms encode (commands, friendly apps and
  their id tables) and the lookup of an app's friendly kind;
- SSDP discovery: how a response's headers are read, the M-SEARCH request
  text, and the discovery object's start/stop/error reporting;
- the Wake-on-LAN magic packet, the port byte order and the ordered error
  outcomes of sending it;
- the WebSocket session's state machine and its URLSession callbacks;
- the device record, its construction through the resolver hook and its
  analytics attributes;
- the device registry: saved connections, locations requested once,
  one device per host, MAC addresses that only grow, the remote filter;
- the defaults every remote inherits: capabilities, token and MAC proxies
  into the persisted store, waking, the log;
- two string helpers (`truncated`, `flattened`) and the XML children map
  (`keysAndTexts`).

One Dafny module stands for each Swift file of the core:

| Dafny file | module | models |
|---|---|---|
| wrappers.dfy | Wrappers | `Optional`, bytes, 16-bit ports |
| strings.dfy | Strings | `hasPrefix`, `contains`, `range(of:)`, `replacingOccurrences`, String+Extensions.swift |
| command.dfy | Commands | Command.swift |
| friendly_app.dfy | FriendlyApps | FriendlyApp.swift |
| app.dfy | Apps | App.swift |
| action.dfy | Actions | Action.swift |
| xml.dfy | Xml | XML.swift |
| ssdp.dfy | Ssdp | SSDP.swift |
| wake_on_lan.dfy | WakeOnLan | WakeOnLAN.swift |
| web_socket.dfy | WebSockets | WebSocket.swift |
| device.dfy | Devices | Device.swift |
| device_browser.dfy | DeviceBrowsers | DeviceBrowser.swift |
| remote.dfy | Remotes | Remote.swift |

The values and codecs are datatypes and functions. The objects whose
fields the source updates in place are classes: the discovery object, the
WebSocket session, the device, the registry and its store, and a remote.
Their methods carry `modifies` clauses and state the new value of what they change.
The loops of the source are methods with invariants, proved against
specification functions:

- building the magic packet;
- waking every stored MAC;
- the three passes of the analytics attributes;
- building the device list from the saved connections.

Sockets, URLSession, timers, the XML parser, the HTTP fetch and the
resolver hook are not modelled. Their results come in as parameters, or as
event methods called in the order the main queue would run them.

The text payload of an action is not kept verbatim: decoding removes every
occurrence of `text-` from the whole string, not only the leading one. So
the text round trip
holds exactly when the text holds no `text-` (`Actions.TextRoundTripIff`).
For example, the text `atext-b` comes back as `ab`.

## Model

| member | source | states |
|---|---|---|
| Strings.FindFirst | Sources/NexusVerse/Unimote/Support/SSDP.swift:186 | the index of the first occurrence of the pattern, with no earlier one; none exactly when the pattern does not occur |
| Strings.RemoveAllIdentity | Sources/NexusVerse/Unimote/Action.swift:52 | removing every occurrence of a pattern leaves a string unchanged exactly when it does not contain the pattern |
| Strings.RemoveAllShortens | Sources/NexusVerse/Unimote/Action.swift:52 | removing every occurrence never lengthens a string, and strictly shortens it when the pattern occurs |
| Strings.ReplaceCharRemovesIt | Sources/NexusVerse/Unimote/Remote.swift:112 | replacing every newline by text without one leaves no newline and keeps every other character |
| Strings.Truncated | Sources/NexusVerse/Unimote/Support/String+Extensions.swift:10-12 | a string no longer than n is returned unchanged; a longer one becomes its first n characters followed by "...", n+3 in all |
| Strings.TruncatedDefault | Sources/NexusVerse/Unimote/Support/String+Extensions.swift:10 | the default limit is 100 characters |
| Strings.FlattenedIsWithout | Sources/NexusVerse/Unimote/Support/String+Extensions.swift:14-16 | flattening keeps exactly the characters other than newline and space, in order |
| Strings.Without | Sources/NexusVerse/Unimote/Support/String+Extensions.swift:15 | a character is in the result exactly when it is in the input and not dropped |
| Strings.FlattenedIdempotent | Sources/NexusVerse/Unimote/Support/String+Extensions.swift:14-16 | flattening twice is flattening once |
| Commands.ParseRawValue | Sources/NexusVerse/Unimote/Command.swift:3-4 | parsing the raw value of any command gives that command |
| Commands.ParseSound | Sources/NexusVerse/Unimote/Command.swift:3 | a parse that succeeds gives a command whose raw value is the input |
| Commands.ParseIff | Sources/NexusVerse/Unimote/Command.swift:3-4 | a string parses to a command exactly when it is that command's raw value |
| Commands.ParseIsCaseSensitive | Sources/NexusVerse/Unimote/Command.swift:4 | "Power" is not a command |
| Commands.AllCasesComplete | Sources/NexusVerse/Unimote/Command.swift:3-4 | all cases lists 32 distinct commands and every command is among them |
| Commands.RawValueInjective | Sources/NexusVerse/Unimote/Command.swift:4 | two commands with the same raw value are the same command |
| Commands.RawValueLacksCommandPrefix | Sources/NexusVerse/Unimote/Command.swift:4 | no raw value contains "-", ":" or "command-" |
| FriendlyApps.ParseRawValue | Sources/NexusVerse/Unimote/FriendlyApp.swift:3-5 | parsing the raw value of any app gives that app |
| FriendlyApps.ParseSound | Sources/NexusVerse/Unimote/FriendlyApp.swift:3 | a parse that succeeds gives an app whose raw value is the input |
| FriendlyApps.ParseIff | Sources/NexusVerse/Unimote/FriendlyApp.swift:3-5 | a string parses to an app exactly when it is that app's raw value |
| FriendlyApps.AllCasesComplete | Sources/NexusVerse/Unimote/FriendlyApp.swift:5 | all cases lists 13 distinct apps, in declaration order, and every app is among them |
| FriendlyApps.RawValueLacksAppPrefix | Sources/NexusVerse/Unimote/FriendlyApp.swift:5 | no raw value contains "-", ":" or "app-" |
| FriendlyApps.IdsNonEmpty | Sources/NexusVerse/Unimote/FriendlyApp.swift:7-23 | every app has at least one id |
| FriendlyApps.OwnerOfIds | Sources/NexusVerse/Unimote/FriendlyApp.swift:9-21 | every id listed for an app is owned by that app |
| FriendlyApps.OwnedIdsListed | Sources/NexusVerse/Unimote/FriendlyApp.swift:9-21 | an id the table gives an owner is in that owner's list |
| FriendlyApps.OwnerIff | Sources/NexusVerse/Unimote/FriendlyApp.swift:9-21 | an app owns an id exactly when its list holds it; no owner exactly when no list holds it |
| FriendlyApps.IdsDisjoint | Sources/NexusVerse/Unimote/FriendlyApp.swift:9-21 | no id is listed for two different apps |
| FriendlyApps.ShortNumericIds | Sources/NexusVerse/Unimote/FriendlyApp.swift:9-13 | "12" is a netflix id and "13" a primeVideo id |
| Apps.IndexFrom | Sources/NexusVerse/Unimote/App.swift:7-9 | the search from a position finds the first id list at or after it that holds the id, or none exactly when no such list exists |
| Apps.FriendlyAppIndex | Sources/NexusVerse/Unimote/App.swift:7-9 | the index found holds the id in its ids, no earlier app does, and there is none exactly when no app lists the id |
| Apps.IndexIgnoresName | Sources/NexusVerse/Unimote/App.swift:7-9 | two apps with the same id resolve to the same index, whatever their names |
| Apps.NetflixByShortId | Sources/NexusVerse/Unimote/App.swift:8 | id "12" resolves to index 0, which is netflix |
| Apps.IndexIsOwner | Sources/NexusVerse/Unimote/App.swift:7-9 | an id listed for an app resolves to that app's index |
| Actions.TypeForms | Sources/NexusVerse/Unimote/Action.swift:5-36 | the forms are "app-" + raw value, "command-" + raw value and "text-" + text |
| Actions.AppRoundTrip | Sources/NexusVerse/Unimote/Action.swift:39-44 | decoding the form of an app launch gives that launch |
| Actions.CommandRoundTrip | Sources/NexusVerse/Unimote/Action.swift:45-50 | decoding the form of a command gives that command |
| Actions.TextDecodesStripped | Sources/NexusVerse/Unimote/Action.swift:51-54 | decoding the form of a text gives the text with every "text-" removed |
| Actions.TextRoundTripIff | Sources/NexusVerse/Unimote/Action.swift:51-54 | a text survives the round trip exactly when it does not contain "text-" |
| Actions.StripsEveryTextPrefix | Sources/NexusVerse/Unimote/Action.swift:52 | a "text-" inside a text is stripped too: the text a + "text-" + b comes back as a + b, so "atext-b" becomes "ab" |
| Actions.StripAroundPrefix | Sources/NexusVerse/Unimote/Action.swift:52 | removing "text-" from "te" + "text-" + x, where x has none, leaves "te" + x |
| Actions.TextRoundTripCreatesPrefix | Sources/NexusVerse/Unimote/Action.swift:51-54 | one round trip turns the text "te" + "text-" + "xt-" into "text-" |
| Actions.TextRoundTripOfPrefix | Sources/NexusVerse/Unimote/Action.swift:51-54 | the round trip of the text "text-" is the empty text |
| Actions.AppPrefixDecidesBranch | Sources/NexusVerse/Unimote/Action.swift:39-56 | a string starting with "app-" decodes to an app launch or to nothing, the latter exactly when the remainder is no app |
| Actions.CommandPrefixDecidesBranch | Sources/NexusVerse/Unimote/Action.swift:45-56 | a string starting with "command-" decodes to a command or to nothing, the latter exactly when the remainder is no command |
| Actions.NoPrefixNoAction | Sources/NexusVerse/Unimote/Action.swift:38-56 | a string with none of the three prefixes decodes to nothing |
| Actions.UrlNeedsScheme | Sources/NexusVerse/Unimote/Action.swift:19-22 | only a string starting with "action://" decodes |
| Actions.UrlStripsScheme | Sources/NexusVerse/Unimote/Action.swift:19-25 | behind the scheme, a type without "action://" decodes as the type itself |
| Actions.UrlRoundTrip | Sources/NexusVerse/Unimote/Action.swift:15-25 | the URL form of an app launch or a command decodes to the same action |
| Actions.UrlTextRoundTrip | Sources/NexusVerse/Unimote/Action.swift:15-54 | the URL form of a text without "action://" and "text-" decodes to the same text |
| Xml.CompactPairs | Sources/NexusVerse/Unimote/Support/XML.swift:8-14 | the compacted pairs are no more than the children |
| Xml.FirstText | Sources/NexusVerse/Unimote/Support/XML.swift:8-15 | the text of the first qualifying child of a name, and none exactly when no child of that name qualifies |
| Xml.FirstWinsLookup | Sources/NexusVerse/Unimote/Support/XML.swift:15 | a key is in the folded map exactly when it was already there or some pair lists it, and it keeps the first value |
| Xml.CompactPairsFirst | Sources/NexusVerse/Unimote/Support/XML.swift:8-15 | the first pair for a key comes from the first qualifying child of that name |
| Xml.KeysAndTextsLookup | Sources/NexusVerse/Unimote/Support/XML.swift:5-17 | a key is present exactly when a child of that name qualifies, and maps to the first such child's text |
| Xml.NoElementNoKeys | Sources/NexusVerse/Unimote/Support/XML.swift:6 | without an element the map is empty |
| Xml.BlankChildContributesNothing | Sources/NexusVerse/Unimote/Support/XML.swift:9-13 | a child without text or with blank text, and no namesake, contributes no key |
| Xml.FirstQualifyingWins | Sources/NexusVerse/Unimote/Support/XML.swift:8-15 | the first qualifying child of a name wins, and blank namesakes before it do not shadow it |
| Xml.KeysAreQualifyingNames | Sources/NexusVerse/Unimote/Support/XML.swift:7-16 | every key is the name of a qualifying child |
| Ssdp.RestOfLine | Sources/NexusVerse/Unimote/Support/SSDP.swift:186 | the rest of the line is a prefix that holds no line terminator and stops at the end or at a terminator |
| Ssdp.ParseHeader | Sources/NexusVerse/Unimote/Support/SSDP.swift:185-192 | none exactly when the response lacks "HEADER: " anywhere, case-sensitively; a value holds no line terminator |
| Ssdp.MatchValue | Sources/NexusVerse/Unimote/Support/SSDP.swift:186-189 | removing every marker from the match drops its leading marker, and the value stays on one line |
| Ssdp.ParseHeaderFound | Sources/NexusVerse/Unimote/Support/SSDP.swift:186-189 | the value is the rest of the line after the first occurrence, with every occurrence of "HEADER: " removed |
| Ssdp.ParseHeaderLine | Sources/NexusVerse/Unimote/Support/SSDP.swift:185-192 | a header line whose value is one line without the marker, and not preceded by another marker, reads back as that value |
| Ssdp.StReadFromHost | Sources/NexusVerse/Unimote/Support/SSDP.swift:172-186 | the match is not anchored: "ST" is read from inside "HOST: " |
| Ssdp.ServiceOf | Sources/NexusVerse/Unimote/Support/SSDP.swift:168-174 | the host is kept as given, and each field is absent exactly when none of its spellings occurs as a header |
| Ssdp.LocationPriority | Sources/NexusVerse/Unimote/Support/SSDP.swift:170 | LOCATION wins over Location, which wins over location |
| Ssdp.ServerPriority | Sources/NexusVerse/Unimote/Support/SSDP.swift:171 | SERVER wins over Server, which wins over server |
| Ssdp.SearchTargetAndUsnPriority | Sources/NexusVerse/Unimote/Support/SSDP.swift:172-173 | ST wins over st and USN over usn, with no capitalised spelling tried |
| Ssdp.NatToStringValue | Sources/NexusVerse/Unimote/Support/SSDP.swift:120-122 | the decimal text of a number reads back as that number |
| Ssdp.IntToString | Sources/NexusVerse/Unimote/Support/SSDP.swift:120-122 | integers are written in decimal, with a minus sign when negative |
| Ssdp.DefaultNumbers | Sources/NexusVerse/Unimote/Support/SSDP.swift:115 | the default port and duration are written "1900" and "10" |
| Ssdp.RequestManReadsBack | Sources/NexusVerse/Unimote/Support/SSDP.swift:118-122 | the MAN header of the request reads back as "ssdp:discover" in quotes |
| Ssdp.RequestHostReadsBack | Sources/NexusVerse/Unimote/Support/SSDP.swift:118-122 | the HOST header reads back as 239.255.255.250:port |
| Ssdp.RequestStReadsHost | Sources/NexusVerse/Unimote/Support/SSDP.swift:118-122 | reading the request's own ST gives the HOST value, because "ST: " first occurs inside "HOST: " |
| Ssdp.RequestMxReadsBack | Sources/NexusVerse/Unimote/Support/SSDP.swift:118-122 | the MX header reads back as the whole-second duration, when the search target holds no "X" |
| Ssdp.Discovery.ForceStop | Sources/NexusVerse/Unimote/Support/SSDP.swift:100-105 | no longer discovering, and nobody is told |
| Ssdp.Discovery.Stop | Sources/NexusVerse/Unimote/Support/SSDP.swift:139-144 | "finished" is reported exactly when a socket was held, which is then dropped |
| Ssdp.Discovery.DiscoverService | Sources/NexusVerse/Unimote/Support/SSDP.swift:115-136 | start is reported; discovering exactly when setup succeeded; a setup failure is reported; the request is sent only on success |
| Ssdp.Discovery.ReadResponse | Sources/NexusVerse/Unimote/Support/SSDP.swift:61-81 | without a socket nothing happens; a read error force-stops and is reported; a non-empty datagram with host and text is reported as a service |
| Ssdp.StopTwice | Sources/NexusVerse/Unimote/Support/SSDP.swift:139-144 | a second stop reports nothing |
| Ssdp.FailedSetupThenStop | Sources/NexusVerse/Unimote/Support/SSDP.swift:132-144 | after a failed setup a stop reports nothing more |
| Ssdp.ReadErrorThenStop | Sources/NexusVerse/Unimote/Support/SSDP.swift:77-80 | after a read error neither a read nor a stop reports anything |
| WakeOnLan.Components | Sources/NexusVerse/Unimote/Support/WakeOnLAN.swift:78 | at least one component, none holding the separator, joined back they give the input |
| WakeOnLan.ComponentsCount | Sources/NexusVerse/Unimote/Support/WakeOnLAN.swift:78 | one more component than separators |
| WakeOnLan.HexValue | Sources/NexusVerse/Unimote/Support/WakeOnLAN.swift:80 | one hex digit is below 16, two are below 256 |
| WakeOnLan.Numbers | Sources/NexusVerse/Unimote/Support/WakeOnLAN.swift:79-81 | one number per component, its hex value |
| WakeOnLan.ShortFieldsAreValid | Sources/NexusVerse/Unimote/Support/WakeOnLAN.swift:79-86 | a MAC whose components are one or two hex digits converts to bytes |
| WakeOnLan.Repeat | Sources/NexusVerse/Unimote/Support/WakeOnLAN.swift:84-88 | n copies have n times the length |
| WakeOnLan.RepeatAt | Sources/NexusVerse/Unimote/Support/WakeOnLAN.swift:84-88 | position k*len+j of the copies holds element j |
| WakeOnLan.MagicPacketLayout | Sources/NexusVerse/Unimote/Support/WakeOnLAN.swift:74-88 | length 6 + 20n, six 0xFF bytes first, byte 6 + k*n + j is address byte j |
| WakeOnLan.AddressBytes | Sources/NexusVerse/Unimote/Support/WakeOnLAN.swift:79-86 | one byte per component, the component's hex value |
| WakeOnLan.CreateMagicPacket | Sources/NexusVerse/Unimote/Support/WakeOnLAN.swift:70-91 | the buffer built is the magic packet of the MAC's bytes |
| WakeOnLan.AppendCopies | Sources/NexusVerse/Unimote/Support/WakeOnLAN.swift:84-88 | the loops append twenty copies of the address bytes |
| WakeOnLan.SixFieldPacketLength | Sources/NexusVerse/Unimote/Support/WakeOnLAN.swift:78-88 | a six-field MAC gives 126 bytes |
| WakeOnLan.Swap16 | Sources/NexusVerse/Unimote/Support/WakeOnLAN.swift:36 | the two bytes are exchanged |
| WakeOnLan.Swap16Involution | Sources/NexusVerse/Unimote/Support/WakeOnLAN.swift:36 | swapping twice gives the port back |
| WakeOnLan.SinPortIsNetworkOrder | Sources/NexusVerse/Unimote/Support/WakeOnLAN.swift:35-36 | the port field holds the port high byte first in memory on either host |
| WakeOnLan.Target | Sources/NexusVerse/Unimote/Support/WakeOnLAN.swift:22-68 | socket failure first, then option failure, then `sendMagicPacketFailed` with the reason exactly when not the whole packet went out; the packet and port sent |
| WebSockets.AnswerChallenge | Sources/NexusVerse/Unimote/Support/WebSocket.swift:149-159 | the credential is used exactly for a first-attempt server-trust challenge with a trust object |
| WebSockets.CalledAfterAppend | Sources/NexusVerse/Unimote/Support/WebSocket.swift:127-145 | calling a completion not yet called keeps every completion called at most once |
| WebSockets.WebSocket.constructor | Sources/NexusVerse/Unimote/Support/WebSocket.swift:31-35 | nothing connected, nothing pending, no effects |
| WebSockets.WebSocket.Connect | Sources/NexusVerse/Unimote/Support/WebSocket.swift:40-50 | ignored while connecting or connected; otherwise connecting with a session and a task, the completion kept |
| WebSockets.WebSocket.Disconnect | Sources/NexusVerse/Unimote/Support/WebSocket.swift:52-63 | without a session nothing; otherwise session, task, flags and ping timer cleared and the delegate told once |
| WebSockets.WebSocket.Send | Sources/NexusVerse/Unimote/Support/WebSocket.swift:65-81 | without a task nothing; otherwise the message goes to the socket task |
| WebSockets.WebSocket.SendCompleted | Sources/NexusVerse/Unimote/Support/WebSocket.swift:70-76 | success changes nothing but the pending count; an error goes through `disconnect`: session, task, flags and (with a session) the ping timer cleared, the completion and receive kept, one DidDisconnect when there was a session |
| WebSockets.WebSocket.ReceiveMessage | Sources/NexusVerse/Unimote/Support/WebSocket.swift:83-85 | a receive is registered exactly when there is a task |
| WebSockets.WebSocket.Received | Sources/NexusVerse/Unimote/Support/WebSocket.swift:86-94 | the delegate gets the message and a receive is registered again when there is a task; the session, task, ping timer, completion, flags and pending sends stay |
| WebSockets.WebSocket.ReceiveFailed | Sources/NexusVerse/Unimote/Support/WebSocket.swift:95-99 | a receive failure goes through `disconnect`: session, task, flags and (with a session) the ping timer cleared; the completion and pending sends kept; one DidDisconnect when there was a session |
| WebSockets.WebSocket.StartPinging | Sources/NexusVerse/Unimote/Support/WebSocket.swift:103-113 | a ping timer exists exactly when a ping message is configured |
| WebSockets.WebSocket.StopPinging | Sources/NexusVerse/Unimote/Support/WebSocket.swift:115-118 | no ping timer, nothing else changed |
| WebSockets.WebSocket.PingTimerFired | Sources/NexusVerse/Unimote/Support/WebSocket.swift:106-111 | a tick sends the ping message through the task when there is one, adding one pending send; everything else stays |
| WebSockets.WebSocket.DidOpen | Sources/NexusVerse/Unimote/Support/WebSocket.swift:123-133 | connected, the completion called without error and dropped, receiving and pinging started, the delegate told |
| WebSockets.WebSocket.CallCompletion | Sources/NexusVerse/Unimote/Support/WebSocket.swift:127-145 | the pending completion is called once and dropped |
| WebSockets.WebSocket.DidClose | Sources/NexusVerse/Unimote/Support/WebSocket.swift:135-139 | a server close goes through `disconnect`: session, task, flags and (with a session) the ping timer cleared; the completion, receive and pending sends kept |
| WebSockets.WebSocket.DidCompleteWithError | Sources/NexusVerse/Unimote/Support/WebSocket.swift:141-147 | with an error: no longer connecting, the completion called with it and dropped, the connected flag, session, task, ping timer, receive and sends untouched; without one nothing changes |
| WebSockets.DisconnectTwice | Sources/NexusVerse/Unimote/Support/WebSocket.swift:52-63 | an immediate second disconnect tells nobody |
| WebSockets.FailedConnect | Sources/NexusVerse/Unimote/Support/WebSocket.swift:141-147 | a failed connect calls its completion once, and the later cancellation calls nothing |
| WebSockets.DisconnectWhileConnecting | Sources/NexusVerse/Unimote/Support/WebSocket.swift:52-63 | a disconnect while connecting keeps the completion, and the cancellation error calls it |
| WebSockets.ConnectTwice | Sources/NexusVerse/Unimote/Support/WebSocket.swift:40-45 | a second connect while connecting is ignored and its completion never called |
| WebSockets.PingAfterOpen | Sources/NexusVerse/Unimote/Support/WebSocket.swift:103-130 | after opening, each tick sends the ping through the socket task |
| WebSockets.SendFailure | Sources/NexusVerse/Unimote/Support/WebSocket.swift:65-76 | a failed send disconnects, stops pinging, and later sends go nowhere |
| Devices.Device.constructor | Sources/NexusVerse/Unimote/Device.swift:30-33 | the host is kept, the name is empty, there is no model, remote or caster, and the info is the empty info |
| Devices.Device.Resolve | Sources/NexusVerse/Unimote/Device.swift:34-35 | the device is as the resolver leaves it, and the resolver's verdict is returned |
| Devices.NewDevice | Sources/NexusVerse/Unimote/Device.swift:30-40 | throws noInfo exactly when a resolver is set and refuses; without one the device keeps the empty profile |
| Devices.FromConnection | Sources/NexusVerse/Unimote/Device.swift:14-48 | `noInfo` exactly when a resolver is set and refuses; a made device has the connection's host and the profile `init(host:ssdpInfo:)` gives it, and without a resolver saves the host with the empty info |
| Devices.Device.AnalyticsAttributes | Sources/NexusVerse/Unimote/Device.swift:59-94 | every key maps to what the specification of the four passes gives |
| Devices.OwnPass | Sources/NexusVerse/Unimote/Device.swift:61-65 | each own descriptor key k becomes "SSDP" + k with its text |
| Devices.OtherPass | Sources/NexusVerse/Unimote/Device.swift:68-75 | each value of one location joins its "OtherSSDP" list unless already there |
| Devices.PrunePass | Sources/NexusVerse/Unimote/Device.swift:77-81 | every "OtherSSDP" list of a single value is removed |
| Devices.FixedPass | Sources/NexusVerse/Unimote/Device.swift:82-91 | the fixed keys overwrite what the passes left, and every other key is kept |
| Devices.OwnKeyReported | Sources/NexusVerse/Unimote/Device.swift:61-65 | every own key k is reported as "SSDP" + k with its text |
| Devices.OtherKeyReported | Sources/NexusVerse/Unimote/Device.swift:66-81 | "OtherSSDP" + k is reported exactly when two or more distinct values were seen, and lists them |
| Devices.NoSingletonLists | Sources/NexusVerse/Unimote/Device.swift:77-81 | only "OtherSSDP" keys hold lists, and none of exactly one value |
| Devices.FixedKeys | Sources/NexusVerse/Unimote/Device.swift:82-91 | the name; "Unknown" for a missing model or manufacturer; the presence flags; the remote type only with a remote |
| Devices.OthersDistinct | Sources/NexusVerse/Unimote/Device.swift:71-74 | the gathered values are pairwise distinct |
| Devices.OthersMembers | Sources/NexusVerse/Unimote/Device.swift:66-76 | a value is gathered exactly when some considered descriptor gives it |
| Devices.SameHostMembers | Sources/NexusVerse/Unimote/Device.swift:66-67 | the descriptors considered are exactly those of locations on the device's host |
| DeviceBrowsers.InsertMac | Sources/NexusVerse/Unimote/DeviceBrowser.swift:127-132 | the host gains the MAC when there is one; other hosts are untouched |
| DeviceBrowsers.InsertMacGrows | Sources/NexusVerse/Unimote/DeviceBrowser.swift:126-132 | no host ever loses a MAC |
| DeviceBrowsers.LoneIndex | Sources/NexusVerse/Unimote/DeviceBrowser.swift:127-131 | the position of the only child with the name; none when no child or several have it |
| DeviceBrowsers.ChildText | Sources/NexusVerse/Unimote/DeviceBrowser.swift:127-131 | a text comes from the only child of that name; with several namesakes, or none, there is no text |
| DeviceBrowsers.IndexOfHost | Sources/NexusVerse/Unimote/DeviceBrowser.swift:117 | the position found holds a device on the host; none exactly when no device is on it |
| DeviceBrowsers.WithRemote | Sources/NexusVerse/Unimote/DeviceBrowser.swift:42 | the result holds exactly the devices with a remote, and all of them when all have one |
| DeviceBrowsers.Store.constructor | Sources/NexusVerse/Unimote/DeviceBrowser.swift:19-30 | nothing saved, no last connection, no tokens or MACs |
| DeviceBrowsers.AcceptedConnections | Sources/NexusVerse/Unimote/DeviceBrowser.swift:10 | the connections kept by `compactMap`: a subsequence of the saved ones, all of them without a resolver |
| DeviceBrowsers.AcceptedMembers | Sources/NexusVerse/Unimote/DeviceBrowser.swift:10 | a connection is kept exactly when it is saved and the resolver accepts it |
| DeviceBrowsers.AcceptedStep | Sources/NexusVerse/Unimote/DeviceBrowser.swift:10 | one more saved connection is kept exactly when the resolver accepts it |
| DeviceBrowsers.AcceptedUnique | Sources/NexusVerse/Unimote/DeviceBrowser.swift:10 | the kept connections still have one host each |
| DeviceBrowsers.MadeFromAppend | Sources/NexusVerse/Unimote/DeviceBrowser.swift:10 | a device made from one more kept connection extends the device list in order |
| DeviceBrowsers.DeviceHosts | Sources/NexusVerse/Unimote/DeviceBrowser.swift:10 | devices made from the kept connections are on saved hosts, no host twice |
| DeviceBrowsers.DeviceBrowser.Devices | Sources/NexusVerse/Unimote/DeviceBrowser.swift:40-46 | all entries, or, when a remote is required, exactly those with a remote |
| DeviceBrowsers.DeviceBrowser.constructor | Sources/NexusVerse/Unimote/DeviceBrowser.swift:9-11 | one fresh device per connection the resolver accepts, in order, with its host and the profile `init(connection:)` gives it; each on a saved host, one device per host; without a resolver one per saved connection with the empty info |
| DeviceBrowsers.DevicesFor | Sources/NexusVerse/Unimote/DeviceBrowser.swift:9-11 | one fresh device per connection the resolver accepts, in order, with its host and the profile `init(connection:)` gives it |
| DeviceBrowsers.DeviceBrowser.SaveConnection | Sources/NexusVerse/Unimote/DeviceBrowser.swift:58-63 | the last connection is always set, even to nil; a connection is appended only to a new host, so hosts stay unique |
| DeviceBrowsers.DeviceBrowser.StartBrowsing | Sources/NexusVerse/Unimote/DeviceBrowser.swift:72-77 | ignored while browsing; otherwise browsing with the requested filter |
| DeviceBrowsers.DeviceBrowser.DidDiscover | Sources/NexusVerse/Unimote/DeviceBrowser.swift:92-105 | a location is requested exactly when it has a host and a port and was not requested before |
| DeviceBrowsers.DeviceBrowser.Register | Sources/NexusVerse/Unimote/DeviceBrowser.swift:116-123 | a device on the host gets the resolver's profile for the new descriptor; otherwise a device made from it is appended exactly when construction succeeds; every other device and field is kept |
| DeviceBrowsers.DeviceBrowser.DidFetch | Sources/NexusVerse/Unimote/DeviceBrowser.swift:111-133 | without data nothing changes; with data it is stored, a device on the host gets the resolver's profile, a new host gets exactly one device when construction succeeds with the profile it was made with, other devices and the filter flag are kept, and the host gains the wifi and wired MACs |
| DeviceBrowsers.SaveTwice | Sources/NexusVerse/Unimote/DeviceBrowser.swift:58-63 | a second connection to a saved host is not saved but becomes the last one |
| DeviceBrowsers.DiscoverTwice | Sources/NexusVerse/Unimote/DeviceBrowser.swift:104-105 | a location seen twice is requested once |
| Remotes.FourStatuses | Sources/NexusVerse/Unimote/Remote.swift:13-15 | there are exactly four statuses |
| Remotes.DefaultCapabilities | Sources/NexusVerse/Unimote/Remote.swift:64-78 | no channels, and no pointer, scrolling or URL opening |
| Remotes.Remote.ClickPointer | Sources/NexusVerse/Unimote/Remote.swift:67-69 | exactly one click of ok |
| Remotes.Remote.Ignore | Sources/NexusVerse/Unimote/Remote.swift:65-81 | the other defaults change nothing |
| Remotes.Remote.SetToken | Sources/NexusVerse/Unimote/Remote.swift:83-90 | only this id's token changes, nil removes it, and reading it back gives the value set |
| Remotes.Remote.SetMacAddresses | Sources/NexusVerse/Unimote/Remote.swift:92-99 | only this host's MACs change, and reading them back gives the set |
| Remotes.Remote.Wake | Sources/NexusVerse/Unimote/Remote.swift:101-105 | each stored MAC is tried exactly once, and what is sent is its magic packet to the default port |
| Remotes.Remote.AddLog | Sources/NexusVerse/Unimote/Remote.swift:107-113 | the old log is kept and one line is appended |
| Remotes.LogLineShape | Sources/NexusVerse/Unimote/Remote.swift:112 | the line starts with the time, ends in its only newline |
| Remotes.SharedStore | Sources/NexusVerse/Unimote/Remote.swift:83-99 | two remotes with the same id and host see the same token and MACs |
| Remotes.LogTwice | Sources/NexusVerse/Unimote/Remote.swift:107-113 | two log lines are appended in order |

## Left out

- Sockets, URLSession, HTTP and timers are not modelled. Each call's result is an input: `Socket.create`, `listen`, `write`, `readDatagram`, `socket`, `setsockopt` and `sendto`. Each URLSession callback or timer tick is one event method.
- The SSDP background loop `while isDiscovering { readResponses() }` runs concurrently with the rest and is not modelled. Each read is one call of `ReadResponse`.
- The deadline that stops discovery after the duration, and the four-second timer that restarts it in the registry, are not modelled. They are scheduling only.
- XML parsing (SwiftyXMLParser) is a parameter. It goes from bytes to the children of `root/device`, each a name and an optional text.
- URL parsing (`URL(string:)`, `host`, `port`) is not modelled; a location arrives already parsed. `Action.url` is modelled as its string, without the force-unwrapped URL.
- `@UserDefaultsValue` persistence is an in-memory store object. It is shared by the registry and the remotes.
- `strtoul` is modelled on hexadecimal digits only. `ValidMac` accepts a component of any number of hex digits, the empty one included, whose value is below 256; a larger value would make the `CUnsignedChar` conversion stop the program, and `Target` and `Wake` require `ValidMac`. `strtoul`'s other inputs are not modelled: a `0x` prefix, a sign, leading blanks, and trailing non-hex text (where `strtoul` stops at the first non-hex character).
- `inet_addr` and `gethostbyname` are foreign calls. The broadcast address is kept as text, and its resolution is not modelled.
- Swift strings count grapheme clusters; here a string is a sequence of Unicode scalars. The regular expression's `.` is modelled as "any character but a line terminator", using the terminators the pattern engine knows.
- Floating-point durations are not modelled. MX is an integer of whole seconds, the value `Int(duration)` would give.
- Log timestamps (`DateFormatter`) are a parameter of `AddLog`. The WebSocket's own static log is not modelled.
- `String(describing: type(of: remote))` is reflection. The device keeps its remote as that type name, and the caster as a flag.
- Devices.Handler: the resolver cannot change a device's host. Nothing in the core reassigns it, so the host is a constant.
- The registry does not model the `adbRequestedHosts` list, its `logs` text, or the update notifications.
- DeviceBrowsers.DeviceBrowser.DidFetch: the MAC addresses are updated in the same step. The source defers that update to a later main-queue turn.
- DeviceBrowsers.ChildText: SwiftyXMLParser is not part of this model. The model takes as given the accessor rules it relies on. `parse` stands for `XML.parse(data)["root", "device"]`, and yields the children of that element, or none when the path fails. The subscript by a name yields an element only when exactly one child has that name, and `.text` is that element's text. With several namesakes the accessor is a sequence, whose `.text` is nil.
- DeviceBrowsers.DeviceBrowser.Devices: the order of the filtered list is not stated. Only which devices it holds is.
- DeviceBrowsers.WithRemote: the order of the filtered list is not stated. Only which devices it holds is.
- Devices.Device.AnalyticsAttributes: dictionary enumeration order is unspecified in Swift. The location entries come in as a sequence in the order enumerated.
- WebSockets.WebSocket.DidOpen: it requires a live session. URLSession reports an opening only for the socket task of the session that made it.
- The WebSocket's `responseTimer` is never set in the source, so clearing it has no effect and is not modelled. Neither are weak references to `self`, nor the error values beyond their text.
- The ping is an application message sent through `send`. No WebSocket frames are modelled.
- WebSockets.WebSocket.ReceiveMessage: one `receiving` flag stands for the receive handler of the current task. A handler still pending on a task cancelled before a reconnect is not told apart from it.
- Remotes.Remote.Ignore stands for six default no-ops. Their arguments (`Channel`, `CGPoint`, `URL`, pin) have no effect and are not modelled.
- The brand-specific members of the `Remote` protocol have no body in the source and are not modelled: connecting, commands, apps, inputs, text and status. The same goes for the `RemoteDelegate` and `Caster` protocols.
- FileServer.swift, PHAsset+Extensions.swift, NWInterface+Extensions.swift and URLSessionWebSocketTask+Extensions.swift are not part of this model. They are I/O and framework code.
