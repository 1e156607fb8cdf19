# SDS200.Cli protocol core in Dafny

A model of the protocol-side logic of SDS200.Cli, a terminal remote control for
the Uniden SDS200 scanner. It covers the pieces between the transport and the
screen:

- **Status decoder.** `UnidenParser` and `XmlParserHelpers` strip the
  `GSI,<XML>,` envelope from a reply and gate on `</ScannerInfo>`. They then
  dispatch on the `V_Screen` attribute over 17 screen kinds, with conventional
  scan as the fallback, and fill the scanner status record.
- **Status records.** `ScannerStatus` and `ContactLogEntry` hold the decoded
  state and one logged signal lock.
- **Framers.** The UDP framer (`UdpDataReceiver`) classifies datagrams and
  reassembles multi-packet `GLT` replies sequenced by `<Footer No=".." EOT=".."/>`.
  The serial framer (`SerialDataReceiver`) cuts a character stream into
  `\r`-terminated lines. Both answer a pending response slot on a first-write-wins
  basis.
- **Bridges.** `ScannerBridgeBase`, `UdpScannerBridge` and `SerialScannerBridge`
  cover command normalisation, the order of observer events and transmissions,
  the `GLT` timeout floor, and the `TIMEOUT` / `DISCONNECTED` sentinels. They
  also cover the rule that decides when the UDP bridge counts as connected.
- **Consumers.**
  - `GsiResponseHandler` accumulates chunks until a document is complete, then
    parses it once.
  - `ContactTracker` is an edge-triggered lock detector with a capped log.
  - `KeyboardHandler` is the view-mode and command-line state machine.
- **Tables and rankers.**
  - `MarkupConstants`: the mode-label table and the status badges.
  - `SerialPortHelpers`: the serial-port filter and its stable ranking, and the
    rule by which port detection accepts a port.
  - The legacy comma-separated `STS` parser in `Logic/UnidenParser.cs`.

Everything is modelled as immutable datatypes and pure step functions:

- The XML document is an already-parsed tree `Element(name, attributes, children)`.
- `XDocument.Parse`, `int.TryParse` and `double.TryParse` are partial functions
  passed in as parameters (`Xml.Parsers`).
- Clock readings are arguments.
- A transport is the sequence of datagrams or characters that arrive before
  the deadline.

One module per source class; `Text` holds the string operations the source
borrows from .NET (trim, ordinal and ignore-case search, split), and
`CappedQueue` the "enqueue, then drop the oldest" idiom shared by every log.

Where the code and its design notes disagree, the model follows the code:

- **Serial XML flag.** The serial framer ignores the XML flag of `ExpectResponse`,
  so a multi-line serial reply answers on its first line.
- **Envelope.** The stripped envelope is `GSI,<XML>,`, not `<XML>,`.
- **Mode and screen.** `Mode` and `V_Screen` fall back to `"---"` only when the
  attribute is absent, not when it is empty.

## Model

| member | source | states |
|---|---|---|
| ScannerStatus.Default | SDS200.Cli.Abstractions/Models/ScannerStatus.cs:10-59 | a fresh status has the documented defaults: `---` identity, trunk, tone and search fields, `SCANNING` / `...` names, frequency 0, RSSI `S0`, unlocked, `Unmute` and `Off` switches, an empty view description, `None` as last command |
| ScannerStatus.SameExceptChain | SDS200.Cli/Logic/UnidenParser.cs:26-85 | the decoder's steps compose: if each step changes only its own fields, the whole run changes only their union |
| XmlParserHelpers.Attr | SDS200.Cli/Logic/XmlParserHelpers.cs:18-19 | an attribute that is present and non-empty is returned verbatim; a missing or empty one gives the fallback, so a non-empty fallback never yields an empty value |
| XmlParserHelpers.CleanFrequency | SDS200.Cli/Logic/XmlParserHelpers.cs:29 | removing every character outside `[0-9.]` leaves only digits and dots and never lengthens the text |
| XmlParserHelpers.CleanFrequencyChar | SDS200.Cli/Logic/XmlParserHelpers.cs:29 | on a single character the filter keeps a digit or a dot and removes anything else; with `CleanFrequencyAppend` this fixes the result for every text |
| XmlParserHelpers.CleanFrequencyDropsNoise | SDS200.Cli/Logic/XmlParserHelpers.cs:29 | a text with no digit and no dot, such as a unit, is removed entirely |
| XmlParserHelpers.CleanFrequencyAppend | SDS200.Cli/Logic/XmlParserHelpers.cs:29 | the cleaning filter works character by character: cleaning a concatenation is concatenating the cleaned parts |
| XmlParserHelpers.CleanFrequencyFixedPoint | SDS200.Cli/Logic/XmlParserHelpers.cs:29 | the filter leaves a text unchanged exactly when it already consists only of digits and dots |
| XmlParserHelpers.ParseFrequencyStripsUnit | SDS200.Cli/Logic/XmlParserHelpers.cs:22-31 | a number followed by a unit, as in `154.4150MHz`, reads as the number itself: the unit is cleaned away before `double.TryParse` |
| XmlParserHelpers.ParseFrequencyReadsOnlyDigits | SDS200.Cli/Logic/XmlParserHelpers.cs:26-31 | two texts other than `""` and `---` whose digits and dots agree give the same frequency, whatever other characters they carry |
| XmlParserHelpers.AsDocument | SDS200.Cli/Logic/XmlParserHelpers.cs:56 | a candidate is accepted exactly when it starts with `<`, and then unchanged |
| XmlParserHelpers.ExtractXml | SDS200.Cli/Logic/XmlParserHelpers.cs:38-57 | blank input gives nothing; with the `GSI,<XML>,` envelope the result is the trimmed text after its first occurrence; without it, the trimmed input; any result starts with `<` and is trimmed |
| XmlParserHelpers.EnvelopeRoundTrip | SDS200.Cli/Logic/XmlParserHelpers.cs:44-56 | wrapping a trimmed document in the envelope and extracting it gives the document back |
| XmlParserHelpers.BareDocumentPassesThrough | SDS200.Cli/Logic/XmlParserHelpers.cs:56 | a trimmed document without the envelope is extracted unchanged |
| Xml.FirstChild | SDS200.Cli/Logic/UnidenParser.cs:299 | `Element(name)` is the first child with that name, and it is absent exactly when no child has the name |
| UnidenParser.ScreenKindOf | SDS200.Cli/Logic/UnidenParser.cs:30-81 | classifying a `V_Screen` value loses nothing: the kind's name is the value itself |
| UnidenParser.ScreenNamesClassify | SDS200.Cli/Logic/UnidenParser.cs:32-76 | each of the 17 named screens is recognised as itself |
| UnidenParser.ConventionalIsTheFallback | SDS200.Cli/Logic/UnidenParser.cs:32-80 | the conventional-scan extractor runs exactly for `conventional_scan` and for every unrecognised value, `---` included |
| UnidenParser.ExtractorsTellScreensApart | SDS200.Cli/Logic/UnidenParser.cs:32-76 | distinct named screens use distinct extractors, except the documented shared cases: close call with CC searching, and repeater find with reverse frequency and direct entry |
| UnidenParser.SetFrequency | SDS200.Cli/Logic/UnidenParser.cs:362-369 | the frequency is the only field that may change; it stays put for `""`, `---` or an unparsable cleaned text, and otherwise it becomes the parse of the cleaned text |
| UnidenParser.ParseConventionalScan | SDS200.Cli/Logic/UnidenParser.cs:98-111 | writes only system, department, channel, modulation, service type, hold and frequency; the names come from `System` and `Department` (fallbacks `SCANNING`, `...`); the channel, modulation, service type and hold come from `ConvFrequency` (hold fallback `Off`), and the frequency is the parse of its `Freq` when that parses; without `ConvFrequency` those five keep their values |
| UnidenParser.ParseTrunkScan | SDS200.Cli/Logic/UnidenParser.cs:114-139 | writes only the trunk fields, and the talkgroup is the `TGID` attribute verbatim |
| UnidenParser.ParseCcHitsScan | SDS200.Cli/Logic/UnidenParser.cs:151-164 | writes only system, department, channel, modulation, hold and frequency |
| UnidenParser.ParseSearch | SDS200.Cli/Logic/UnidenParser.cs:167-185 | custom search, quick search and close call write only modulation, frequency and the search range |
| UnidenParser.ParseToneOut | SDS200.Cli/Logic/UnidenParser.cs:188-200 | writes only channel, modulation, hold, the two tones and frequency |
| UnidenParser.ParseWeather | SDS200.Cli/Logic/UnidenParser.cs:203-213 | writes only channel, modulation, hold and frequency |
| UnidenParser.ParseSrchFrequency | SDS200.Cli/Logic/UnidenParser.cs:216-219 | repeater find writes only modulation and frequency |
| UnidenParser.ParseDiscoveryConventional | SDS200.Cli/Logic/UnidenParser.cs:222-236 | writes only modulation, search range, talkgroup, unit, frequency and hit count |
| UnidenParser.SetHitCount | SDS200.Cli/Logic/UnidenParser.cs:233-234 | the hit count is the parsed `HitCount` whenever the integer parser accepts it, and changes to nothing else |
| UnidenParser.ParseDiscoveryTrunking | SDS200.Cli/Logic/UnidenParser.cs:239-252 | writes only system, site, talkgroup, channel, unit and hit count |
| UnidenParser.ParseAnalyzeSystemStatus | SDS200.Cli/Logic/UnidenParser.cs:255-265 | writes only system, site, attenuator and P25 status |
| UnidenParser.ParseWaterfall | SDS200.Cli/Logic/UnidenParser.cs:268-286 | writes only system, site, channel, search range, modulation and frequency |
| UnidenParser.ParseMonitorList | SDS200.Cli/Logic/UnidenParser.cs:290-295 | writes only the monitor-list name |
| UnidenParser.ParseSystem | SDS200.Cli/Logic/UnidenParser.cs:297-302 | writes only the system name |
| UnidenParser.ParseDepartment | SDS200.Cli/Logic/UnidenParser.cs:304-309 | writes only the department name |
| UnidenParser.ParseSearchRange | SDS200.Cli/Logic/UnidenParser.cs:321-329 | writes only the lower and upper search range |
| UnidenParser.RunExtractor | SDS200.Cli/Logic/UnidenParser.cs:30-81 | every extractor writes only the fields listed for its screen |
| UnidenParser.SetRssi | SDS200.Cli/Logic/UnidenParser.cs:337-342 | the RSSI label is `S` plus the raw text, or `S0` when it is missing or empty; the numeric RSSI changes only when the text parses as an integer |
| UnidenParser.SetLevels | SDS200.Cli/Logic/UnidenParser.cs:350-353 | volume and squelch each change only when their attribute parses as an integer, and then to that value |
| UnidenParser.ParseProperty | SDS200.Cli/Logic/UnidenParser.cs:331-354 | without a `Property` element nothing changes; with one, only the property block changes, with RSSI, levels and switch defaults (`Unmute`, `Off`, `---`) as in the source |
| UnidenParser.SetModeAndScreen | SDS200.Cli/Logic/UnidenParser.cs:26-27 | `Mode` and `V_Screen` are copied from the root, `---` only when absent |
| UnidenParser.ApplyDocument | SDS200.Cli/Logic/UnidenParser.cs:26-85 | a decoded document changes only decoder fields (never the lock state, clock or view description), and mode and screen come from the root |
| UnidenParser.WritesWithinDecoderFields | SDS200.Cli/Logic/UnidenParser.cs:30-81 | no extractor writes outside the decoder's fields or overwrites mode and screen |
| UnidenParser.CommonBlocksKeep | SDS200.Cli/Logic/UnidenParser.cs:84-85 | the shared Property and MonitorList steps leave every field outside the property block and the monitor list as the extractor left it |
| UnidenParser.Document | SDS200.Cli/Logic/UnidenParser.cs:12-23 | a document is decoded exactly when the input is not blank, the envelope extraction succeeds, `</ScannerInfo>` occurs, the XML parses and the root is `ScannerInfo` |
| UnidenParser.UpdateStatus | SDS200.Cli/Logic/UnidenParser.cs:10-93 | it succeeds exactly when a document is decoded; blank input and a missing closing tag fail; a failure leaves the status untouched; a success changes only decoder fields |
| UnidenParser.UnrecognisedScreenDecodesAsConventional | SDS200.Cli/Logic/UnidenParser.cs:77-85 | an unknown `V_Screen` still succeeds and decodes as conventional scan followed by the Property and MonitorList blocks |
| UnidenParser.TrunkTalkgroupIsVerbatim | SDS200.Cli/Logic/UnidenParser.cs:126-134 | on a trunk screen the stored talkgroup is the `TGID` attribute verbatim, whatever the later blocks do |
| UnidenParser.TrunkTalkgroupNamedTgid | SDS200.Cli/Logic/UnidenParser.cs:126-134 | a talkgroup literally named `TGID` is stored as `TGID`, the missing unit id reads `---`, and the channel takes the talkgroup name |
| MarkupConstants.GetModeLabel | SDS200.Cli/Presentation/MarkupConstants.cs:96-97 | a known screen gives its non-empty table label; any other value gives the fallback unchanged |
| MarkupConstants.LabelKeysAreDecoderScreens | SDS200.Cli/Presentation/MarkupConstants.cs:75-94 | the label table's keys are exactly the 17 screen names the decoder dispatches on |
| MarkupConstants.ModeLabelPerKind | SDS200.Cli/Presentation/MarkupConstants.cs:75-97 | each named screen kind maps to its own label, and an unrecognised screen to the fallback |
| MarkupConstants.FormatConnectionStatus | SDS200.Cli/Presentation/MarkupConstants.cs:67-68 | connected renders `[green]CONNECTED[/]`, disconnected renders `[red]DISCONNECTED[/]` |
| MarkupConstants.ConnectionBadgesDiffer | SDS200.Cli/Presentation/MarkupConstants.cs:67-68 | the badge tells the two states apart: equal badges mean equal states |
| MarkupConstants.LedIndicatorRoundTrip | SDS200.Cli/Presentation/MarkupConstants.cs:70-71 | the indicator is the `  LED:` prefix followed by the status, which can be read back from it |
| ResponseSlot.Offer | SDS200.Cli/Bridges/UdpDataReceiver.cs:89-92 | an offer resolves a pending slot with the offered text, never changes a resolved slot, and does nothing when no reply is awaited |
| ResponseSlot.FirstOfferWins | SDS200.Cli/Bridges/SerialDataReceiver.cs:68-69 | after any sequence of offers a pending slot holds the first one |
| ResponseSlot.ResolvedIsFinal | SDS200.Cli/Bridges/UdpDataReceiver.cs:133 | a resolved slot keeps its value through any later offers |
| FooterPattern.FindFooter | SDS200.Cli/Bridges/UdpDataReceiver.cs:191-192 | a footer is found exactly when the pattern matches at some position, and the result is the leftmost match, with no match at any earlier position |
| FooterPattern.FooterRoundTrip | SDS200.Cli/Bridges/UdpDataReceiver.cs:109-113 | the footer text for packet `n` and flag `eot` matches the pattern and yields `n` and `eot` back |
| FooterPattern.DecimalRoundTrip | SDS200.Cli/Bridges/UdpDataReceiver.cs:112 | reading the decimal text of `n` gives `n` |
| FooterPattern.FooterAtFirstTag | SDS200.Cli/Bridges/UdpDataReceiver.cs:109-113 | when a full footer starts at the first `<Footer` tag, that is the footer found |
| FooterPattern.FooterImpliesTag | SDS200.Cli/Bridges/UdpDataReceiver.cs:191-192 | a datagram with a footer contains the `<Footer` tag |
| UdpDataReceiver.ExpectResponse | SDS200.Cli/Bridges/UdpDataReceiver.cs:33-47 | the slot and the XML flag are always replaced; buffer, counter and prefix are reset only for an XML command and kept otherwise |
| UdpDataReceiver.FooterMakesXml | SDS200.Cli/Bridges/UdpDataReceiver.cs:151-157 | a datagram carrying a footer always counts as XML |
| UdpDataReceiver.ExtractXmlContent | SDS200.Cli/Bridges/UdpDataReceiver.cs:159-188 | with a declaration, the content is the packet text that starts at the first `<?xml` (in any case) and ends at the first `<Footer` when that comes later, otherwise at the packet's end; with neither a declaration nor a comma it is the whole packet |
| UdpDataReceiver.ContentAfterFirstComma | SDS200.Cli/Bridges/UdpDataReceiver.cs:174-186 | without a declaration, the content starts just after the first comma and stops at the first `<Footer` after it, or at the end; it contains no `<Footer` |
| UdpDataReceiver.CapturePrefix | SDS200.Cli/Bridges/UdpDataReceiver.cs:99-106 | the prefix is captured once per assembly, as the comma-free non-empty text before the first comma, and not when the packet has no comma or starts with one |
| UdpDataReceiver.Assemble | SDS200.Cli/Bridges/UdpDataReceiver.cs:107-148 | a reply is emitted exactly on an end-of-transmission footer: prefix, comma, then every fragment in arrival order, after which the state resets; otherwise the content is appended and a footer's number is recorded even after a gap, which is only logged |
| UdpDataReceiver.ProcessMessage | SDS200.Cli/Bridges/UdpDataReceiver.cs:79-94 | a datagram that is not an expected XML fragment is raised whole, offered to the wait, and changes nothing else; an XML fragment answers only when its footer says end of transmission, and until then the wait stays as it was and XML stays expected |
| UdpDataReceiver.ReceiveDatagram | SDS200.Cli/Bridges/UdpDataReceiver.cs:56-62 | blank datagrams are dropped, the rest are trimmed and processed |
| UdpDataReceiver.PlainRepliesPassThrough | SDS200.Cli/Bridges/UdpDataReceiver.cs:83-93 | while no XML is expected every datagram is emitted as it came, and the slot ends up holding the first |
| UdpDataReceiver.AssembleReply | SDS200.Cli/Bridges/UdpDataReceiver.cs:96-149 | the fragments of a `GLT` reply, each with its footer and only the last marked EOT, emit exactly one reply, `cmd,` followed by the bodies in order, offered to the slot, and leave the receiver reset |
| UdpDataReceiver.FragmentParts | SDS200.Cli/Bridges/UdpDataReceiver.cs:159-189 | a fragment's extracted content is its XML body and its footer is the one it was sent with |
| SerialDataReceiver.ExpectResponse | SDS200.Cli/Bridges/SerialDataReceiver.cs:26-34 | only the slot is replaced; the partial line is kept |
| SerialDataReceiver.ExpectIgnoresXmlFlag | SDS200.Cli/Bridges/SerialDataReceiver.cs:26-34 | the XML flag makes no difference |
| SerialDataReceiver.ProcessChar | SDS200.Cli/Bridges/SerialDataReceiver.cs:61-75 | a carriage return emits and offers the buffered line and clears the buffer; any other character is appended |
| SerialDataReceiver.Lossless | SDS200.Cli/Bridges/SerialDataReceiver.cs:57-77 | the emitted lines, each followed by `\r`, plus the remaining buffer are exactly the characters received, in order |
| SerialDataReceiver.NoCrInside | SDS200.Cli/Bridges/SerialDataReceiver.cs:63-74 | no emitted line and no buffer ever holds a carriage return |
| SerialDataReceiver.ChunkingIrrelevant | SDS200.Cli/Bridges/SerialDataReceiver.cs:57-77 | processing `a` then `b` gives the same lines and state as processing `a + b` |
| SerialDataReceiver.LinesAreOffered | SDS200.Cli/Bridges/SerialDataReceiver.cs:68-69 | every emitted line is offered to the slot, in order |
| SerialDataReceiver.FirstLineResolves | SDS200.Cli/Bridges/SerialDataReceiver.cs:26-34 | after `ExpectResponse` the first emitted line is the answer |
| SerialDataReceiver.OneLine | SDS200.Cli/Bridges/SerialDataReceiver.cs:63-70 | text followed by `\r` emits the buffered prefix plus that text as one line and leaves the buffer empty |
| SerialDataReceiver.NoCrBuffered | SDS200.Cli/Bridges/SerialDataReceiver.cs:71-74 | text without a carriage return is only buffered |
| SerialDataReceiver.FramingIsUnique | SDS200.Cli/Bridges/SerialDataReceiver.cs:61-75 | a character stream has only one split into `\r`-free lines plus a `\r`-free rest |
| SerialDataReceiver.SplitCharacterisation | SDS200.Cli/Bridges/SerialDataReceiver.cs:57-77 | the framer's lines and buffer are that unique split of everything received |
| ScannerBridge.NormalizeCommand | SDS200.Cli/Bridges/ScannerBridgeBase.cs:73-76 | the normalised command is upper case with no surrounding whitespace, and is the upper-cased command with only blanks removed around it |
| ScannerBridge.NormalizeIdempotent | SDS200.Cli/Bridges/ScannerBridgeBase.cs:73-76 | normalising twice is normalising once |
| ScannerBridge.Announce | SDS200.Cli/Bridges/ScannerBridgeBase.cs:34-51 | exactly one `DataSent` event, carrying the normalised command, precedes everything the transport does, and the transport's result is returned unchanged |
| ScannerBridge.MultiPacketIsGlt | SDS200.Cli/Bridges/UdpScannerBridge.cs:36-39 | a command is multi-packet exactly when its trimmed name before the first comma is `GLT` in any case |
| ScannerBridge.ArgumentsDoNotMatter | SDS200.Cli/Bridges/UdpScannerBridge.cs:109-114 | arguments after the first comma do not affect the multi-packet test |
| ScannerBridge.GltIsMultiPacket | SDS200.Cli/Bridges/UdpScannerBridge.cs:109-114 | `GLT` and `glt,...` are multi-packet |
| ScannerBridge.EffectiveTimeout | SDS200.Cli/Bridges/UdpScannerBridge.cs:78 | a multi-packet command waits the larger of the caller's timeout and 10 s; any other command waits exactly the caller's timeout |
| ScannerBridge.UdpCore | SDS200.Cli/Bridges/UdpScannerBridge.cs:70-96 | without client, endpoint or receiver the answer is `DISCONNECTED` and nothing happens; otherwise the slot is armed, then the command plus `\r` goes out, then the wait; a resolved slot is the answer and marks the bridge connected, else `TIMEOUT` and connectedness is unchanged |
| ScannerBridge.UdpSendAndReceive | SDS200.Cli/Bridges/UdpScannerBridge.cs:70-96 | one `DataSent` with the normalised command opens every call; a bridge without its parts answers `DISCONNECTED` after it |
| ScannerBridge.UdpSendCommand | SDS200.Cli/Bridges/UdpScannerBridge.cs:99-104 | the command is announced once and transmitted only when client and endpoint exist |
| ScannerBridge.UdpEffectOrder | SDS200.Cli/Bridges/UdpScannerBridge.cs:80-92 | the event order is: sent, armed, transmitted, wait, then every received datagram |
| ScannerBridge.UdpAnswerOrTimeout | SDS200.Cli/Bridges/UdpScannerBridge.cs:87-95 | an answered race returns the payload and connects; a timed-out one returns `TIMEOUT` and leaves connectedness as it was |
| ScannerBridge.UdpSilenceTimesOut | SDS200.Cli/Bridges/UdpScannerBridge.cs:87-95 | with no datagrams before the deadline the result is `TIMEOUT` |
| ScannerBridge.UdpFirstDatagramAnswers | SDS200.Cli/Bridges/UdpScannerBridge.cs:87-92 | for a single-packet command the first datagram is the answer |
| ScannerBridge.UdpGltReplyAssembled | SDS200.Cli/Bridges/UdpScannerBridge.cs:75-92 | a `GLT` command answered by footer-sequenced fragments returns the echo, a comma and the bodies joined in order |
| ScannerBridge.UdpConnect | SDS200.Cli/Bridges/UdpScannerBridge.cs:45-67 | after connecting, the bridge is connected exactly when the `MDL` probe answered with neither `TIMEOUT` nor `DISCONNECTED` |
| ScannerBridge.UdpProbeDecides | SDS200.Cli/Bridges/UdpScannerBridge.cs:65-66 | a probe reply connects the bridge; silence leaves it disconnected |
| ScannerBridge.SerialTransmitsIffConnected | SDS200.Cli/Bridges/SerialScannerBridge.cs:68-73 | the command is written to the port exactly when the bridge reports itself connected |
| ScannerBridge.SerialConnect | SDS200.Cli/Bridges/SerialScannerBridge.cs:25-40 | connecting opens the port and installs an idle receiver |
| ScannerBridge.SerialCore | SDS200.Cli/Bridges/SerialScannerBridge.cs:54-65 | a closed port or missing receiver answers `DISCONNECTED` with nothing sent; otherwise a non-XML slot is armed before the command plus `\r` is written, the wait is the caller's timeout, and the answer is the resolved slot or `TIMEOUT` |
| ScannerBridge.SerialSendAndReceive | SDS200.Cli/Bridges/SerialScannerBridge.cs:54-65 | one `DataSent` opens every call, and the port's state is never changed by it |
| ScannerBridge.SerialSendCommand | SDS200.Cli/Bridges/SerialScannerBridge.cs:68-74 | the command is announced once and written only when the port is open |
| ScannerBridge.SerialFirstLineAnswers | SDS200.Cli/Bridges/SerialScannerBridge.cs:59-64 | the first complete line received is the answer; with none it is `TIMEOUT` |
| ScannerBridge.SerialPartialLineTimesOut | SDS200.Cli/Bridges/SerialScannerBridge.cs:63-64 | text without a carriage return never answers |
| ScannerBridge.SerialConnectedCallsGoOut | SDS200.Cli/Bridges/SerialScannerBridge.cs:36-61 | after connecting, every call writes the normalised command plus `\r` |
| CappedQueue.Enqueue | SDS200.Cli/Logic/GsiResponseHandler.cs:113-117 | a capped queue keeps at most `max` items, ends with the new one, and holds the newest of the old items followed by it |
| CappedQueue.EnqueueAllKeepsNewest | SDS200.Cli/Logic/KeyboardHandler.cs:241-245 | enqueueing items one by one keeps exactly the newest `max` of everything, in order |
| CappedQueue.NewestOfAppend | SDS200.Cli/Logic/ContactTracker.cs:69-73 | trimming before appending more and trimming again is trimming once |
| ContactLogEntry.Blank | SDS200.Cli.Abstractions/Models/ContactLogEntry.cs:10-34 | a default entry has frequency 0, every text field `---` and RSSI `S0` |
| ContactLogEntry.FromStatusCopies | SDS200.Cli.Abstractions/Models/ContactLogEntry.cs:42-56 | the entry copies frequency, modulation, system, channel, talkgroup, site and RSSI unchanged, with the clock reading as lock time |
| ContactLogEntry.ModeComesFromViewScreen | SDS200.Cli.Abstractions/Models/ContactLogEntry.cs:49 | the entry's mode is the status's view screen, so the status's own mode does not matter |
| ContactLogEntry.EntryDependsOnCopiedFields | SDS200.Cli.Abstractions/Models/ContactLogEntry.cs:42-56 | the entry depends on nothing but the copied fields |
| ContactTracker.ProcessSignalUpdate | SDS200.Cli/Logic/ContactTracker.cs:37-57 | afterwards the lock state equals "RSSI above zero"; the change time is set only on a transition; an entry is logged only on a rising edge; nothing else changes |
| ContactTracker.EnqueueCapped | SDS200.Cli/Logic/ContactTracker.cs:69-73 | the log stays within its cap, evicts the oldest first and ends with the new entry |
| ContactTracker.UpdateSettles | SDS200.Cli/Logic/ContactTracker.cs:37-57 | repeating an update with no new reading changes nothing |
| ContactTracker.EntriesCountRisingEdges | SDS200.Cli/Logic/ContactTracker.cs:42-50 | while within the cap, the log grows by exactly the number of rising edges in a run of readings |
| ContactTracker.LogWithinCap | SDS200.Cli/Logic/ContactTracker.cs:69-73 | no run of readings pushes the log over its cap |
| ContactTracker.LockFollowsLastReading | SDS200.Cli/Logic/ContactTracker.cs:40-56 | after a run, the lock state reflects the last reading |
| ContactTracker.CyclesAddKEntries | SDS200.Cli/Logic/ContactTracker.cs:37-57 | `k` lock/unlock cycles from an unlocked status add exactly `k` entries when they fit |
| GsiResponseHandler.Create | SDS200.Cli/Logic/GsiResponseHandler.cs:36-52 | a new handler has an empty buffer and keeps the status and queues it is given |
| GsiResponseHandler.OnDataSent | SDS200.Cli/Logic/GsiResponseHandler.cs:58-62 | only the raw queue changes: one timestamped `>>` entry is added, within its cap |
| GsiResponseHandler.OnDataReceived | SDS200.Cli/Logic/GsiResponseHandler.cs:69-90 | one `<<` raw entry is added first; an incomplete document only grows the buffer; a complete one is parsed once on the whole text, logs one debug entry and clears the buffer |
| GsiResponseHandler.ClearBuffer | SDS200.Cli/Logic/GsiResponseHandler.cs:93 | only the buffer changes, and it becomes empty |
| GsiResponseHandler.RawDataKeepsNewest | SDS200.Cli/Logic/GsiResponseHandler.cs:107-117 | over any run of events the raw queue is the newest entries of all events, in order, within the cap |
| GsiResponseHandler.RunKeepsCaps | SDS200.Cli/Logic/GsiResponseHandler.cs:36-52 | no event changes the caps |
| GsiResponseHandler.PartialChunksAccumulate | SDS200.Cli/Logic/GsiResponseHandler.cs:76-79 | chunks that never complete a document are concatenated in the buffer and leave status and debug log alone |
| GsiResponseHandler.SplitDocumentParsedWhole | SDS200.Cli/Logic/GsiResponseHandler.cs:79-89 | a document split over chunks is parsed once, as the whole concatenated text, and the buffer is emptied |
| GsiResponseHandler.DefaultParserFailureKeepsStatus | SDS200.Cli/Logic/GsiResponseHandler.cs:79-89 | with the real decoder, a failed parse leaves the status untouched and still clears the buffer |
| KeyboardHandler.Create | SDS200.Cli/Logic/KeyboardHandler.cs:42-54 | a new handler is in Main view with empty input and history and every flag off |
| KeyboardHandler.EnqueueDebugBounds | SDS200.Cli/Logic/KeyboardHandler.cs:235-239 | a debug log within five entries keeps the newest five; the length never grows past five |
| KeyboardHandler.HandleKey | SDS200.Cli/Logic/KeyboardHandler.cs:86-159 | outside Command mode every key but Escape is added to the keyboard log (within its cap); Command-mode keys and Escape leave that log alone; no view-mode key touches the command history; Escape outside Command mode ends in the Main view with no bridge call |
| KeyboardHandler.HandleViewKey | SDS200.Cli/Logic/KeyboardHandler.cs:106-159 | a view key is logged with its label within the cap and leaves the command history alone |
| KeyboardHandler.HandleCommandModeKey | SDS200.Cli/Logic/KeyboardHandler.cs:164-200 | no key in Command mode reaches the keyboard log |
| KeyboardHandler.DTogglesDebugView | SDS200.Cli/Logic/KeyboardHandler.cs:124-126 | `D` switches Main to Debug and any other view to Main, sending nothing |
| KeyboardHandler.EscapeLeavesDebugView | SDS200.Cli/Logic/KeyboardHandler.cs:96-104 | Escape outside Command mode returns to Main, logs no key, and changes nothing in Main |
| KeyboardHandler.CEntersCommandMode | SDS200.Cli/Logic/KeyboardHandler.cs:128-132 | `C` enters Command mode with empty input |
| KeyboardHandler.QRequestsQuit | SDS200.Cli/Logic/KeyboardHandler.cs:134-137 | `Q` requests quitting and keeps the view |
| KeyboardHandler.SpaceTogglesHelp | SDS200.Cli/Logic/KeyboardHandler.cs:155-157 | Space toggles the help flag and keeps the view |
| KeyboardHandler.RTogglesRecording | SDS200.Cli/Logic/KeyboardHandler.cs:139-143 | `R` flips recording and sends `REC,ON` or `REC,OFF` to match the new state |
| KeyboardHandler.MTogglesMute | SDS200.Cli/Logic/KeyboardHandler.cs:145-149 | `M` flips mute and sends `MUT,ON` or `MUT,OFF` to match the new state |
| KeyboardHandler.ViewKeysAreLogged | SDS200.Cli/Logic/KeyboardHandler.cs:106-120 | every non-Escape key outside Command mode is logged with its label, newest entries kept |
| KeyboardHandler.CommandKeysAreNotLogged | SDS200.Cli/Logic/KeyboardHandler.cs:89-93 | keys in Command mode never reach the keyboard log |
| KeyboardHandler.EscapeLeavesCommandMode | SDS200.Cli/Logic/KeyboardHandler.cs:167-173 | Escape in Command mode returns to Main with empty input and sends nothing |
| KeyboardHandler.BackspaceDropsLast | SDS200.Cli/Logic/KeyboardHandler.cs:186-193 | Backspace removes exactly the last character, and does nothing on empty input |
| KeyboardHandler.EnterSendsNonBlankInput | SDS200.Cli/Logic/KeyboardHandler.cs:176-183 | Enter sends non-blank input once with the 2 s timeout and clears it; blank input is left as is and nothing is sent |
| KeyboardHandler.TypingAppends | SDS200.Cli/Logic/KeyboardHandler.cs:196-199 | typing printable characters in Command mode appends them to the input in order |
| KeyboardHandler.LinesArePieces | SDS200.Cli/Logic/KeyboardHandler.cs:224-228 | every line of a reply is non-empty and holds no line break, as `RemoveEmptyEntries` leaves it |
| KeyboardHandler.LinesAtBreak | SDS200.Cli/Logic/KeyboardHandler.cs:224-228 | every `\r` or `\n` is a split point: the lines of a text broken there are the lines before it followed by the lines after it |
| KeyboardHandler.LinesKeepEverythingElse | SDS200.Cli/Logic/KeyboardHandler.cs:224-228 | joining the lines gives back the reply minus its line breaks, so no text is lost |
| KeyboardHandler.SingleLineReply | SDS200.Cli/Logic/KeyboardHandler.cs:224-228 | a non-empty reply without breaks is one line |
| KeyboardHandler.ReplyLog | SDS200.Cli/Logic/KeyboardHandler.cs:213-229 | a timeout adds exactly one entry; any other reply adds one entry per reply line, and each entry is the time-stamped `<<` marker followed by that line |
| KeyboardHandler.SendCommandAsync | SDS200.Cli/Logic/KeyboardHandler.cs:205-233 | one send-and-receive with a 2 s timeout; the history gains one `>>` entry and the reply entries, keeping the newest 50; the input is cleared and nothing else changes |
| KeyboardHandler.HistoryKeepsNewest | SDS200.Cli/Logic/KeyboardHandler.cs:241-245 | enqueueing the sent entry and then each reply entry keeps the newest 50 of them all |
| KeyboardHandler.HandleKeyKeepsBounds | SDS200.Cli/Logic/KeyboardHandler.cs:32 | every key keeps the keyboard log, the history (50) and the debug log (5) within their caps |
| SerialPortHelpers.Rank | SDS200.Cli/Bridges/SerialPortHelpers.cs:20-22 | the two sort keys combine into one rank below four |
| SerialPortHelpers.RankOrdersGroups | SDS200.Cli/Bridges/SerialPortHelpers.cs:20-22 | a lower rank means call-out before non-call-out, and USB first within the same call-out group |
| SerialPortHelpers.FromKeyPermutes | SDS200.Cli/Bridges/SerialPortHelpers.cs:20-22 | sorting by rank is a permutation |
| SerialPortHelpers.FromKeyIsStable | SDS200.Cli/Bridges/SerialPortHelpers.cs:20-22 | ports of equal rank keep their input order |
| SerialPortHelpers.GetFilteredPorts | SDS200.Cli/Bridges/SerialPortHelpers.cs:15-24 | the result is a permutation of the ports that are neither `debug` nor `Bluetooth` in any case, ordered by rank |
| SerialPortHelpers.FilteredPortsAreStable | SDS200.Cli/Bridges/SerialPortHelpers.cs:20-22 | ties keep input order: the ports of each rank appear as they did in the input |
| SerialPortHelpers.CallOutPortsFirst | SDS200.Cli/Bridges/SerialPortHelpers.cs:20 | every `/dev/cu.` port comes before every port that is not one |
| SerialPortHelpers.UsbPortsFirstInGroup | SDS200.Cli/Bridges/SerialPortHelpers.cs:21 | within a call-out group, `usbserial`/`usbmodem` ports come first |
| SerialPortHelpers.FirstAccepted | SDS200.Cli/Bridges/SerialPortHelpers.cs:43-71 | the result is the first port whose probe reply names the scanner, and nothing exactly when no reply does |
| SerialPortHelpers.DetectScannerPort | SDS200.Cli/Bridges/SerialPortHelpers.cs:32-74 | a detected port passes the filter and answered `SDS200` or `UNIDEN` in any case; nothing is detected exactly when no filtered port does, in particular for an empty list |
| Text.Trim | SDS200.Cli/Bridges/ScannerBridgeBase.cs:75 | the result has no surrounding whitespace and is the input with only whitespace removed around it; it is empty exactly for blank input |
| Text.TrimIdempotent | SDS200.Cli/Bridges/ScannerBridgeBase.cs:75 | trimming twice is trimming once |
| Text.IndexOf | SDS200.Cli/Logic/XmlParserHelpers.cs:44-45 | the leftmost occurrence, and none exactly when the needle does not occur |
| Text.UpperIdempotent | SDS200.Cli/Bridges/ScannerBridgeBase.cs:75 | upper-casing twice is upper-casing once |
| Text.SplitOfJoin | Logic/UnidenParser.cs:9 | splitting the join of comma-free fields on the comma gives the fields back |
| Text.JoinInjective | Logic/UnidenParser.cs:9 | different lists of separator-free fields never join to the same line |
| LegacyUnidenParser.Default | Models/ScannerStatus.cs:5-11 | the legacy status defaults: frequency 0, `---`, `SCANNING`, `...`, `S0`, `None` |
| LegacyUnidenParser.UpdateStatus | Logic/UnidenParser.cs:6-20 | a blank line, fewer than 19 fields or a first field other than `STS` changes nothing; otherwise field 10 is the modulation, field 18 the RSSI, fields 15-17 trimmed the names, and field 3 the frequency in Hz when it parses (else the frequency stays); the last command is never touched |
| LegacyUnidenParser.UpdateIdempotent | Logic/UnidenParser.cs:6-20 | applying the same line twice is applying it once |
| LegacyUnidenParser.StsLineDecodes | Logic/UnidenParser.cs:11-18 | a line built from `STS` fields decodes to exactly those fields |
| LegacyUnidenParser.StsLineFrequency | Logic/UnidenParser.cs:13 | a line built from `STS` fields sets the frequency from field 3 when it parses and keeps it otherwise |
| LegacyUnidenParser.TryValidateFrequency | Logic/UnidenParser.cs:22-30 | accepted exactly when the input parses to a value from 25 to 1300 MHz inclusive; then the text is the formatted value, otherwise empty |

## Left out

- Sockets, serial ports, locks, `TaskCompletionSource` and the `Task.WhenAny` timer race. Each transport is the sequence of datagrams or characters that arrive before the deadline, and the reply wins exactly when those resolve the slot.
- `UdpDataReceiver.StartAsync` and `SerialDataReceiver.StartAsync`, beyond the trim and blank-skip step each datagram gets (`ReceiveDatagram`): they are receive loops and event wiring.
- `XDocument.Parse`, `int.TryParse` and `double.TryParse` are partial functions passed in. Frequencies are `real`, so NaN and the infinities are not represented. The division by 10^6 in the legacy parser is stated as "frequency times 10^6 is the parsed value". The `F4` formatting is a parameter.
- The per-screen extractors are specified by the fields they may write (their frame). Value contracts cover only the most-used cases: the conventional-scan fallback (including its frequency), the trunk talkgroup, the Property block, mode and screen, and the two shared setters `SetFrequency` and `SetHitCount`. The members below are weaker in this way.
- UnidenParser.ParseTrunkScan: the contract states which fields it may write, and the talkgroup value, but not which attribute each other value comes from.
- UnidenParser.ParseCcHitsScan: the contract states which fields it may write, not which attribute each value comes from.
- UnidenParser.ParseSearch: the contract states which fields it may write, not which attribute each value comes from.
- UnidenParser.ParseToneOut: the contract states which fields it may write, not which attribute each value comes from.
- UnidenParser.ParseWeather: the contract states which fields it may write, not which attribute each value comes from.
- UnidenParser.ParseSrchFrequency: the contract states which fields it may write, not which attribute each value comes from.
- UnidenParser.ParseDiscoveryConventional: the contract states which fields it may write, not which attribute each value comes from.
- UnidenParser.ParseDiscoveryTrunking: the contract states which fields it may write, not which attribute each value comes from.
- UnidenParser.ParseAnalyzeSystemStatus: the contract states which fields it may write, not which attribute each value comes from.
- UnidenParser.ParseWaterfall: the contract states which fields it may write, not which attribute each value comes from.
- UnidenParser.ParseMonitorList: the contract states which fields it may write, not which attribute each value comes from.
- UnidenParser.ParseSystem: the contract states which fields it may write, not which attribute each value comes from.
- UnidenParser.ParseDepartment: the contract states which fields it may write, not which attribute each value comes from.
- UnidenParser.ParseSearchRange: the contract states which fields it may write, not which attribute each value comes from.
- UnidenParser.RunExtractor: the contract states which fields it may write, not which attribute each value comes from.
- Footer packet numbers are `nat`. The `OverflowException` that `int.Parse` throws on a packet number above `int.MaxValue` (2,147,483,647) is not modelled.
- The footer pattern's `\d` is read as the ASCII digits `0`-`9`. .NET's `\d` also matches other Unicode decimal digits, on which the following `int.Parse` throws; that exception is not modelled.
- Case-insensitive comparison and `ToUpper` are ASCII-only. Culture-specific case mappings (such as the Turkish dotless i) are not modelled, and the culture-sensitive `IndexOf` and `StartsWith("<")` in `UnidenParser` are modelled as ordinal.
- The `Encoding.ASCII` replacement of non-ASCII characters by `?` on transmission; the transmitted text is the normalised command plus `\r`.
- `TimeSpan` values are whole milliseconds, and clock readings (`DateTime.UtcNow`, the time provider, `HH:mm:ss` stamps) are arguments.
- `IPAddress.Parse` exceptions in `UdpScannerBridge.ConnectAsync`, and the serial port's open failures.
- Exceptions from `SerialPort.Write` and `UdpClient.SendAsync` that would propagate out of a send: the model's send always ends in a reply, `TIMEOUT` or `DISCONNECTED`.
- Negative queue caps: caps are `nat`.
- `KeyboardHandler.LabelText` does not give text for the `C` and `Q` key labels: `MarkupConstants.KeyPressedC` and `KeyPressedQ` are not part of this model, so those two labels stay symbolic.
- `ContactLogEntry.DurationSeconds`: it reads the clock and uses floating point.
- `KeyboardHandler.RunAsync` and `PollKeysAsync`: console input loops.
- The logging, delays, port open/close and write calls in `DetectScannerPortAsync`. Each port's probe outcome is a parameter; an exception is a failed probe.
- `SerialPortHelpers.GetAvailablePorts` and `GsiResponseHandler.GetBufferContents`: plain accessors of the operating system's port list and the buffer.
- The debug-only text of the packet-gap log line; the model records only that a gap was logged.
- The console renderers, `Program`, `FileLogger`, `AppSettings` and the file-system wrappers.
- The obsolete `SDS200.Cli/Models` copies (their defaults match the `Abstractions` records), the legacy `Bridges/*.cs` transports, and interface-only files.
- `KeyboardHandler.EnqueueDebug` is modelled as written: it drops one entry when the log exceeds five. Since every entry arrives one at a time, this keeps the log at five (`EnqueueDebugBounds`).
