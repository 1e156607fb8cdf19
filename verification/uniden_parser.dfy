/**
 * The GSI status decoder: strips the envelope, gates on the closing tag,
 * parses, dispatches on `V_Screen` to a per-screen extractor and then reads
 * the shared `Property` and `MonitorList` elements. A rejected payload
 * leaves the status record exactly as it was.
 */
module UnidenParser {
  import opened Wrappers
  import opened Text
  import opened Xml
  import opened XmlParserHelpers
  import opened ScannerStatus

  const ClosingTag := "</ScannerInfo>"
  const RootName := "ScannerInfo"

  // ── Screen kinds ──────────────────────────────────────────────────────

  /** The `V_Screen` values the decoder recognises, and everything else. */
  datatype ScreenKind =
    | ConventionalScan | TrunkScan | CustomWithScan | CcHitsWithScan
    | CustomSearch | QuickSearch | CloseCall | CcSearching
    | ToneOut | WxAlert | RepeaterFind | ReverseFrequency | DirectEntry
    | DiscoveryConventional | DiscoveryTrunking | AnalyzeSystemStatus | Analyze
    | Unrecognised(vScreen: string)

  /** The `V_Screen` text of a screen kind. */
  function ScreenName(k: ScreenKind): string {
    match k
    case ConventionalScan => "conventional_scan"
    case TrunkScan => "trunk_scan"
    case CustomWithScan => "custom_with_scan"
    case CcHitsWithScan => "cchits_with_scan"
    case CustomSearch => "custom_search"
    case QuickSearch => "quick_search"
    case CloseCall => "close_call"
    case CcSearching => "cc_searching"
    case ToneOut => "tone_out"
    case WxAlert => "wx_alert"
    case RepeaterFind => "repeater_find"
    case ReverseFrequency => "reverse_frequency"
    case DirectEntry => "direct_entry"
    case DiscoveryConventional => "discovery_conventional"
    case DiscoveryTrunking => "discovery_trunking"
    case AnalyzeSystemStatus => "analyze_system_status"
    case Analyze => "analyze"
    case Unrecognised(v) => v
  }

  /** Classifies a `V_Screen` value the way the decoder's `switch` does. */
  function ScreenKindOf(v: string): (k: ScreenKind)
    ensures ScreenName(k) == v
  {
    match v
    case "conventional_scan" => ConventionalScan
    case "trunk_scan" => TrunkScan
    case "custom_with_scan" => CustomWithScan
    case "cchits_with_scan" => CcHitsWithScan
    case "custom_search" => CustomSearch
    case "quick_search" => QuickSearch
    case "close_call" => CloseCall
    case "cc_searching" => CcSearching
    case "tone_out" => ToneOut
    case "wx_alert" => WxAlert
    case "repeater_find" => RepeaterFind
    case "reverse_frequency" => ReverseFrequency
    case "direct_entry" => DirectEntry
    case "discovery_conventional" => DiscoveryConventional
    case "discovery_trunking" => DiscoveryTrunking
    case "analyze_system_status" => AnalyzeSystemStatus
    case "analyze" => Analyze
    case _ => Unrecognised(v)
  }

  /** The seventeen recognised kinds are told apart by their names. */
  lemma ScreenNamesClassify(k: ScreenKind)
    requires !k.Unrecognised?
    ensures ScreenKindOf(ScreenName(k)) == k
  {
  }

  // ── Extractors ────────────────────────────────────────────────────────

  /** The per-screen extraction routines of the decoder. */
  datatype Extractor =
    | Conventional | Trunk | CustomWithScanExtractor | CcHits
    | CustomSearchExtractor | QuickSearchExtractor | CloseCallExtractor
    | ToneOutExtractor | Weather | RepeaterFindExtractor
    | DiscoveryConventionalExtractor | DiscoveryTrunkingExtractor
    | AnalyzeSystemStatusExtractor | Waterfall

  function ExtractorFor(k: ScreenKind): Extractor {
    match k
    case ConventionalScan => Conventional
    case TrunkScan => Trunk
    case CustomWithScan => CustomWithScanExtractor
    case CcHitsWithScan => CcHits
    case CustomSearch => CustomSearchExtractor
    case QuickSearch => QuickSearchExtractor
    case CloseCall | CcSearching => CloseCallExtractor
    case ToneOut => ToneOutExtractor
    case WxAlert => Weather
    case RepeaterFind | ReverseFrequency | DirectEntry => RepeaterFindExtractor
    case DiscoveryConventional => DiscoveryConventionalExtractor
    case DiscoveryTrunking => DiscoveryTrunkingExtractor
    case AnalyzeSystemStatus => AnalyzeSystemStatusExtractor
    case Analyze => Waterfall
    case Unrecognised(_) => Conventional
  }

  /** The fields each extractor may write, as its documentation lists the elements it reads. */
  function Writes(e: Extractor): set<Field> {
    match e
    case Conventional => {SystemName, DepartmentName, ChannelName, Modulation, ServiceType, Hold, Frequency}
    case Trunk => {SystemName, DepartmentName, SiteName, Modulation, ChannelName, TgId, UnitId, ServiceType, Hold, Frequency}
    case CustomWithScanExtractor => {SystemName, DepartmentName, Modulation, Frequency, SearchRangeLower, SearchRangeUpper}
    case CcHits => {SystemName, DepartmentName, ChannelName, Modulation, Hold, Frequency}
    case CustomSearchExtractor => {Modulation, Frequency, SearchRangeLower, SearchRangeUpper}
    case QuickSearchExtractor => {Modulation, Frequency, SearchRangeLower, SearchRangeUpper}
    case CloseCallExtractor => {Modulation, Frequency, SearchRangeLower, SearchRangeUpper}
    case ToneOutExtractor => {ChannelName, Modulation, Hold, ToneA, ToneB, Frequency}
    case Weather => {ChannelName, Modulation, Hold, Frequency}
    case RepeaterFindExtractor => {Modulation, Frequency}
    case DiscoveryConventionalExtractor => {Modulation, SearchRangeLower, SearchRangeUpper, TgId, UnitId, Frequency, HitCount}
    case DiscoveryTrunkingExtractor => {SystemName, SiteName, TgId, ChannelName, UnitId, HitCount}
    case AnalyzeSystemStatusExtractor => {SystemName, SiteName, Attenuator, P25Status}
    case Waterfall => {SystemName, SiteName, ChannelName, SearchRangeLower, SearchRangeUpper, Modulation, Frequency}
  }

  /** `SetFrequency`: the frequency changes only to a value parsed from `raw`. */
  function SetFrequency(p: Parsers, s: Status, raw: string): (r: Status)
    ensures SameExcept(s, r, {Frequency})
    ensures raw == "" || raw == "---" ==> r == s
    ensures r.frequency != s.frequency ==> p.float64(CleanFrequency(raw)) == Some(r.frequency)
    ensures p.float64(CleanFrequency(raw)).None? ==> r == s
    ensures raw != "" && raw != "---" && p.float64(CleanFrequency(raw)).Some? ==>
              r.frequency == p.float64(CleanFrequency(raw)).value
  {
    match ParseFrequency(p, raw)
    case Some(f) => s.(frequency := f)
    case None => s
  }

  function ParseSystem(root: Element, s: Status): (r: Status)
    ensures SameExcept(s, r, {SystemName})
  {
    match FirstChild(root, "System")
    case Some(sys) => s.(systemName := Attr(sys, "Name", "SCANNING"))
    case None => s
  }

  function ParseDepartment(root: Element, s: Status): (r: Status)
    ensures SameExcept(s, r, {DepartmentName})
  {
    match FirstChild(root, "Department")
    case Some(dept) => s.(departmentName := Attr(dept, "Name", "..."))
    case None => s
  }

  function ParseSrchFrequency(p: Parsers, root: Element, s: Status): (r: Status)
    ensures SameExcept(s, r, {Modulation, Frequency})
  {
    match FirstChild(root, "SrchFrequency")
    case Some(f) => SetFrequency(p, s.(modulation := Attr(f, "Mod")), Attr(f, "Freq"))
    case None => s
  }

  function ParseSearchRange(root: Element, s: Status): (r: Status)
    ensures SameExcept(s, r, {SearchRangeLower, SearchRangeUpper})
  {
    match FirstChild(root, "SearchRange")
    case Some(range) => s.(searchRangeLower := Attr(range, "Lower"), searchRangeUpper := Attr(range, "Upper"))
    case None => s
  }

  function ParseMonitorList(root: Element, s: Status): (r: Status)
    ensures SameExcept(s, r, {MonitorListName})
  {
    match FirstChild(root, "MonitorList")
    case Some(ml) => s.(monitorListName := Attr(ml, "Name"))
    case None => s
  }

  /** A channel element carrying Name, Mod, Hold and Freq (CcHitsChannel, ToneOutChannel, WxChannel). */
  function ParseChannel(p: Parsers, ch: Element, s: Status): (r: Status)
    ensures SameExcept(s, r, {ChannelName, Modulation, Hold, Frequency})
  {
    SetFrequency(p, s.(channelName := Attr(ch, "Name"), modulation := Attr(ch, "Mod"), hold := Attr(ch, "Hold", "Off")), Attr(ch, "Freq"))
  }

  /** The ConvFrequency element: channel name, modulation, service type, hold and frequency. */
  function ParseConvFrequency(p: Parsers, freq: Element, s: Status): (r: Status)
    ensures SameExcept(s, r, {ChannelName, Modulation, ServiceType, Hold, Frequency})
  {
    var s1 := s.(channelName := Attr(freq, "Name"), modulation := Attr(freq, "Mod"),
                 serviceType := Attr(freq, "SvcType"), hold := Attr(freq, "Hold", "Off"));
    SetFrequency(p, s1, Attr(freq, "Freq"))
  }

  function ParseConventionalScan(p: Parsers, root: Element, s: Status): (r: Status)
    ensures SameExcept(s, r, Writes(Conventional))
    ensures FirstChild(root, "ConvFrequency").Some? ==>
              var cf := FirstChild(root, "ConvFrequency").value;
              && r.channelName == Attr(cf, "Name") && r.modulation == Attr(cf, "Mod")
              && r.serviceType == Attr(cf, "SvcType") && r.hold == Attr(cf, "Hold", "Off")
    ensures FirstChild(root, "ConvFrequency").Some? ==>
              var f := ParseFrequency(p, Attr(FirstChild(root, "ConvFrequency").value, "Freq"));
              r.frequency == if f.Some? then f.value else s.frequency
    ensures FirstChild(root, "ConvFrequency").None? ==>
              && r.channelName == s.channelName && r.modulation == s.modulation && r.frequency == s.frequency
              && r.serviceType == s.serviceType && r.hold == s.hold
    ensures FirstChild(root, "System").Some? ==> r.systemName == Attr(FirstChild(root, "System").value, "Name", "SCANNING")
    ensures FirstChild(root, "Department").Some? ==> r.departmentName == Attr(FirstChild(root, "Department").value, "Name", "...")
  {
    var s1 := ParseDepartment(root, ParseSystem(root, s));
    match FirstChild(root, "ConvFrequency")
    case Some(freq) => ParseConvFrequency(p, freq, s1)
    case None => s1
  }

  function ParseSite(root: Element, s: Status): (r: Status)
    ensures SameExcept(s, r, {SiteName, Modulation})
  {
    match FirstChild(root, "Site")
    case Some(site) => s.(siteName := Attr(site, "Name"), modulation := Attr(site, "Mod"))
    case None => s
  }

  function ParseTgid(root: Element, s: Status): (r: Status)
    ensures SameExcept(s, r, {ChannelName, TgId, UnitId, ServiceType, Hold})
    ensures FirstChild(root, "TGID").Some? ==> r.tgId == Attr(FirstChild(root, "TGID").value, "TGID")
  {
    match FirstChild(root, "TGID")
    case Some(tgid) =>
      s.(channelName := Attr(tgid, "Name"), tgId := Attr(tgid, "TGID"), unitId := Attr(tgid, "U_Id"),
         serviceType := Attr(tgid, "SvcType"), hold := Attr(tgid, "Hold", "Off"))
    case None => s
  }

  function ParseSiteFrequency(p: Parsers, root: Element, s: Status): (r: Status)
    ensures SameExcept(s, r, {Frequency})
  {
    match FirstChild(root, "SiteFrequency")
    case Some(siteFreq) => SetFrequency(p, s, Attr(siteFreq, "Freq"))
    case None => s
  }

  function ParseTrunkScan(p: Parsers, root: Element, s: Status): (r: Status)
    ensures SameExcept(s, r, Writes(Trunk))
    ensures FirstChild(root, "TGID").Some? ==> r.tgId == Attr(FirstChild(root, "TGID").value, "TGID")
  {
    var s1 := ParseDepartment(root, ParseSystem(root, s));
    var s2 := ParseTgid(root, ParseSite(root, s1));
    var r := ParseSiteFrequency(p, root, s2);
    assert Get(s2, TgId) == Get(r, TgId);
    r
  }

  function ParseCcHitsScan(p: Parsers, root: Element, s: Status): (r: Status)
    ensures SameExcept(s, r, Writes(CcHits))
  {
    var s1 := ParseDepartment(root, ParseSystem(root, s));
    match FirstChild(root, "CcHitsChannel")
    case Some(ch) => ParseChannel(p, ch, s1)
    case None => s1
  }

  /** SrchFrequency followed by SearchRange: custom_search, quick_search and close_call share it. */
  function ParseSearch(p: Parsers, root: Element, s: Status): (r: Status)
    ensures SameExcept(s, r, {Modulation, Frequency, SearchRangeLower, SearchRangeUpper})
  {
    ParseSearchRange(root, ParseSrchFrequency(p, root, s))
  }

  function ParseToneOut(p: Parsers, root: Element, s: Status): (r: Status)
    ensures SameExcept(s, r, Writes(ToneOutExtractor))
  {
    match FirstChild(root, "ToneOutChannel")
    case Some(ch) =>
      SetFrequency(p, s.(channelName := Attr(ch, "Name"), modulation := Attr(ch, "Mod"), hold := Attr(ch, "Hold", "Off"),
                         toneA := Attr(ch, "ToneA"), toneB := Attr(ch, "ToneB")),
                   Attr(ch, "Freq"))
    case None => s
  }

  function ParseWeather(p: Parsers, root: Element, s: Status): (r: Status)
    ensures SameExcept(s, r, Writes(Weather))
  {
    match FirstChild(root, "WxChannel")
    case Some(ch) => ParseChannel(p, ch, s)
    case None => s
  }

  function SetHitCount(p: Parsers, disc: Element, s: Status): (r: Status)
    ensures SameExcept(s, r, {HitCount})
    ensures r.hitCount != s.hitCount ==> TryParseInt(p, Attribute(disc, "HitCount")) == Some(r.hitCount)
    ensures TryParseInt(p, Attribute(disc, "HitCount")).Some? ==>
              r.hitCount == TryParseInt(p, Attribute(disc, "HitCount")).value
  {
    match TryParseInt(p, Attribute(disc, "HitCount"))
    case Some(hits) => s.(hitCount := hits)
    case None => s
  }

  function ParseDiscoveryConventional(p: Parsers, root: Element, s: Status): (r: Status)
    ensures SameExcept(s, r, Writes(DiscoveryConventionalExtractor))
  {
    match FirstChild(root, "ConventionalDiscovery")
    case Some(disc) => SetHitCount(p, disc, SetFrequency(p, DiscoveredChannel(disc, s), Attr(disc, "Freq")))
    case None => s
  }

  /** The text fields of a ConventionalDiscovery element. */
  function DiscoveredChannel(disc: Element, s: Status): (r: Status)
    ensures SameExcept(s, r, {Modulation, SearchRangeLower, SearchRangeUpper, TgId, UnitId})
  {
    s.(modulation := Attr(disc, "Mod"), searchRangeLower := Attr(disc, "Lower"),
       searchRangeUpper := Attr(disc, "Upper"), tgId := Attr(disc, "TGID"), unitId := Attr(disc, "U_Id"))
  }

  function ParseDiscoveryTrunking(p: Parsers, root: Element, s: Status): (r: Status)
    ensures SameExcept(s, r, Writes(DiscoveryTrunkingExtractor))
  {
    match FirstChild(root, "TrunkingDiscovery")
    case Some(disc) =>
      SetHitCount(p, disc, s.(systemName := Attr(disc, "SystemName", "SCANNING"), siteName := Attr(disc, "SiteName"),
                              tgId := Attr(disc, "TGID"), channelName := Attr(disc, "TgidName"), unitId := Attr(disc, "U_Id")))
    case None => s
  }

  function ParseAnalyzeSystemStatus(root: Element, s: Status): (r: Status)
    ensures SameExcept(s, r, Writes(AnalyzeSystemStatusExtractor))
  {
    match FirstChild(root, "SystemStatus")
    case Some(ss) =>
      s.(systemName := Attr(ss, "SystemName", "SCANNING"), siteName := Attr(ss, "SiteName"),
         attenuator := Attr(ss, "Att", "Off"), p25Status := Attr(ss, "P25Status"))
    case None => s
  }

  function ParseAnalyze(root: Element, s: Status): (r: Status)
    ensures SameExcept(s, r, {SystemName, SiteName, ChannelName})
  {
    match FirstChild(root, "Analyze")
    case Some(a) => s.(systemName := Attr(a, "SystemName", "SCANNING"), siteName := Attr(a, "SiteName"), channelName := Attr(a, "Msg1"))
    case None => s
  }

  function ParseWaterfallBand(p: Parsers, root: Element, s: Status): (r: Status)
    ensures SameExcept(s, r, {SearchRangeLower, SearchRangeUpper, Modulation, Frequency})
  {
    match FirstChild(root, "WaterfallBand")
    case Some(band) => SetFrequency(p, BandEdges(band, s), Attr(band, "Center"))
    case None => s
  }

  /** The range and modulation of a WaterfallBand element. */
  function BandEdges(band: Element, s: Status): (r: Status)
    ensures SameExcept(s, r, {SearchRangeLower, SearchRangeUpper, Modulation})
  {
    s.(searchRangeLower := Attr(band, "Lower"), searchRangeUpper := Attr(band, "Upper"), modulation := Attr(band, "Mod"))
  }

  function ParseWaterfall(p: Parsers, root: Element, s: Status): (r: Status)
    ensures SameExcept(s, r, Writes(Waterfall))
  {
    var s1 := ParseAnalyze(root, s);
    var r := ParseWaterfallBand(p, root, s1);
    SameExceptChain(s, s1, r, {SystemName, SiteName, ChannelName}, {SearchRangeLower, SearchRangeUpper, Modulation, Frequency}, Writes(Waterfall));
    r
  }

  /** Runs one extractor; it writes only the fields listed for it. */
  function RunExtractor(p: Parsers, e: Extractor, root: Element, s: Status): (r: Status)
    ensures SameExcept(s, r, Writes(e))
  {
    match e
    case Conventional => ParseConventionalScan(p, root, s)
    case Trunk => ParseTrunkScan(p, root, s)
    case CustomWithScanExtractor => ParseSearchRange(root, ParseSrchFrequency(p, root, ParseDepartment(root, ParseSystem(root, s))))
    case CcHits => ParseCcHitsScan(p, root, s)
    case CustomSearchExtractor => ParseSearch(p, root, s)
    case QuickSearchExtractor => ParseSearch(p, root, s)
    case CloseCallExtractor => ParseSearch(p, root, s)
    case ToneOutExtractor => ParseToneOut(p, root, s)
    case Weather => ParseWeather(p, root, s)
    case RepeaterFindExtractor => ParseSrchFrequency(p, root, s)
    case DiscoveryConventionalExtractor => ParseDiscoveryConventional(p, root, s)
    case DiscoveryTrunkingExtractor => ParseDiscoveryTrunking(p, root, s)
    case AnalyzeSystemStatusExtractor => ParseAnalyzeSystemStatus(root, s)
    case Waterfall => ParseWaterfall(p, root, s)
  }

  // ── Shared Property block ─────────────────────────────────────────────

  const PropertyFields: set<Field> := {Rssi, LastRssiValue, Mute, Attenuator, AlertLed, P25Status, Recording, Volume, Squelch}

  /** The raw RSSI text: the attribute's value, `"0"` when it is absent. */
  function RssiRaw(prop: Element): string {
    Attribute(prop, "Rssi").GetOr("0")
  }

  /** The RSSI label (`"S"` + raw, `"S0"` for empty text) and its numeric value when it parses. */
  function SetRssi(p: Parsers, prop: Element, s: Status): (r: Status)
    ensures SameExcept(s, r, {Rssi, LastRssiValue})
    ensures Attribute(prop, "Rssi").None? ==> r.rssi == "S0"
    ensures Attribute(prop, "Rssi") == Some("") ==> r.rssi == "S0"
    ensures Attribute(prop, "Rssi").Some? && Attribute(prop, "Rssi").value != "" ==> r.rssi == "S" + Attribute(prop, "Rssi").value
    ensures p.int32(RssiRaw(prop)).Some? ==> r.lastRssiValue == p.int32(RssiRaw(prop)).value
    ensures p.int32(RssiRaw(prop)).None? ==> r.lastRssiValue == s.lastRssiValue
  {
    var raw := RssiRaw(prop);
    s.(rssi := if raw == "" then "S0" else "S" + raw, lastRssiValue := p.int32(raw).GetOr(s.lastRssiValue))
  }

  /** Volume and squelch change only when their attribute parses as an integer. */
  function SetLevels(p: Parsers, prop: Element, s: Status): (r: Status)
    ensures SameExcept(s, r, {Volume, Squelch})
    ensures TryParseInt(p, Attribute(prop, "VOL")).None? ==> r.volume == s.volume
    ensures TryParseInt(p, Attribute(prop, "VOL")).Some? ==> r.volume == TryParseInt(p, Attribute(prop, "VOL")).value
    ensures TryParseInt(p, Attribute(prop, "SQL")).None? ==> r.squelch == s.squelch
    ensures TryParseInt(p, Attribute(prop, "SQL")).Some? ==> r.squelch == TryParseInt(p, Attribute(prop, "SQL")).value
  {
    s.(volume := TryParseInt(p, Attribute(prop, "VOL")).GetOr(s.volume),
       squelch := TryParseInt(p, Attribute(prop, "SQL")).GetOr(s.squelch))
  }

  /**
   * `ParseProperty`: the RSSI label and number, mute, attenuator, LED, P25
   * status, recording, volume and squelch, all from the `Property` element;
   * without that element nothing changes.
   */
  function ParseProperty(p: Parsers, root: Element, s: Status): (r: Status)
    ensures SameExcept(s, r, PropertyFields)
    ensures FirstChild(root, "Property").None? ==> r == s
    ensures FirstChild(root, "Property").Some? ==>
              var prop := FirstChild(root, "Property").value;
              && r.rssi == SetRssi(p, prop, s).rssi && r.lastRssiValue == SetRssi(p, prop, s).lastRssiValue
              && r.volume == SetLevels(p, prop, s).volume && r.squelch == SetLevels(p, prop, s).squelch
              && r.mute == Attr(prop, "Mute", "Unmute") && r.attenuator == Attr(prop, "Att", "Off")
              && r.alertLed == Attr(prop, "A_Led", "Off") && r.p25Status == Attr(prop, "P25Status")
              && r.recording == Attr(prop, "Rec", "Off")
  {
    match FirstChild(root, "Property")
    case None => s
    case Some(prop) =>
      SetLevels(p, prop, SetSwitches(prop, SetRssi(p, prop, s)))
  }

  /** The on/off style attributes of `Property`, each with its own default. */
  function SetSwitches(prop: Element, s: Status): (r: Status)
    ensures SameExcept(s, r, {Mute, Attenuator, AlertLed, P25Status, Recording})
    ensures r.rssi == s.rssi && r.lastRssiValue == s.lastRssiValue
  {
    s.(mute := Attr(prop, "Mute", "Unmute"), attenuator := Attr(prop, "Att", "Off"),
       alertLed := Attr(prop, "A_Led", "Off"), p25Status := Attr(prop, "P25Status"),
       recording := Attr(prop, "Rec", "Off"))
  }

  // ── The decoder ───────────────────────────────────────────────────────

  /** Every field the decoder may write; the lock state, view description and UI state are never touched. */
  const DecoderFields: set<Field> :=
    {Mode, VScreen, MonitorListName, SystemName, DepartmentName, SiteName, ChannelName, Frequency, Modulation,
     TgId, UnitId, ServiceType, ToneA, ToneB, SearchRangeLower, SearchRangeUpper, HitCount}
    + PropertyFields + {Hold}

  /** A root attribute as `root.Attribute(name)?.Value ?? "---"` reads it: an empty value is kept. */
  function RootAttr(root: Element, name: string): string {
    Attribute(root, name).GetOr("---")
  }

  /** Copies `Mode` and `V_Screen` off the root element. */
  function SetModeAndScreen(root: Element, s: Status): (r: Status)
    ensures SameExcept(s, r, {Mode, VScreen})
    ensures r.mode == RootAttr(root, "Mode") && r.vScreen == RootAttr(root, "V_Screen")
  {
    s.(mode := RootAttr(root, "Mode"), vScreen := RootAttr(root, "V_Screen"))
  }

  /** The updates made from an accepted document, in the decoder's order. */
  function ApplyDocument(p: Parsers, root: Element, s: Status): (r: Status)
    ensures SameExcept(s, r, DecoderFields)
    ensures r.mode == RootAttr(root, "Mode") && r.vScreen == RootAttr(root, "V_Screen")
  {
    var s1 := SetModeAndScreen(root, s);
    var e := ExtractorFor(ScreenKindOf(s1.vScreen));
    var s2 := RunExtractor(p, e, root, s1);
    var s3 := ParseProperty(p, root, s2);
    var r := ParseMonitorList(root, s3);
    DecoderFrame(s, s1, s2, s3, r, e);
    r
  }

  lemma DecoderFrame(s: Status, s1: Status, s2: Status, s3: Status, r: Status, e: Extractor)
    requires SameExcept(s, s1, {Mode, VScreen})
    requires SameExcept(s1, s2, Writes(e))
    requires SameExcept(s2, s3, PropertyFields)
    requires SameExcept(s3, r, {MonitorListName})
    ensures SameExcept(s, r, DecoderFields)
    ensures r.mode == s1.mode && r.vScreen == s1.vScreen
  {
    WritesWithinDecoderFields(e);
    forall f | f !in DecoderFields
      ensures Get(s, f) == Get(r, f)
    {
      assert f !in Writes(e);
      assert Get(s, f) == Get(s1, f) == Get(s2, f) == Get(s3, f) == Get(r, f);
    }
    assert Get(s1, Mode) == Get(s2, Mode) == Get(s3, Mode) == Get(r, Mode);
    assert Get(s1, VScreen) == Get(s2, VScreen) == Get(s3, VScreen) == Get(r, VScreen);
  }

  lemma WritesWithinDecoderFields(e: Extractor)
    ensures Writes(e) <= DecoderFields
    ensures Mode !in Writes(e) && VScreen !in Writes(e)
  {
    match e
    case Conventional =>
    case Trunk =>
    case CustomWithScanExtractor =>
    case CcHits =>
    case CustomSearchExtractor =>
    case QuickSearchExtractor =>
    case CloseCallExtractor =>
    case ToneOutExtractor =>
    case Weather =>
    case RepeaterFindExtractor =>
    case DiscoveryConventionalExtractor =>
    case DiscoveryTrunkingExtractor =>
    case AnalyzeSystemStatusExtractor =>
    case Waterfall =>
  }

  /**
   * The document an input decodes to, when it passes every gate: not blank,
   * an XML payload inside or without the envelope, the closing tag present,
   * the parser accepting it, and a `ScannerInfo` root.
   */
  function Document(p: Parsers, raw: string): (r: Option<Element>)
    ensures r.Some? <==>
              && !IsBlank(raw)
              && ExtractXml(raw).Some?
              && Contains(ExtractXml(raw).value, ClosingTag)
              && p.document(ExtractXml(raw).value).Some?
              && p.document(ExtractXml(raw).value).value.name == RootName
    ensures r.Some? ==> r == p.document(ExtractXml(raw).value)
  {
    if IsBlank(raw) then None
    else match ExtractXml(raw)
      case None => None
      case Some(xml) =>
        if |xml| == 0 then None
        else if !Contains(xml, ClosingTag) then None
        else match p.document(xml)
          case None => None
          case Some(root) => if root.name != RootName then None else Some(root)
  }

  datatype Decoded = Decoded(ok: bool, status: Status)

  /**
   * `UpdateStatus`: decodes a GSI payload into the status record. A false
   * result leaves the record exactly as it was.
   */
  function UpdateStatus(p: Parsers, s: Status, raw: string): (r: Decoded)
    ensures !r.ok ==> r.status == s
    ensures r.ok <==> Document(p, raw).Some?
    ensures IsBlank(raw) ==> !r.ok
    ensures ExtractXml(raw).Some? && !Contains(ExtractXml(raw).value, ClosingTag) ==> !r.ok
    ensures r.ok ==> SameExcept(s, r.status, DecoderFields)
    ensures r.ok ==> r.status == ApplyDocument(p, Document(p, raw).value, s)
  {
    match Document(p, raw)
    case None => Decoded(false, s)
    case Some(root) => Decoded(true, ApplyDocument(p, root, s))
  }

  // ── Properties of the decoder ─────────────────────────────────────────

  /**
   * Dispatch: the conventional-scan extractor runs exactly for
   * `"conventional_scan"` and for every value the decoder does not name,
   * `"---"` included.
   */
  lemma ConventionalIsTheFallback(v: string)
    ensures ExtractorFor(ScreenKindOf(v)) == Conventional <==> v == "conventional_scan" || ScreenKindOf(v).Unrecognised?
    ensures v == "---" ==> ScreenKindOf(v).Unrecognised?
  {
  }

  /**
   * Dispatch: two recognised screens share an extractor only when the
   * decoder groups them (`close_call` with `cc_searching`, and
   * `repeater_find`, `reverse_frequency` and `direct_entry`).
   */
  lemma ExtractorsTellScreensApart(k1: ScreenKind, k2: ScreenKind)
    requires !k1.Unrecognised? && !k2.Unrecognised?
    requires ExtractorFor(k1) == ExtractorFor(k2)
    ensures || k1 == k2
            || (k1 in {CloseCall, CcSearching} && k2 in {CloseCall, CcSearching})
            || (k1 in {RepeaterFind, ReverseFrequency, DirectEntry} && k2 in {RepeaterFind, ReverseFrequency, DirectEntry})
  {
  }

  lemma FallbackExtractor(k: ScreenKind)
    requires k.Unrecognised?
    ensures ExtractorFor(k) == Conventional
  {
  }

  /**
   * An accepted document whose `V_Screen` the decoder does not name is
   * decoded by the conventional-scan extractor, and the call still succeeds.
   */
  lemma UnrecognisedScreenDecodesAsConventional(p: Parsers, s: Status, raw: string)
    requires Document(p, raw).Some?
    requires ScreenKindOf(RootAttr(Document(p, raw).value, "V_Screen")).Unrecognised?
    ensures UpdateStatus(p, s, raw).ok
    ensures var root := Document(p, raw).value;
            UpdateStatus(p, s, raw).status
              == ParseMonitorList(root, ParseProperty(p, root, ParseConventionalScan(p, root, SetModeAndScreen(root, s))))
  {
    var root := Document(p, raw).value;
    var s1 := SetModeAndScreen(root, s);
    FallbackExtractor(ScreenKindOf(RootAttr(root, "V_Screen")));
    ApplyDocumentSteps(p, root, s, Conventional);
    assert RunExtractor(p, Conventional, root, s1) == ParseConventionalScan(p, root, s1);
    assert UpdateStatus(p, s, raw).status == ApplyDocument(p, root, s);
  }

  /**
   * Trunk scan stores the `TGID` element's `TGID` attribute as it reads,
   * even when that text is the literal word `"TGID"`.
   */
  lemma TrunkTalkgroupIsVerbatim(p: Parsers, root: Element, s: Status)
    requires RootAttr(root, "V_Screen") == "trunk_scan"
    requires FirstChild(root, "TGID").Some?
    ensures ApplyDocument(p, root, s).tgId == Attr(FirstChild(root, "TGID").value, "TGID")
  {
    ApplyDocumentSteps(p, root, s, Trunk);
    TrunkStepsKeepTgid(p, root, SetModeAndScreen(root, s));
  }

  lemma TrunkStepsKeepTgid(p: Parsers, root: Element, s: Status)
    requires FirstChild(root, "TGID").Some?
    ensures ParseMonitorList(root, ParseProperty(p, root, RunExtractor(p, Trunk, root, s))).tgId
              == Attr(FirstChild(root, "TGID").value, "TGID")
  {
    var s2 := ParseTrunkScan(p, root, s);
    RunTrunk(p, root, s);
    CommonBlocksKeepTgid(p, root, s2);
  }

  lemma CommonBlocksKeepTgid(p: Parsers, root: Element, s: Status)
    ensures ParseMonitorList(root, ParseProperty(p, root, s)).tgId == s.tgId
  {
    CommonBlocksKeep(p, root, s, TgId);
  }

  lemma RunTrunk(p: Parsers, root: Element, s: Status)
    ensures RunExtractor(p, Trunk, root, s) == ParseTrunkScan(p, root, s)
  {
  }

  /** The decoder as its four steps, once the extractor the screen selects is known. */
  lemma ApplyDocumentSteps(p: Parsers, root: Element, s: Status, e: Extractor)
    requires e == ExtractorFor(ScreenKindOf(RootAttr(root, "V_Screen")))
    ensures ApplyDocument(p, root, s) == ParseMonitorList(root, ParseProperty(p, root, RunExtractor(p, e, root, SetModeAndScreen(root, s))))
  {
  }

  /** The shared `Property` and `MonitorList` steps leave every other field alone. */
  lemma CommonBlocksKeep(p: Parsers, root: Element, s: Status, f: Field)
    requires f !in PropertyFields && f != MonitorListName
    ensures Get(ParseMonitorList(root, ParseProperty(p, root, s)), f) == Get(s, f)
  {
    var s1 := ParseProperty(p, root, s);
    assert Get(s, f) == Get(s1, f);
  }

  /** A worked trunk-scan document whose talkgroup text is `"TGID"` itself. */
  lemma TrunkTalkgroupNamedTgid(p: Parsers, s: Status)
    ensures var tg := Element("TGID", map["TGID" := "TGID", "Name" := "Dispatch"], []);
            var root := Element("ScannerInfo", map["Mode" := "Trunk Scan", "V_Screen" := "trunk_scan"], [tg]);
            var r := ApplyDocument(p, root, s);
            r.tgId == "TGID" && r.channelName == "Dispatch" && r.unitId == "---" && r.mode == "Trunk Scan"
  {
    var tg := Element("TGID", map["TGID" := "TGID", "Name" := "Dispatch"], []);
    var root := Element("ScannerInfo", map["Mode" := "Trunk Scan", "V_Screen" := "trunk_scan"], [tg]);
    assert FirstChild(root, "TGID") == Some(tg);
    TrunkTalkgroupIsVerbatim(p, root, s);
  }
}
