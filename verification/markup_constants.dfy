/**
 * The pure pieces of the console's markup table: the screen-mode labels,
 * the connection badge and the LED indicator.
 */
module MarkupConstants {
  import opened UnidenParser

  /** Mode labels keyed by `V_Screen` text. */
  const ModeLabels: map<string, string> := map[
    "conventional_scan" := "SCAN",
    "trunk_scan" := "TRUNK",
    "custom_with_scan" := "CUSTOM/SCAN",
    "cchits_with_scan" := "CC HITS",
    "custom_search" := "CUSTOM SEARCH",
    "quick_search" := "QUICK SEARCH",
    "close_call" := "CLOSE CALL",
    "cc_searching" := "CC SEARCH",
    "tone_out" := "TONE OUT",
    "wx_alert" := "WEATHER",
    "repeater_find" := "RPT FIND",
    "reverse_frequency" := "REVERSE",
    "direct_entry" := "DIRECT",
    "discovery_conventional" := "DISC CONV",
    "discovery_trunking" := "DISC TRUNK",
    "analyze_system_status" := "ANALYZE SYS",
    "analyze" := "WATERFALL"
  ]

  /** The label of each screen kind, stated per kind rather than per string. */
  function KindLabel(k: ScreenKind): string
    requires !k.Unrecognised?
  {
    match k
    case ConventionalScan => "SCAN"
    case TrunkScan => "TRUNK"
    case CustomWithScan => "CUSTOM/SCAN"
    case CcHitsWithScan => "CC HITS"
    case CustomSearch => "CUSTOM SEARCH"
    case QuickSearch => "QUICK SEARCH"
    case CloseCall => "CLOSE CALL"
    case CcSearching => "CC SEARCH"
    case ToneOut => "TONE OUT"
    case WxAlert => "WEATHER"
    case RepeaterFind => "RPT FIND"
    case ReverseFrequency => "REVERSE"
    case DirectEntry => "DIRECT"
    case DiscoveryConventional => "DISC CONV"
    case DiscoveryTrunking => "DISC TRUNK"
    case AnalyzeSystemStatus => "ANALYZE SYS"
    case Analyze => "WATERFALL"
  }

  /** `GetModeLabel`: the table's label for a known key, the fallback otherwise. */
  function GetModeLabel(vScreen: string, fallback: string): (r: string)
    ensures vScreen !in ModeLabels ==> r == fallback
    ensures vScreen in ModeLabels ==> r == ModeLabels[vScreen] && r != ""
  {
    if vScreen in ModeLabels then ModeLabels[vScreen] else fallback
  }

  /** The table's keys are exactly the screens the decoder names. */
  lemma LabelKeysAreDecoderScreens(v: string)
    ensures v in ModeLabels <==> !ScreenKindOf(v).Unrecognised?
  {
    if !ScreenKindOf(v).Unrecognised? {
      var k := ScreenKindOf(v);
      assert v == ScreenName(k);
      match k
      case ConventionalScan =>
      case TrunkScan =>
      case CustomWithScan =>
      case CcHitsWithScan =>
      case CustomSearch =>
      case QuickSearch =>
      case CloseCall =>
      case CcSearching =>
      case ToneOut =>
      case WxAlert =>
      case RepeaterFind =>
      case ReverseFrequency =>
      case DirectEntry =>
      case DiscoveryConventional =>
      case DiscoveryTrunking =>
      case AnalyzeSystemStatus =>
      case Analyze =>
    }
  }

  /**
   * For each recognised screen the label is its own; for any other
   * `V_Screen` the fallback comes back unchanged.
   */
  lemma ModeLabelPerKind(k: ScreenKind, fallback: string)
    ensures !k.Unrecognised? ==> GetModeLabel(ScreenName(k), fallback) == KindLabel(k)
    ensures k.Unrecognised? && ScreenKindOf(k.vScreen) == k ==> GetModeLabel(ScreenName(k), fallback) == fallback
  {
    LabelKeysAreDecoderScreens(ScreenName(k));
    if !k.Unrecognised? {
      ScreenNamesClassify(k);
    }
  }

  const StatusConnected := "CONNECTED"
  const StatusDisconnected := "DISCONNECTED"

  /** `FormatConnectionStatus`: a green CONNECTED or a red DISCONNECTED badge. */
  function FormatConnectionStatus(connected: bool): (r: string)
    ensures connected ==> r == "[green]CONNECTED[/]"
    ensures !connected ==> r == "[red]DISCONNECTED[/]"
  {
    "[" + (if connected then "green" else "red") + "]" + (if connected then StatusConnected else StatusDisconnected) + "[/]"
  }

  /** The badge tells the two states apart. */
  lemma ConnectionBadgesDiffer(a: bool, b: bool)
    ensures FormatConnectionStatus(a) == FormatConnectionStatus(b) <==> a == b
  {
    if a != b {
      assert |FormatConnectionStatus(true)| != |FormatConnectionStatus(false)|;
    }
  }

  const LedPrefix := "  LED:"

  /** `FormatLedIndicator`: the LED state after a fixed two-space label. */
  function FormatLedIndicator(ledStatus: string): (r: string)
    ensures |r| == |LedPrefix| + |ledStatus|
    ensures r[..|LedPrefix|] == LedPrefix
  {
    LedPrefix + ledStatus
  }

  /** The LED state read back off an indicator. */
  function LedStatusOf(indicator: string): (s: string)
    requires |indicator| >= |LedPrefix|
    ensures |s| == |indicator| - |LedPrefix|
  {
    indicator[|LedPrefix|..]
  }

  /** The indicator loses nothing: the LED state is recovered from it. */
  lemma LedIndicatorRoundTrip(ledStatus: string)
    ensures LedStatusOf(FormatLedIndicator(ledStatus)) == ledStatus
  {
  }
}
