/** The scanner status record the decoder fills in, and its defaults. */
module ScannerStatus {

  /** A point in time as the platform clock reports it (ticks). */
  type Instant = int

  datatype Status = Status(
    // scanner mode
    mode: string,
    vScreen: string,
    // identity / hierarchy
    monitorListName: string,
    systemName: string,
    departmentName: string,
    siteName: string,
    channelName: string,
    // frequency and modulation
    frequency: real,
    modulation: string,
    // trunking
    tgId: string,
    unitId: string,
    serviceType: string,
    // tone-out
    toneA: string,
    toneB: string,
    // search / discovery
    searchRangeLower: string,
    searchRangeUpper: string,
    hitCount: int,
    // property block
    rssi: string,
    lastRssiValue: int,
    signalLocked: bool,
    lastLockChangeTime: Instant,
    volume: int,
    squelch: int,
    mute: string,
    attenuator: string,
    alertLed: string,
    p25Status: string,
    hold: string,
    recording: string,
    // view description
    infoLines: seq<string>,
    popupText: string,
    isInMenu: bool,
    menuTitle: string,
    // UI state
    lastCommandSent: string)

  /** `new ScannerStatus()` created at instant `now`. */
  function Default(now: Instant): (s: Status)
    ensures s.mode == "---" && s.vScreen == "---" && s.monitorListName == "---" && s.siteName == "---"
    ensures s.systemName == "SCANNING" && s.departmentName == "..." && s.channelName == "..."
    ensures s.frequency == 0.0 && s.modulation == "---"
    ensures s.tgId == "---" && s.unitId == "---" && s.serviceType == "---"
    ensures s.toneA == "---" && s.toneB == "---"
    ensures s.searchRangeLower == "---" && s.searchRangeUpper == "---" && s.hitCount == 0
    ensures s.rssi == "S0" && s.lastRssiValue == 0 && !s.signalLocked && s.lastLockChangeTime == now
    ensures s.volume == 0 && s.squelch == 0
    ensures s.mute == "Unmute" && s.attenuator == "Off" && s.alertLed == "Off" && s.hold == "Off" && s.recording == "Off"
    ensures s.p25Status == "---"
    ensures s.infoLines == [] && s.popupText == "" && !s.isInMenu && s.menuTitle == ""
    ensures s.lastCommandSent == "None"
  {
    Status(
      "---", "---",
      "---", "SCANNING", "...", "---", "...",
      0.0, "---",
      "---", "---", "---",
      "---", "---",
      "---", "---", 0,
      "S0", 0, false, now, 0, 0, "Unmute", "Off", "Off", "---", "Off", "Off",
      [], "", false, "",
      "None")
  }

  // ── Field-level framing ────────────────────────────────────────────────

  /** The fields of the record, by name, so that contracts can say which ones an update may touch. */
  datatype Field =
    | Mode | VScreen
    | MonitorListName | SystemName | DepartmentName | SiteName | ChannelName
    | Frequency | Modulation
    | TgId | UnitId | ServiceType
    | ToneA | ToneB
    | SearchRangeLower | SearchRangeUpper | HitCount
    | Rssi | LastRssiValue | SignalLocked | LastLockChangeTime | Volume | Squelch
    | Mute | Attenuator | AlertLed | P25Status | Hold | Recording
    | InfoLines | PopupText | IsInMenu | MenuTitle
    | LastCommandSent

  datatype Value = Text(s: string) | Number(n: int) | Real(r: real) | Flag(b: bool) | Lines(lines: seq<string>)

  function Get(s: Status, f: Field): Value {
    match f
    case Mode => Text(s.mode)
    case VScreen => Text(s.vScreen)
    case MonitorListName => Text(s.monitorListName)
    case SystemName => Text(s.systemName)
    case DepartmentName => Text(s.departmentName)
    case SiteName => Text(s.siteName)
    case ChannelName => Text(s.channelName)
    case Frequency => Real(s.frequency)
    case Modulation => Text(s.modulation)
    case TgId => Text(s.tgId)
    case UnitId => Text(s.unitId)
    case ServiceType => Text(s.serviceType)
    case ToneA => Text(s.toneA)
    case ToneB => Text(s.toneB)
    case SearchRangeLower => Text(s.searchRangeLower)
    case SearchRangeUpper => Text(s.searchRangeUpper)
    case HitCount => Number(s.hitCount)
    case Rssi => Text(s.rssi)
    case LastRssiValue => Number(s.lastRssiValue)
    case SignalLocked => Flag(s.signalLocked)
    case LastLockChangeTime => Number(s.lastLockChangeTime)
    case Volume => Number(s.volume)
    case Squelch => Number(s.squelch)
    case Mute => Text(s.mute)
    case Attenuator => Text(s.attenuator)
    case AlertLed => Text(s.alertLed)
    case P25Status => Text(s.p25Status)
    case Hold => Text(s.hold)
    case Recording => Text(s.recording)
    case InfoLines => Lines(s.infoLines)
    case PopupText => Text(s.popupText)
    case IsInMenu => Flag(s.isInMenu)
    case MenuTitle => Text(s.menuTitle)
    case LastCommandSent => Text(s.lastCommandSent)
  }

  /** `t` agrees with `s` on every field outside `fs`. */
  predicate SameExcept(s: Status, t: Status, fs: set<Field>) {
    forall f :: f !in fs ==> Get(s, f) == Get(t, f)
  }

  /** Two steps that each keep all but their own fields keep every field outside `ws`. */
  lemma SameExceptChain(s: Status, t: Status, u: Status, fs: set<Field>, gs: set<Field>, ws: set<Field>)
    requires SameExcept(s, t, fs) && SameExcept(t, u, gs) && fs + gs <= ws
    ensures SameExcept(s, u, ws)
  {
    forall f | f !in ws
      ensures Get(s, f) == Get(u, f)
    {
      assert f !in fs && f !in gs;
    }
  }
}
