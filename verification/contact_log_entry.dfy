/**
 * `ContactLogEntry`: one signal-lock event, a snapshot of the identifying
 * fields of the status at the moment the signal locked.
 */
module ContactLogEntry {
  import opened ScannerStatus

  const Placeholder := "---"
  const NoSignal := "S0"

  datatype Entry = Entry(
    lockTime: Instant,
    frequency: real,
    modulation: string,
    mode: string,
    systemName: string,
    channelName: string,
    tgId: string,
    siteName: string,
    rssi: string)

  /** The fields of an entry made without `FromStatus`; `lockTime` is the clock's default value. */
  function Blank(lockTime: Instant): (e: Entry)
    ensures e.lockTime == lockTime && e.frequency == 0.0 && e.rssi == NoSignal
    ensures e.modulation == Placeholder && e.mode == Placeholder
    ensures e.systemName == Placeholder && e.channelName == Placeholder
    ensures e.tgId == Placeholder && e.siteName == Placeholder
  {
    Entry(lockTime, 0.0, Placeholder, Placeholder, Placeholder, Placeholder, Placeholder, Placeholder, NoSignal)
  }

  /**
   * `FromStatus`: the entry for a lock observed in `s`. The lock time is a
   * reading of the system clock, passed in as `utcNow`.
   */
  function FromStatus(s: Status, utcNow: Instant): (e: Entry)
    ensures e.lockTime == utcNow
  {
    Entry(utcNow, s.frequency, s.modulation, s.vScreen, s.systemName, s.channelName,
          s.tgId, s.siteName, s.rssi)
  }

  /** The fields an entry copies, each unchanged. */
  lemma FromStatusCopies(s: Status, utcNow: Instant)
    ensures FromStatus(s, utcNow).frequency == s.frequency
    ensures FromStatus(s, utcNow).modulation == s.modulation
    ensures FromStatus(s, utcNow).systemName == s.systemName
    ensures FromStatus(s, utcNow).channelName == s.channelName
    ensures FromStatus(s, utcNow).tgId == s.tgId
    ensures FromStatus(s, utcNow).siteName == s.siteName
    ensures FromStatus(s, utcNow).rssi == s.rssi
    ensures FromStatus(s, utcNow).mode == s.vScreen
  {
  }

  /**
   * The entry's mode is the view screen, not the status's own mode: two
   * statuses that differ only in `mode` give the same entry.
   */
  lemma ModeComesFromViewScreen(s: Status, mode: string, utcNow: Instant)
    ensures FromStatus(s.(mode := mode), utcNow) == FromStatus(s, utcNow)
  {
  }

  /**
   * The lock bookkeeping of the status does not reach the entry, so building
   * it before or after the status records the lock gives the same entry.
   */
  lemma EntryIgnoresLockState(s: Status, locked: bool, changed: Instant, utcNow: Instant)
    ensures FromStatus(s.(signalLocked := locked, lastLockChangeTime := changed), utcNow)
            == FromStatus(s, utcNow)
  {
  }

  /** Statuses that agree on the copied fields give the same entry. */
  lemma EntryDependsOnCopiedFields(s: Status, t: Status, utcNow: Instant)
    requires s.frequency == t.frequency && s.modulation == t.modulation && s.vScreen == t.vScreen
    requires s.systemName == t.systemName && s.channelName == t.channelName
    requires s.tgId == t.tgId && s.siteName == t.siteName && s.rssi == t.rssi
    ensures FromStatus(s, utcNow) == FromStatus(t, utcNow)
  {
  }
}
