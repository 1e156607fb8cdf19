/**
 * `ContactTracker`: an edge-triggered lock detector over the RSSI value of
 * the status. A rising edge marks the status locked and appends a contact
 * entry to a capped log; a falling edge marks it unlocked; otherwise
 * nothing changes. The tracker's clock reading and the system clock read
 * by `FromStatus` are arguments.
 */
module ContactTracker {
  import opened ScannerStatus
  import opened ContactLogEntry
  import CappedQueue

  const DefaultMaxContactLogSize: nat := 30

  datatype Tracker = Tracker(log: seq<Entry>, maxContactLogSize: nat)

  /** The tracker and the status after one update. */
  datatype Update = Update(tracker: Tracker, status: Status)

  /** An RSSI above zero counts as a signal. */
  predicate SignalPresent(s: Status) {
    s.lastRssiValue > 0
  }

  predicate RisingEdge(s: Status) {
    SignalPresent(s) && !s.signalLocked
  }

  predicate FallingEdge(s: Status) {
    !SignalPresent(s) && s.signalLocked
  }

  /** `Count`. */
  function Count(t: Tracker): nat {
    |t.log|
  }

  /**
   * `ProcessSignalUpdate`. `utcNow` is the tracker's clock, read on either
   * edge; `entryTime` is the system clock read by `FromStatus`.
   */
  function ProcessSignalUpdate(t: Tracker, s: Status, utcNow: Instant, entryTime: Instant): (u: Update)
    ensures u.status.signalLocked == SignalPresent(s)
    ensures RisingEdge(s) || FallingEdge(s) ==>
              u.status == s.(signalLocked := SignalPresent(s), lastLockChangeTime := utcNow)
    ensures !RisingEdge(s) && !FallingEdge(s) ==> u.status == s
    ensures RisingEdge(s) ==>
              u.tracker.log == CappedQueue.Newest(t.log + [FromStatus(s, entryTime)], t.maxContactLogSize)
    ensures !RisingEdge(s) ==> u.tracker == t
    ensures u.tracker.maxContactLogSize == t.maxContactLogSize
  {
    if RisingEdge(s) then
      var locked := s.(signalLocked := true, lastLockChangeTime := utcNow);
      EntryIgnoresLockState(s, true, utcNow, entryTime);
      Update(EnqueueCapped(t, FromStatus(locked, entryTime)), locked)
    else if FallingEdge(s) then
      Update(t, s.(signalLocked := false, lastLockChangeTime := utcNow))
    else
      Update(t, s)
  }

  /** `EnqueueCapped`: the newest entries, oldest evicted first. */
  function EnqueueCapped(t: Tracker, e: Entry): (r: Tracker)
    ensures r.maxContactLogSize == t.maxContactLogSize
    ensures Count(r) <= t.maxContactLogSize
    ensures r.log == CappedQueue.Newest(t.log + [e], t.maxContactLogSize)
    ensures t.maxContactLogSize > 0 ==> r.log[Count(r) - 1] == e
  {
    t.(log := CappedQueue.Enqueue(t.log, e, t.maxContactLogSize))
  }

  /** A second update with nothing new changes nothing: the detector is settled after one. */
  lemma UpdateSettles(t: Tracker, s: Status, utcNow: Instant, entryTime: Instant,
                      later: Instant, laterEntry: Instant)
    ensures var u := ProcessSignalUpdate(t, s, utcNow, entryTime);
            ProcessSignalUpdate(u.tracker, u.status, later, laterEntry) == u
  {
  }

  // ── Runs of RSSI readings ─────────────────────────────────────────────

  /** One poll: the decoder stores `rssi`, then the tracker runs. */
  datatype Reading = Reading(rssi: int, utcNow: Instant, entryTime: Instant)

  function Observe(u: Update, r: Reading): (v: Update)
    ensures v.status.lastRssiValue == r.rssi
    ensures v.status.signalLocked == (r.rssi > 0)
  {
    ProcessSignalUpdate(u.tracker, u.status.(lastRssiValue := r.rssi), r.utcNow, r.entryTime)
  }

  function ObserveAll(u: Update, readings: seq<Reading>): Update
    decreases |readings|
  {
    if |readings| == 0 then u else ObserveAll(Observe(u, readings[0]), readings[1..])
  }

  /** How many readings start a lock, from lock state `locked`. */
  function RisingEdges(locked: bool, readings: seq<Reading>): nat
    decreases |readings|
  {
    if |readings| == 0 then 0
    else
      var present := readings[0].rssi > 0;
      (if present && !locked then 1 else 0) + RisingEdges(present, readings[1..])
  }

  /**
   * Every rising edge adds exactly one contact and nothing else adds one:
   * while the log stays within its cap, it grows by the number of rising
   * edges.
   */
  lemma {:induction false} EntriesCountRisingEdges(u: Update, readings: seq<Reading>)
    requires Count(u.tracker) + RisingEdges(u.status.signalLocked, readings) <= u.tracker.maxContactLogSize
    ensures Count(ObserveAll(u, readings).tracker)
            == Count(u.tracker) + RisingEdges(u.status.signalLocked, readings)
    ensures ObserveAll(u, readings).tracker.maxContactLogSize == u.tracker.maxContactLogSize
    decreases |readings|
  {
    if |readings| > 0 {
      var v := Observe(u, readings[0]);
      EntriesCountRisingEdges(v, readings[1..]);
    }
  }

  /** The log never exceeds its cap, whatever the readings. */
  lemma {:induction false} LogWithinCap(u: Update, readings: seq<Reading>)
    requires Count(u.tracker) <= u.tracker.maxContactLogSize
    ensures Count(ObserveAll(u, readings).tracker) <= u.tracker.maxContactLogSize
    ensures ObserveAll(u, readings).tracker.maxContactLogSize == u.tracker.maxContactLogSize
    decreases |readings|
  {
    if |readings| > 0 {
      LogWithinCap(Observe(u, readings[0]), readings[1..]);
    }
  }

  /** After a run, the lock state follows the last reading. */
  lemma {:induction false} LockFollowsLastReading(u: Update, readings: seq<Reading>)
    requires |readings| > 0
    ensures ObserveAll(u, readings).status.signalLocked == (readings[|readings| - 1].rssi > 0)
    decreases |readings|
  {
    if |readings| > 1 {
      LockFollowsLastReading(Observe(u, readings[0]), readings[1..]);
    }
  }

  /** `k` lock/unlock cycles: a reading with a signal, then one without, `k` times. */
  function Cycles(k: nat, on: Reading, off: Reading): (r: seq<Reading>)
    ensures |r| == 2 * k
  {
    if k == 0 then [] else [on, off] + Cycles(k - 1, on, off)
  }

  /** `k` cycles from an unlocked status start exactly `k` locks. */
  lemma {:induction false} CyclesLockKTimes(k: nat, on: Reading, off: Reading)
    requires on.rssi > 0 && off.rssi <= 0
    ensures RisingEdges(false, Cycles(k, on, off)) == k
  {
    if k > 0 {
      var c := Cycles(k, on, off);
      assert c[1..][1..] == Cycles(k - 1, on, off);
      CyclesLockKTimes(k - 1, on, off);
    }
  }

  /** Hence `k` cycles on an unlocked status with room in the log add exactly `k` contacts. */
  lemma CyclesAddKEntries(u: Update, k: nat, on: Reading, off: Reading)
    requires !u.status.signalLocked && on.rssi > 0 && off.rssi <= 0
    requires Count(u.tracker) + k <= u.tracker.maxContactLogSize
    ensures Count(ObserveAll(u, Cycles(k, on, off)).tracker) == Count(u.tracker) + k
  {
    CyclesLockKTimes(k, on, off);
    EntriesCountRisingEdges(u, Cycles(k, on, off));
  }
}
