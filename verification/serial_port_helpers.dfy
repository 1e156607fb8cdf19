/**
 * `SerialPortHelpers`: which serial ports are worth probing, in which
 * order, and which one holds the scanner. The operating system's port list
 * is an argument, and so is the outcome of probing each port with `MDL`.
 */
module SerialPortHelpers {
  import opened Wrappers
  import opened Text

  // ── Sequence filtering ────────────────────────────────────────────────

  /** The elements of `s` that satisfy `f`, in their order in `s` (LINQ `Where`). */
  function Filter<T>(s: seq<T>, f: T -> bool): (r: seq<T>)
    ensures |r| <= |s|
    ensures forall k :: 0 <= k < |r| ==> f(r[k])
    decreases |s|
  {
    if |s| == 0 then [] else (if f(s[0]) then [s[0]] else []) + Filter(s[1..], f)
  }

  lemma {:induction false} FilterAppend<T>(a: seq<T>, b: seq<T>, f: T -> bool)
    ensures Filter(a + b, f) == Filter(a, f) + Filter(b, f)
    decreases |a|
  {
    if |a| == 0 {
      assert a + b == b;
    } else {
      assert (a + b)[1..] == a[1..] + b;
      FilterAppend(a[1..], b, f);
    }
  }

  /** Keeping what satisfies `f` twice is keeping it once. */
  lemma {:induction false} FilterTwice<T>(s: seq<T>, f: T -> bool)
    ensures Filter(Filter(s, f), f) == Filter(s, f)
    decreases |s|
  {
    if |s| > 0 {
      FilterTwice(s[1..], f);
      FilterAppend(if f(s[0]) then [s[0]] else [], Filter(s[1..], f), f);
      if f(s[0]) {
        assert Filter([s[0]], f) == [s[0]] by { assert [s[0]][1..] == []; }
      }
    }
  }

  /** Nothing of a sequence whose elements all fail `f` survives `f`. */
  lemma {:induction false} FilterNone<T>(s: seq<T>, f: T -> bool)
    requires forall k :: 0 <= k < |s| ==> !f(s[k])
    ensures Filter(s, f) == []
    decreases |s|
  {
    if |s| > 0 {
      FilterNone(s[1..], f);
    }
  }

  // ── Port ordering ─────────────────────────────────────────────────────

  /** Debug and Bluetooth ports are never probed. */
  predicate Excluded(port: string) {
    ContainsIgnoreCase(port, "debug") || ContainsIgnoreCase(port, "Bluetooth")
  }

  /** A macOS call-out device. */
  predicate IsCallOut(port: string) {
    ContainsIgnoreCase(port, "/dev/cu.")
  }

  /** A USB serial adapter or modem. */
  predicate IsUsb(port: string) {
    ContainsIgnoreCase(port, "usbserial") || ContainsIgnoreCase(port, "usbmodem")
  }

  /** The sort key: call-out ports first, then USB ports first within each group. */
  function Rank(port: string): (r: nat)
    ensures r < 4
  {
    (if IsCallOut(port) then 0 else 2) + (if IsUsb(port) then 0 else 1)
  }

  lemma RankOrdersGroups(a: string, b: string)
    requires Rank(a) <= Rank(b)
    ensures IsCallOut(b) ==> IsCallOut(a)
    ensures IsCallOut(a) == IsCallOut(b) && IsUsb(b) ==> IsUsb(a)
  {
  }

  function Kept(ports: seq<string>): seq<string> {
    Filter(ports, (p: string) => !Excluded(p))
  }

  // ── Stable sorting on a small key ─────────────────────────────────────

  /** The number of sort keys: a rank is 0 to 3. */
  const Ranks: nat := 4

  /** The elements of key `rank`, in input order. */
  function WithKey<T>(s: seq<T>, key: T -> nat, rank: nat): seq<T> {
    Filter(s, (x: T) => key(x) == rank)
  }

  /**
   * The elements of key `rank` and above, key by key, each key in input
   * order: LINQ's stable `OrderBy` on a key with `Ranks` values.
   */
  function FromKey<T>(s: seq<T>, key: T -> nat, rank: nat): seq<T>
    decreases Ranks - rank
  {
    if rank >= Ranks then [] else WithKey(s, key, rank) + FromKey(s, key, rank + 1)
  }

  /** The output is ordered by key, from `rank` up. */
  lemma {:induction false} FromKeySorted<T>(s: seq<T>, key: T -> nat, rank: nat)
    ensures forall k :: 0 <= k < |FromKey(s, key, rank)| ==> rank <= key(FromKey(s, key, rank)[k])
    ensures var r := FromKey(s, key, rank);
            forall i, j :: 0 <= i < j < |r| ==> key(r[i]) <= key(r[j])
    decreases Ranks - rank
  {
    if rank < Ranks {
      FromKeySorted(s, key, rank + 1);
      var here := WithKey(s, key, rank);
      assert FromKey(s, key, rank) == here + FromKey(s, key, rank + 1);
      assert forall k :: 0 <= k < |here| ==> key(here[k]) == rank;
    } else {
      assert FromKey(s, key, rank) == [];
    }
  }

  lemma {:induction false} FromKeyOfNothing<T>(key: T -> nat, rank: nat)
    ensures FromKey([], key, rank) == []
    decreases Ranks - rank
  {
    if rank < Ranks {
      FromKeyOfNothing(key, rank + 1);
    } else {
      assert FromKey([], key, rank) == [];
    }
  }

  lemma WithKeyCons<T>(x: T, t: seq<T>, key: T -> nat, rank: nat)
    ensures WithKey([x] + t, key, rank) == (if key(x) == rank then [x] else []) + WithKey(t, key, rank)
  {
    assert ([x] + t)[1..] == t;
  }

  /** `x` once when `present`, otherwise nothing. */
  function Once<T>(x: T, present: bool): multiset<T> {
    if present then multiset{x} else multiset{}
  }

  /** Adding an element in front adds it to the output exactly when its key is high enough. */
  lemma {:induction false} FromKeyCons<T>(x: T, t: seq<T>, key: T -> nat, rank: nat)
    ensures multiset(FromKey([x] + t, key, rank))
            == multiset(FromKey(t, key, rank)) + Once(x, rank <= key(x) < Ranks)
    decreases Ranks - rank
  {
    if rank < Ranks {
      FromKeyCons(x, t, key, rank + 1);
      FromKeyConsStep(x, t, key, rank);
    } else {
      assert FromKey([x] + t, key, rank) == [] == FromKey(t, key, rank);
      assert Once(x, rank <= key(x) < Ranks) == multiset{};
    }
  }

  lemma FromKeyConsStep<T>(x: T, t: seq<T>, key: T -> nat, rank: nat)
    requires rank < Ranks
    requires multiset(FromKey([x] + t, key, rank + 1))
             == multiset(FromKey(t, key, rank + 1)) + Once(x, rank + 1 <= key(x) < Ranks)
    ensures multiset(FromKey([x] + t, key, rank))
            == multiset(FromKey(t, key, rank)) + Once(x, rank <= key(x) < Ranks)
  {
    var s := [x] + t;
    WithKeyCons(x, t, key, rank);
    MultisetOfSplit(WithKey(s, key, rank), FromKey(s, key, rank + 1),
                    WithKey(t, key, rank), FromKey(t, key, rank + 1),
                    Once(x, key(x) == rank), Once(x, rank + 1 <= key(x) < Ranks));
  }

  lemma MultisetOfSplit<T>(h1: seq<T>, r1: seq<T>, h0: seq<T>, r0: seq<T>, mine: multiset<T>, above: multiset<T>)
    requires multiset(h1) == mine + multiset(h0)
    requires multiset(r1) == multiset(r0) + above
    ensures multiset(h1 + r1) == multiset(h0 + r0) + (mine + above)
  {
  }

  /** With every key below `Ranks`, the output holds every element as often as the input. */
  lemma {:induction false} FromKeyPermutes<T>(s: seq<T>, key: T -> nat)
    requires forall k :: 0 <= k < |s| ==> key(s[k]) < Ranks
    ensures multiset(FromKey(s, key, 0)) == multiset(s)
    decreases |s|
  {
    if |s| == 0 {
      FromKeyOfNothing(key, 0);
    } else {
      var x, t := s[0], s[1..];
      assert s == [x] + t;
      FromKeyCons(x, t, key, 0);
      FromKeyPermutes(t, key);
    }
  }

  /** Within one key the output keeps the input order. */
  lemma {:induction false} FromKeyIsStable<T>(s: seq<T>, key: T -> nat, rank: nat, q: nat)
    requires q < Ranks
    ensures WithKey(FromKey(s, key, rank), key, q) == if rank <= q then WithKey(s, key, q) else []
    decreases Ranks - rank
  {
    if rank < Ranks {
      var here := WithKey(s, key, rank);
      var rest := FromKey(s, key, rank + 1);
      FilterAppend(here, rest, (x: T) => key(x) == q);
      FromKeyIsStable(s, key, rank + 1, q);
      if rank == q {
        FilterTwice(s, (x: T) => key(x) == q);
      } else {
        FilterNone(here, (x: T) => key(x) == q);
      }
    } else {
      assert FromKey(s, key, rank) == [];
    }
  }

  // ── Port ordering ─────────────────────────────────────────────────────

  /** `GetFilteredPorts`: the ports that are not excluded, stably sorted by rank. */
  function GetFilteredPorts(ports: seq<string>): (r: seq<string>)
    ensures multiset(r) == multiset(Kept(ports))
    ensures forall k :: 0 <= k < |r| ==> !Excluded(r[k])
    ensures forall i, j :: 0 <= i < j < |r| ==> Rank(r[i]) <= Rank(r[j])
  {
    var kept := Kept(ports);
    var r := FromKey(kept, Rank, 0);
    FromKeyPermutes(kept, Rank);
    FromKeySorted(kept, Rank, 0);
    assert forall k :: 0 <= k < |r| ==> !Excluded(r[k]) by {
      forall k | 0 <= k < |r|
        ensures !Excluded(r[k])
      {
        assert r[k] in multiset(kept);
      }
    }
    r
  }

  /**
   * Ties keep their input order: the output's ports of any one rank are
   * exactly the kept ports of that rank, in input order.
   */
  lemma FilteredPortsAreStable(ports: seq<string>, q: nat)
    requires q < Ranks
    ensures WithKey(GetFilteredPorts(ports), Rank, q) == WithKey(Kept(ports), Rank, q)
  {
    FromKeyIsStable(Kept(ports), Rank, 0, q);
  }

  /** Every call-out port comes before every other port. */
  lemma CallOutPortsFirst(ports: seq<string>, i: nat, j: nat)
    requires i < j < |GetFilteredPorts(ports)|
    requires IsCallOut(GetFilteredPorts(ports)[j])
    ensures IsCallOut(GetFilteredPorts(ports)[i])
  {
    var r := GetFilteredPorts(ports);
    RankOrdersGroups(r[i], r[j]);
  }

  /** Within the call-out group, and within the rest, USB ports come first. */
  lemma UsbPortsFirstInGroup(ports: seq<string>, i: nat, j: nat)
    requires i < j < |GetFilteredPorts(ports)|
    requires IsCallOut(GetFilteredPorts(ports)[i]) == IsCallOut(GetFilteredPorts(ports)[j])
    requires IsUsb(GetFilteredPorts(ports)[j])
    ensures IsUsb(GetFilteredPorts(ports)[i])
  {
    var r := GetFilteredPorts(ports);
    RankOrdersGroups(r[i], r[j]);
  }

  // ── Detection ─────────────────────────────────────────────────────────

  /** The outcome of probing one port: its reply to `MDL`, or an error opening or reading it. */
  datatype Probe = Replied(text: string) | Failed

  /** A reply that names the scanner. */
  predicate Accepts(p: Probe) {
    p.Replied? && (ContainsIgnoreCase(p.text, "SDS200") || ContainsIgnoreCase(p.text, "UNIDEN"))
  }

  /** The probing loop: the first port whose reply names the scanner. */
  function FirstAccepted(ports: seq<string>, probe: string -> Probe): (r: Option<string>)
    ensures r.None? <==> forall k :: 0 <= k < |ports| ==> !Accepts(probe(ports[k]))
    ensures r.Some? ==> exists i :: 0 <= i < |ports| && ports[i] == r.value && Accepts(probe(ports[i]))
                          && forall k :: 0 <= k < i ==> !Accepts(probe(ports[k]))
    decreases |ports|
  {
    if |ports| == 0 then None
    else if Accepts(probe(ports[0])) then Some(ports[0])
    else
      var r := FirstAccepted(ports[1..], probe);
      assert r.Some? ==> exists i :: 1 <= i < |ports| && ports[i] == r.value && Accepts(probe(ports[i]))
                          && forall k :: 0 <= k < i ==> !Accepts(probe(ports[k])) by {
        if r.Some? {
          var i :| 0 <= i < |ports[1..]| && ports[1..][i] == r.value && Accepts(probe(ports[1..][i]))
                   && forall k :: 0 <= k < i ==> !Accepts(probe(ports[1..][k]));
          assert ports[i + 1] == r.value;
          forall k | 0 <= k < i + 1
            ensures !Accepts(probe(ports[k]))
          {
            if k > 0 {
              assert ports[k] == ports[1..][k - 1];
            }
          }
        }
      }
      r
  }

  /**
   * `DetectScannerPortAsync`: probes the filtered ports in order and returns
   * the first that answers as the scanner; none when there are no ports or
   * no port answers.
   */
  function DetectScannerPort(ports: seq<string>, probe: string -> Probe): (r: Option<string>)
    ensures r.Some? ==> !Excluded(r.value) && Accepts(probe(r.value))
    ensures r.None? <==> forall k :: 0 <= k < |GetFilteredPorts(ports)| ==> !Accepts(probe(GetFilteredPorts(ports)[k]))
    ensures |Kept(ports)| == 0 ==> r.None?
  {
    var filtered := GetFilteredPorts(ports);
    assert |Kept(ports)| == 0 ==> |filtered| == 0 by {
      assert |multiset(filtered)| == |filtered|;
    }
    FirstAccepted(filtered, probe)
  }
}
