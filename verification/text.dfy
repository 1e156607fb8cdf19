/**
 * String primitives of the .NET base library that the scanner driver relies
 * on: white-space classification, Trim, ordinal and case-insensitive
 * substring search, upper-casing and Split on one separator.
 */
module Text {
  import opened Wrappers

  /** `char.IsWhiteSpace`, which is also the class `\s` of .NET regular expressions. */
  predicate IsWhiteSpace(c: char) {
    || ('\t' <= c <= '\r')
    || c == ' '
    || c == '\U{85}'
    || c == '\U{A0}'
    || c == '\U{1680}'
    || ('\U{2000}' <= c <= '\U{200A}')
    || c == '\U{2028}'
    || c == '\U{2029}'
    || c == '\U{202F}'
    || c == '\U{205F}'
    || c == '\U{3000}'
  }

  /** `string.IsNullOrWhiteSpace` for a non-null string. */
  predicate IsBlank(s: string) {
    forall i :: 0 <= i < |s| ==> IsWhiteSpace(s[i])
  }

  /** Neither the first nor the last character is white space. */
  predicate IsTrimmed(s: string) {
    |s| == 0 || (!IsWhiteSpace(s[0]) && !IsWhiteSpace(s[|s| - 1]))
  }

  function TrimStart(s: string): (r: string)
    ensures |r| <= |s| && r == s[|s| - |r|..]
    ensures forall i :: 0 <= i < |s| - |r| ==> IsWhiteSpace(s[i])
    ensures |r| == 0 || !IsWhiteSpace(r[0])
  {
    if |s| > 0 && IsWhiteSpace(s[0]) then TrimStart(s[1..]) else s
  }

  function TrimEnd(s: string): (r: string)
    ensures |r| <= |s| && r == s[..|r|]
    ensures forall i :: |r| <= i < |s| ==> IsWhiteSpace(s[i])
    ensures |r| == 0 || !IsWhiteSpace(r[|r| - 1])
  {
    if |s| > 0 && IsWhiteSpace(s[|s| - 1]) then TrimEnd(s[..|s| - 1]) else s
  }

  /**
   * `string.Trim()`: the result is the infix of `s` left once every leading
   * and trailing white-space character is removed.
   */
  function Trim(s: string): (r: string)
    ensures IsTrimmed(r)
    ensures exists i :: BlankSurrounded(s, r, i)
    ensures |r| == 0 <==> IsBlank(s)
  {
    var t := TrimStart(s);
    var r := TrimEnd(t);
    InfixShape(s, t, r);
    r
  }

  /** `r` sits at index `i` of `s` with only white space around it. */
  predicate BlankSurrounded(s: string, r: string, i: int) {
    0 <= i <= |s| - |r| && r == s[i..i + |r|] && IsBlank(s[..i]) && IsBlank(s[i + |r|..])
  }

  /** The sequence facts behind Trim, stated without the recursive functions. */
  lemma InfixShape(s: string, t: string, r: string)
    requires |t| <= |s| && t == s[|s| - |t|..] && forall k :: 0 <= k < |s| - |t| ==> IsWhiteSpace(s[k])
    requires |r| <= |t| && r == t[..|r|] && forall k :: |r| <= k < |t| ==> IsWhiteSpace(t[k])
    requires IsTrimmed(r)
    ensures BlankSurrounded(s, r, |s| - |t|)
    ensures |r| == 0 <==> IsBlank(s)
  {
    var i := |s| - |t|;
    assert s[i + |r|..] == t[|r|..];
    if |r| > 0 {
      assert s[i] == r[0];
    } else {
      assert forall k :: 0 <= k < |s| ==> IsWhiteSpace(s[k]) by {
        forall k | 0 <= k < |s| ensures IsWhiteSpace(s[k]) {
          if k >= i { assert s[k] == t[k - i]; }
        }
      }
    }
  }

  /** Trimming leaves already-trimmed text alone. */
  lemma TrimOfTrimmed(s: string)
    requires IsTrimmed(s)
    ensures Trim(s) == s
  {
    var t := TrimStart(s);
    assert t == s by {
      if |s| > 0 { assert !IsWhiteSpace(s[0]); }
    }
    var r := TrimEnd(t);
    assert r == s by {
      if |s| > 0 { assert !IsWhiteSpace(s[|s| - 1]); }
    }
  }

  lemma TrimIdempotent(s: string)
    ensures Trim(Trim(s)) == Trim(s)
  {
    TrimOfTrimmed(Trim(s));
  }

  // ── Ordinal search ────────────────────────────────────────────────────

  predicate OccursAt(s: string, needle: string, i: int) {
    0 <= i && i + |needle| <= |s| && s[i..i + |needle|] == needle
  }

  /** `String.Contains(needle)` with ordinal comparison. */
  predicate Contains(s: string, needle: string) {
    exists i | 0 <= i <= |s| :: OccursAt(s, needle, i)
  }

  /** `String.IndexOf(needle)` with ordinal comparison: the leftmost occurrence. */
  function IndexOf(s: string, needle: string): (r: Option<nat>)
    ensures r.Some? ==> OccursAt(s, needle, r.value)
    ensures r.Some? ==> forall k :: 0 <= k < r.value ==> !OccursAt(s, needle, k)
    ensures r.None? <==> !Contains(s, needle)
  {
    IndexOfFrom(s, needle, 0)
  }

  function IndexOfFrom(s: string, needle: string, from: nat): (r: Option<nat>)
    requires from <= |s| + 1
    requires forall k :: 0 <= k < from ==> !OccursAt(s, needle, k)
    ensures r.Some? ==> from <= r.value && OccursAt(s, needle, r.value)
    ensures r.Some? ==> forall k :: 0 <= k < r.value ==> !OccursAt(s, needle, k)
    ensures r.None? <==> !Contains(s, needle)
    decreases |s| + 1 - from
  {
    if from + |needle| > |s| then
      assert forall k :: from <= k ==> !OccursAt(s, needle, k);
      None
    else if s[from..from + |needle|] == needle then
      assert OccursAt(s, needle, from);
      Some(from)
    else
      assert !OccursAt(s, needle, from);
      IndexOfFrom(s, needle, from + 1)
  }

  /** Index of the first occurrence of character `c`. */
  function IndexOfChar(s: string, c: char): (r: Option<nat>)
    ensures r.Some? ==> r.value < |s| && s[r.value] == c && c !in s[..r.value]
    ensures r.None? <==> c !in s
  {
    if |s| == 0 then None
    else if s[0] == c then Some(0)
    else match IndexOfChar(s[1..], c)
      case None => None
      case Some(k) =>
        assert s[..k + 1] == [s[0]] + s[1..][..k];
        Some(k + 1)
  }

  // ── Case handling (ASCII letters only) ───────────────────────────────

  function UpperChar(c: char): (r: char)
    ensures 'a' <= c <= 'z' ==> r as int == c as int - 32
    ensures !('a' <= c <= 'z') ==> r == c
    ensures IsWhiteSpace(r) <==> IsWhiteSpace(c)
  {
    if 'a' <= c <= 'z' then (c as int - 32) as char else c
  }

  /** Upper-cases every ASCII letter; used for `ToUpper` and for case-insensitive comparison. */
  function Upper(s: string): (r: string)
    ensures |r| == |s|
    ensures forall i :: 0 <= i < |s| ==> r[i] == UpperChar(s[i])
  {
    seq(|s|, i requires 0 <= i < |s| => UpperChar(s[i]))
  }

  lemma UpperIdempotent(s: string)
    ensures Upper(Upper(s)) == Upper(s)
  {
    forall i | 0 <= i < |s|
      ensures Upper(Upper(s))[i] == Upper(s)[i]
    {
    }
  }

  /** Case-insensitive `Contains`, as `StringComparison.OrdinalIgnoreCase` does for ASCII text. */
  predicate ContainsIgnoreCase(s: string, needle: string) {
    Contains(Upper(s), Upper(needle))
  }

  /** Case-insensitive `IndexOf`. */
  function IndexOfIgnoreCase(s: string, needle: string): (r: Option<nat>)
    ensures r.Some? ==> r.value + |needle| <= |s| && OccursAt(Upper(s), Upper(needle), r.value)
    ensures r.Some? ==> forall k :: 0 <= k < r.value ==> !OccursAt(Upper(s), Upper(needle), k)
    ensures r.None? <==> !ContainsIgnoreCase(s, needle)
  {
    IndexOf(Upper(s), Upper(needle))
  }

  /** The text begins with `prefix`, ignoring ASCII case. */
  predicate StartsWithIgnoreCase(s: string, prefix: string) {
    |prefix| <= |s| && Upper(s[..|prefix|]) == Upper(prefix)
  }

  lemma UpperSlice(s: string, i: nat, j: nat)
    requires i <= j <= |s|
    ensures Upper(s)[i..j] == Upper(s[i..j])
  {
    forall k | 0 <= k < j - i
      ensures Upper(s)[i..j][k] == Upper(s[i..j])[k]
    {
    }
  }

  lemma UpperAppend(a: string, b: string)
    ensures Upper(a + b) == Upper(a) + Upper(b)
  {
    forall k | 0 <= k < |a + b|
      ensures Upper(a + b)[k] == (Upper(a) + Upper(b))[k]
    {
    }
  }

  /**
   * When the needle's first character does not recur inside it, an
   * occurrence at `m` with none wholly before `m` is the leftmost one: no
   * earlier occurrence can straddle position `m`.
   */
  lemma LeftmostAtMarker(s: string, needle: string, m: nat)
    requires |needle| > 0 && needle[0] !in needle[1..]
    requires OccursAt(s, needle, m)
    requires !Contains(s[..m], needle)
    ensures IndexOf(s, needle) == Some(m)
  {
    forall k | 0 <= k && k + |needle| <= m
      ensures OccursAt(s, needle, k) ==> OccursAt(s[..m], needle, k)
    {
      OccursInPrefix(s, needle, m, k);
    }
    if IndexOf(s, needle).Some? {
      var i := IndexOf(s, needle).value;
      assert !(i < m);
      assert !(m < i);
    }
  }

  /**
   * The case-insensitive form of `LeftmostAtMarker`: a needle that starts
   * `s[m..]`, with none wholly before `m`, is first found at `m`.
   */
  lemma FirstOccurrenceAt(s: string, needle: string, m: nat)
    requires |needle| > 0 && Upper(needle)[0] !in Upper(needle)[1..]
    requires m <= |s| && StartsWithIgnoreCase(s[m..], needle)
    requires !ContainsIgnoreCase(s[..m], needle)
    ensures IndexOfIgnoreCase(s, needle) == Some(m)
  {
    UpperSlice(s, m, m + |needle|);
    assert s[m..][..|needle|] == s[m..m + |needle|];
    UpperSlice(s, 0, m);
    assert Upper(s)[..m] == Upper(s)[0..m];
    LeftmostAtMarker(Upper(s), Upper(needle), m);
  }

  /** Nothing before the first case-insensitive occurrence contains the needle. */
  lemma BeforeFirstOccurrence(s: string, needle: string, f: nat)
    requires |needle| > 0 && IndexOfIgnoreCase(s, needle) == Some(f)
    ensures !ContainsIgnoreCase(s[..f], needle)
  {
    UpperSlice(s, 0, f);
    assert Upper(s[..f]) == Upper(s)[..f];
    forall k | 0 <= k && k + |needle| <= f
      ensures OccursAt(Upper(s)[..f], Upper(needle), k) ==> OccursAt(Upper(s), Upper(needle), k)
    {
      OccursInPrefix(Upper(s), Upper(needle), f, k);
    }
  }

  /** An occurrence that ends by `m` is an occurrence in the first `m` characters. */
  lemma OccursInPrefix(s: string, needle: string, m: nat, k: nat)
    requires k + |needle| <= m <= |s|
    ensures OccursAt(s, needle, k) <==> OccursAt(s[..m], needle, k)
  {
    assert s[..m][k..k + |needle|] == s[k..k + |needle|];
  }

  /**
   * An occurrence in `a + b` that does not start inside `a` lies in `b`;
   * so when none starts in `a` and `b` has none, the whole has none.
   */
  lemma NoOccurrenceAfter(a: string, b: string, needle: string)
    requires forall k | 0 <= k < |a| :: !OccursAt(a + b, needle, k)
    requires !Contains(b, needle)
    ensures !Contains(a + b, needle)
  {
    forall k | |a| <= k <= |a + b|
      ensures OccursAt(a + b, needle, k) ==> OccursAt(b, needle, k - |a|)
    {
      if k + |needle| <= |a + b| {
        assert (a + b)[k..k + |needle|] == b[k - |a|..k - |a| + |needle|];
      }
    }
  }

  // ── Split ────────────────────────────────────────────────────────────

  /** The text before the first `sep`, the whole string when there is none: `s.Split(sep)[0]`. */
  function BeforeFirst(s: string, sep: char): (r: string)
    ensures sep !in r
    ensures |r| <= |s| && r == s[..|r|]
    ensures |r| < |s| ==> s[|r|] == sep
  {
    match IndexOfChar(s, sep)
    case None => s
    case Some(i) => s[..i]
  }

  /** `s.Split(sep)`: the maximal `sep`-free pieces, in order. */
  function Split(s: string, sep: char): (r: seq<string>)
    ensures |r| >= 1
    ensures forall k :: 0 <= k < |r| ==> sep !in r[k]
    ensures r[0] == BeforeFirst(s, sep)
    ensures Join(r, sep) == s
    decreases |s|
  {
    var head := BeforeFirst(s, sep);
    if |head| == |s| then [s]
    else
      var rest := Split(s[|head| + 1..], sep);
      var r := [head] + rest;
      assert r[1..] == rest;
      assert Join(r, sep) == head + [sep] + Join(rest, sep);
      assert s == head + [sep] + s[|head| + 1..];
      r
  }

  function Join(parts: seq<string>, sep: char): string {
    if |parts| == 0 then []
    else if |parts| == 1 then parts[0]
    else parts[0] + [sep] + Join(parts[1..], sep)
  }

  /** The joined text holds a separator exactly when there are several pieces. */
  lemma JoinHasSeparator(parts: seq<string>, sep: char)
    requires |parts| >= 1
    requires forall k :: 0 <= k < |parts| ==> sep !in parts[k]
    ensures (sep in Join(parts, sep)) == (|parts| > 1)
  {
    if |parts| > 1 {
      assert Join(parts, sep)[|parts[0]|] == sep;
    }
  }

  /** The first piece of a join of `sep`-free pieces is the text before its first separator. */
  lemma JoinFirstPiece(parts: seq<string>, sep: char)
    requires |parts| >= 1
    requires forall k :: 0 <= k < |parts| ==> sep !in parts[k]
    ensures BeforeFirst(Join(parts, sep), sep) == parts[0]
  {
    var s, x := Join(parts, sep), parts[0];
    var r := BeforeFirst(s, sep);
    if |parts| == 1 {
      assert sep !in s;
    } else {
      assert s == x + [sep] + Join(parts[1..], sep);
      assert |r| <= |x| by {
        assert s[|x|] == sep;
        assert s[..|r|] == r;
      }
      assert s[|r|] == sep;
      assert forall i | 0 <= i < |x| :: s[i] == x[i];
      assert |r| == |x|;
    }
  }

  /**
   * Joining is injective on non-empty lists of `sep`-free pieces: the
   * separator positions fix where every piece starts and ends.
   */
  lemma {:induction false} JoinInjective(a: seq<string>, b: seq<string>, sep: char)
    requires |a| >= 1 && |b| >= 1
    requires forall k :: 0 <= k < |a| ==> sep !in a[k]
    requires forall k :: 0 <= k < |b| ==> sep !in b[k]
    requires Join(a, sep) == Join(b, sep)
    ensures a == b
    decreases |a|
  {
    var s := Join(a, sep);
    JoinFirstPiece(a, sep);
    JoinFirstPiece(b, sep);
    JoinHasSeparator(a, sep);
    JoinHasSeparator(b, sep);
    if |a| > 1 {
      var x := a[0];
      assert s == x + [sep] + Join(a[1..], sep);
      assert s == x + [sep] + Join(b[1..], sep);
      assert Join(a[1..], sep) == s[|x| + 1..] == Join(b[1..], sep);
      JoinInjective(a[1..], b[1..], sep);
      assert a == [x] + a[1..];
      assert b == [x] + b[1..];
    }
  }

  /** `Split` undoes `Join` on non-empty lists of `sep`-free pieces. */
  lemma SplitOfJoin(parts: seq<string>, sep: char)
    requires |parts| >= 1
    requires forall k :: 0 <= k < |parts| ==> sep !in parts[k]
    ensures Split(Join(parts, sep), sep) == parts
  {
    JoinInjective(Split(Join(parts, sep), sep), parts, sep);
  }
}
