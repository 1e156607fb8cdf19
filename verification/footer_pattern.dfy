/**
 * The footer that closes each datagram of a multi-packet reply,
 * `<Footer No="n" EOT="0|1"/>`, matched the way the receiver's
 * case-insensitive regular expression matches it: at least one blank
 * after the tag name and between the attributes, any number before `/>`,
 * one or more decimal digits for the packet number.
 *
 * Datagrams are decoded as ASCII, so only ASCII text reaches the matcher;
 * on ASCII text `\d` is `0`–`9` and `\s` is the white space of `Text`.
 */
module FooterPattern {
  import opened Wrappers
  import opened Text

  datatype Footer = Footer(number: nat, endOfTransmission: bool)

  predicate IsDigit(c: char) {
    '0' <= c <= '9'
  }

  function DigitValue(c: char): (d: nat)
    requires IsDigit(c)
    ensures d < 10
  {
    c as int - '0' as int
  }

  /** The value of a run of decimal digits, as `int.Parse` reads it (leading zeros allowed). */
  function DecimalValue(digits: string): (n: nat)
    requires forall i :: 0 <= i < |digits| ==> IsDigit(digits[i])
    decreases |digits|
  {
    if |digits| == 0 then 0
    else DecimalValue(digits[..|digits| - 1]) * 10 + DigitValue(digits[|digits| - 1])
  }

  /** The shortest decimal text of `n`. */
  function DecimalText(n: nat): (r: string)
    ensures |r| > 0
    ensures forall i :: 0 <= i < |r| ==> IsDigit(r[i])
  {
    if n < 10 then [('0' as int + n) as char]
    else DecimalText(n / 10) + [('0' as int + n % 10) as char]
  }

  /** Decimal text reads back as the number it was written from. */
  lemma {:induction false} DecimalRoundTrip(n: nat)
    ensures DecimalValue(DecimalText(n)) == n
  {
    var r := DecimalText(n);
    if n >= 10 {
      DecimalRoundTrip(n / 10);
      assert r[..|r| - 1] == DecimalText(n / 10);
    }
  }

  /** The longest run of digits at the start of `s`. */
  function LeadingDigits(s: string): (r: string)
    ensures |r| <= |s| && r == s[..|r|]
    ensures forall i :: 0 <= i < |r| ==> IsDigit(r[i])
    ensures |r| < |s| ==> !IsDigit(s[|r|])
  {
    if |s| > 0 && IsDigit(s[0]) then [s[0]] + LeadingDigits(s[1..]) else []
  }

  lemma {:induction false} LeadingDigitsOf(digits: string, rest: string)
    requires forall i :: 0 <= i < |digits| ==> IsDigit(digits[i])
    requires |rest| == 0 || !IsDigit(rest[0])
    ensures LeadingDigits(digits + rest) == digits
  {
    if |digits| > 0 {
      assert (digits + rest)[1..] == digits[1..] + rest;
      LeadingDigitsOf(digits[1..], rest);
    }
  }

  /** One element of the footer pattern. */
  datatype Token =
    | Literal(text: string)   // the text itself, ignoring ASCII case
    | Blanks(atLeastOne: bool) // `\s+` or `\s*`
    | Number                  // `\d+`, captured as its value
    | Flag                    // `[01]`, captured as 0 or 1

  /** `<Footer\s+No="(\d+)"\s+EOT="([01])"\s*\/>` as a token list. */
  function FooterTokens(): (t: seq<Token>)
    ensures IsFooterPattern(t)
  {
    [ Literal("<Footer"), Blanks(true), Literal("No=\""), Number, Literal("\""),
      Blanks(true), Literal("EOT=\""), Flag, Literal("\""), Blanks(false), Literal("/>") ]
  }

  /** The footer pattern, element by element. */
  predicate IsFooterPattern(t: seq<Token>) {
    && |t| == 11
    && t[0] == Literal("<Footer") && t[1] == Blanks(true) && t[2] == Literal("No=\"") && t[3] == Number
    && t[4] == Literal("\"") && t[5] == Blanks(true) && t[6] == Literal("EOT=\"") && t[7] == Flag
    && t[8] == Literal("\"") && t[9] == Blanks(false) && t[10] == Literal("/>")
  }

  /**
   * Matches `tokens` at the start of `s`, appending captures to `caps`.
   * Every token is deterministic (a blank or digit run is followed by a
   * token that cannot start with a blank or digit), so greedy matching is
   * the regular expression's backtracking match.
   */
  function MatchTokens(tokens: seq<Token>, s: string, caps: seq<nat>): (r: Option<seq<nat>>)
    ensures r.Some? && |tokens| > 0 && tokens[0].Literal? ==> StartsWithIgnoreCase(s, tokens[0].text)
    decreases |tokens|
  {
    if |tokens| == 0 then Some(caps)
    else match tokens[0]
      case Literal(text) =>
        if StartsWithIgnoreCase(s, text) then MatchTokens(tokens[1..], s[|text|..], caps) else None
      case Blanks(atLeastOne) =>
        var rest := TrimStart(s);
        if atLeastOne && |rest| == |s| then None else MatchTokens(tokens[1..], rest, caps)
      case Number =>
        var digits := LeadingDigits(s);
        if |digits| == 0 then None else MatchTokens(tokens[1..], s[|digits|..], caps + [DecimalValue(digits)])
      case Flag =>
        if |s| > 0 && (s[0] == '0' || s[0] == '1') then MatchTokens(tokens[1..], s[1..], caps + [DigitValue(s[0])]) else None
  }

  /** The footer pattern matched at the very start of `s`, and what it captured. */
  function FooterPrefix(s: string): (r: Option<Footer>)
    ensures r.Some? ==> StartsWithIgnoreCase(s, "<Footer")
  {
    match MatchTokens(FooterTokens(), s, [])
    case Some(caps) => if |caps| == 2 then Some(Footer(caps[0], caps[1] == 1)) else None
    case None => None
  }

  /** The leftmost footer in `s`, as `Regex.Match` finds it. */
  function FindFooter(s: string): (r: Option<Footer>)
    ensures r.Some? ==> exists i | 0 <= i <= |s| :: FooterPrefix(s[i..]) == r
    ensures r.Some? ==>
              exists i | 0 <= i <= |s| :: FooterPrefix(s[i..]) == r && forall j | 0 <= j < i :: FooterPrefix(s[j..]).None?
    ensures r.None? <==> forall i | 0 <= i <= |s| :: FooterPrefix(s[i..]).None?
  {
    FirstMatch(FooterPrefix, s, 0)
  }

  /** The first position from `from` on where `matcher` succeeds, and its result. */
  function FirstMatch<T>(matcher: string -> Option<T>, s: string, from: nat): (r: Option<T>)
    requires from <= |s| + 1
    requires forall i | 0 <= i < from && i <= |s| :: matcher(s[i..]).None?
    ensures r.Some? ==> exists i | from <= i <= |s| :: matcher(s[i..]) == r
    ensures r.Some? ==>
              exists i | from <= i <= |s| :: matcher(s[i..]) == r && forall j | 0 <= j < i :: matcher(s[j..]).None?
    ensures r.None? <==> forall i | 0 <= i <= |s| :: matcher(s[i..]).None?
    decreases |s| + 1 - from
  {
    if from > |s| then None
    else match matcher(s[from..])
      case Some(x) => Some(x)
      case None => FirstMatch(matcher, s, from + 1)
  }

  /** The first match is found at the first position where the matcher succeeds. */
  lemma FirstMatchAt<T>(matcher: string -> Option<T>, s: string, m: nat)
    requires m <= |s|
    requires forall i | 0 <= i < m :: matcher(s[i..]).None?
    requires matcher(s[m..]).Some?
    ensures FirstMatch(matcher, s, 0) == matcher(s[m..])
  {
    var k := 0;
    while k < m
      invariant 0 <= k <= m
      invariant FirstMatch(matcher, s, k) == FirstMatch(matcher, s, 0)
    {
      k := k + 1;
    }
  }

  /** A tag-name match at `i` is a case-insensitive occurrence of `<Footer`. */
  lemma TagAt(s: string, i: nat)
    requires i <= |s| && StartsWithIgnoreCase(s[i..], "<Footer")
    ensures OccursAt(Upper(s), Upper("<Footer"), i)
  {
    assert s[i..][..7] == s[i..i + 7];
    UpperSlice(s, i, i + 7);
  }

  /** A footer text placed after `h` is the footer found, when no earlier `<Footer` precedes it. */
  lemma FooterAfter(h: string, n: nat, eot: bool)
    requires IndexOfIgnoreCase(h + FooterText(n, eot), "<Footer") == Some(|h|)
    ensures FindFooter(h + FooterText(n, eot)) == Some(Footer(n, eot))
  {
    var s := h + FooterText(n, eot);
    assert s[|h|..] == FooterText(n, eot);
    FooterRoundTrip(n, eot);
    FooterAtFirstTag(s, |h|);
  }

  /** A footer text opens with the tag the receiver looks for. */
  lemma FooterTextOpensWithTag(n: nat, eot: bool)
    ensures StartsWithIgnoreCase(FooterText(n, eot), "<Footer")
  {
    FooterRoundTrip(n, eot);
  }

  /** When the first case-insensitive `<Footer` starts a footer, that footer is the one found. */
  lemma FooterAtFirstTag(s: string, m: nat)
    requires IndexOfIgnoreCase(s, "<Footer") == Some(m)
    requires FooterPrefix(s[m..]).Some?
    ensures FindFooter(s) == FooterPrefix(s[m..])
  {
    forall i | 0 <= i < m
      ensures FooterPrefix(s[i..]).None?
    {
      if FooterPrefix(s[i..]).Some? {
        TagAt(s, i);
      }
    }
    FirstMatchAt(FooterPrefix, s, m);
  }

  /** Any footer found lies after a case-insensitive `<Footer`. */
  lemma FooterImpliesTag(s: string)
    requires FindFooter(s).Some?
    ensures ContainsIgnoreCase(s, "<Footer")
  {
    var i :| 0 <= i <= |s| && FooterPrefix(s[i..]) == FindFooter(s);
    TagAt(s, i);
  }

  /** The footer a scanner writes for packet `n`. */
  function FooterText(n: nat, endOfTransmission: bool): string {
    "<Footer No=\"" + DecimalText(n) + AttributesText(if endOfTransmission then '1' else '0')
  }

  lemma LiteralStep(tokens: seq<Token>, k: nat, text: string, x: string, caps: seq<nat>)
    requires k < |tokens| && tokens[k] == Literal(text)
    ensures MatchTokens(tokens[k..], text + x, caps) == MatchTokens(tokens[k + 1..], x, caps)
  {
    assert tokens[k..][1..] == tokens[k + 1..];
    assert (text + x)[..|text|] == text;
    assert (text + x)[|text|..] == x;
  }

  lemma BlankStep(tokens: seq<Token>, k: nat, x: string, caps: seq<nat>)
    requires k < |tokens| && tokens[k].Blanks?
    requires |x| > 0 && !IsWhiteSpace(x[0])
    ensures MatchTokens(tokens[k..], " " + x, caps) == MatchTokens(tokens[k + 1..], x, caps)
  {
    assert tokens[k..][1..] == tokens[k + 1..];
    assert (" " + x)[1..] == x;
    assert TrimStart(x) == x;
  }

  lemma NoBlankStep(tokens: seq<Token>, k: nat, x: string, caps: seq<nat>)
    requires k < |tokens| && tokens[k] == Blanks(false)
    requires |x| > 0 && !IsWhiteSpace(x[0])
    ensures MatchTokens(tokens[k..], x, caps) == MatchTokens(tokens[k + 1..], x, caps)
  {
    assert tokens[k..][1..] == tokens[k + 1..];
  }

  lemma NumberStep(tokens: seq<Token>, k: nat, digits: string, x: string, caps: seq<nat>)
    requires k < |tokens| && tokens[k] == Number
    requires |digits| > 0 && forall i :: 0 <= i < |digits| ==> IsDigit(digits[i])
    requires |x| > 0 && !IsDigit(x[0])
    ensures MatchTokens(tokens[k..], digits + x, caps) == MatchTokens(tokens[k + 1..], x, caps + [DecimalValue(digits)])
  {
    assert tokens[k..][1..] == tokens[k + 1..];
    LeadingDigitsOf(digits, x);
    assert (digits + x)[|digits|..] == x;
  }

  lemma FlagStep(tokens: seq<Token>, k: nat, flag: char, x: string, caps: seq<nat>)
    requires k < |tokens| && tokens[k] == Flag
    requires flag == '0' || flag == '1'
    ensures MatchTokens(tokens[k..], [flag] + x, caps) == MatchTokens(tokens[k + 1..], x, caps + [if flag == '1' then 1 else 0])
  {
    assert tokens[k..][1..] == tokens[k + 1..];
    assert ([flag] + x)[1..] == x;
  }

  /** A written footer is read back with its packet number and end flag. */
  lemma FooterRoundTrip(n: nat, endOfTransmission: bool)
    ensures FooterPrefix(FooterText(n, endOfTransmission)) == Some(Footer(n, endOfTransmission))
  {
    var flag := if endOfTransmission then '1' else '0';
    FooterTextMatches(FooterTokens(), n, flag);
  }

  lemma FooterTextMatches(t: seq<Token>, n: nat, flag: char)
    requires IsFooterPattern(t)
    requires flag == '0' || flag == '1'
    ensures MatchTokens(t, FooterText(n, flag == '1'), []) == Some([n, if flag == '1' then 1 else 0])
  {
    var rest := DecimalText(n) + AttributesText(flag);
    FooterTextShape(n, flag);
    FooterHeadMatches(t, rest);
    FooterNumberMatches(t, n, flag);
  }

  lemma FooterTextShape(n: nat, flag: char)
    requires flag == '0' || flag == '1'
    ensures FooterText(n, flag == '1') == "<Footer" + (" " + ("No=\"" + (DecimalText(n) + AttributesText(flag))))
  {
  }

  /** The tag name, a blank and `No="` take the footer up to its packet number. */
  lemma FooterHeadMatches(t: seq<Token>, rest: string)
    requires IsFooterPattern(t)
    requires |rest| > 0 && !IsWhiteSpace(rest[0])
    ensures MatchTokens(t, "<Footer" + (" " + ("No=\"" + rest)), []) == MatchTokens(t[3..], rest, [])
  {
    var s2 := "No=\"" + rest;
    LiteralStep(t, 2, "No=\"", rest, []);
    BlankStep(t, 1, s2, []);
    LiteralStep(t, 0, "<Footer", " " + s2, []);
    assert t[0..] == t;
  }

  lemma FooterNumberMatches(t: seq<Token>, n: nat, flag: char)
    requires IsFooterPattern(t)
    requires flag == '0' || flag == '1'
    ensures MatchTokens(t[3..], DecimalText(n) + AttributesText(flag), []) == Some([n, if flag == '1' then 1 else 0])
  {
    var ds := DecimalText(n);
    FooterAttributesMatch(t, n, flag);
    DecimalRoundTrip(n);
    NumberStep(t, 3, ds, AttributesText(flag), []);
    assert [] + [DecimalValue(ds)] == [n];
  }

  /** What a written footer holds after its packet number. */
  function AttributesText(flag: char): string {
    "\" EOT=\"" + [flag] + "\"/>"
  }

  lemma FooterAttributesMatch(t: seq<Token>, n: nat, flag: char)
    requires IsFooterPattern(t)
    requires flag == '0' || flag == '1'
    ensures MatchTokens(t[4..], AttributesText(flag), [n]) == Some([n, if flag == '1' then 1 else 0])
  {
    var s7 := [flag] + "\"/>";
    assert AttributesText(flag) == "\"" + (" " + ("EOT=\"" + s7));
    FooterEndMatches(t, n, flag);
    AttributesHeadMatches(t, s7, [n]);
  }

  /** A closing quote, a blank and `EOT="` take the footer up to its flag. */
  lemma AttributesHeadMatches(t: seq<Token>, rest: string, caps: seq<nat>)
    requires IsFooterPattern(t)
    requires |rest| > 0 && !IsWhiteSpace(rest[0])
    ensures MatchTokens(t[4..], "\"" + (" " + ("EOT=\"" + rest)), caps) == MatchTokens(t[7..], rest, caps)
  {
    var s6 := "EOT=\"" + rest;
    LiteralStep(t, 6, "EOT=\"", rest, caps);
    BlankStep(t, 5, s6, caps);
    LiteralStep(t, 4, "\"", " " + s6, caps);
  }

  lemma FooterEndMatches(t: seq<Token>, n: nat, flag: char)
    requires IsFooterPattern(t)
    requires flag == '0' || flag == '1'
    ensures MatchTokens(t[7..], [flag] + "\"/>", [n]) == Some([n, if flag == '1' then 1 else 0])
  {
    var caps := [n, if flag == '1' then 1 else 0];
    assert [flag] + "\"/>" == [flag] + ("\"" + ("/>" + ""));
    assert MatchTokens(t[11..], "", caps) == Some(caps);
    LiteralStep(t, 10, "/>", "", caps);
    NoBlankStep(t, 9, "/>" + "", caps);
    LiteralStep(t, 8, "\"", "/>" + "", caps);
    FlagStep(t, 7, flag, "\"" + ("/>" + ""), [n]);
    assert [n] + [if flag == '1' then 1 else 0] == caps;
  }
}
