/** The pure helpers of XmlParserHelpers: attribute fallback, frequency cleaning, envelope stripping. */
module XmlParserHelpers {
  import opened Wrappers
  import opened Text
  import opened Xml

  const DefaultFallback := "---"
  const Envelope := "GSI,<XML>,"

  /**
   * `Attr(el, name, fallback)`: the attribute's value when it is present and
   * non-empty, the fallback otherwise.
   */
  function Attr(el: Element, name: string, fallback: string := DefaultFallback): (r: string)
    ensures name in el.attributes && |el.attributes[name]| > 0 ==> r == el.attributes[name]
    ensures name !in el.attributes || |el.attributes[name]| == 0 ==> r == fallback
    ensures |fallback| > 0 ==> |r| > 0
  {
    match Attribute(el, name)
    case Some(v) => if |v| > 0 then v else fallback
    case None => fallback
  }

  predicate IsFrequencyChar(c: char) {
    ('0' <= c <= '9') || c == '.'
  }

  /** `Regex.Replace(raw, "[^0-9.]", "")`. */
  function CleanFrequency(raw: string): (r: string)
    ensures forall i :: 0 <= i < |r| ==> IsFrequencyChar(r[i])
    ensures |r| <= |raw|
  {
    if |raw| == 0 then []
    else (if IsFrequencyChar(raw[0]) then [raw[0]] else []) + CleanFrequency(raw[1..])
  }

  /** Cleaning works character by character: it distributes over concatenation. */
  lemma {:induction false} CleanFrequencyAppend(a: string, b: string)
    ensures CleanFrequency(a + b) == CleanFrequency(a) + CleanFrequency(b)
    decreases |a|
  {
    if |a| == 0 {
      assert a + b == b;
    } else {
      assert (a + b)[1..] == a[1..] + b;
      CleanFrequencyAppend(a[1..], b);
    }
  }

  /** On one character the filter keeps a digit or a dot and drops anything else. */
  lemma CleanFrequencyChar(c: char)
    ensures CleanFrequency([c]) == if IsFrequencyChar(c) then [c] else []
  {
    assert [c][1..] == [];
  }

  /** Text with no digit and no dot, such as a unit suffix, is removed entirely. */
  lemma {:induction false} CleanFrequencyDropsNoise(raw: string)
    requires forall i :: 0 <= i < |raw| ==> !IsFrequencyChar(raw[i])
    ensures CleanFrequency(raw) == []
    decreases |raw|
  {
    if |raw| > 0 {
      CleanFrequencyDropsNoise(raw[1..]);
    }
  }

  /** Text made only of digits and dots passes through unchanged, and nothing else does. */
  lemma {:induction false} CleanFrequencyFixedPoint(raw: string)
    ensures CleanFrequency(raw) == raw <==> forall i :: 0 <= i < |raw| ==> IsFrequencyChar(raw[i])
    decreases |raw|
  {
    if |raw| > 0 {
      CleanFrequencyFixedPoint(raw[1..]);
      if !IsFrequencyChar(raw[0]) {
        assert |CleanFrequency(raw)| < |raw|;
      } else if CleanFrequency(raw) == raw {
        assert CleanFrequency(raw[1..]) == raw[1..];
      }
    }
  }

  /**
   * `ParseFrequency(raw)`: no value for `""` and `"---"`; otherwise whatever
   * `double.TryParse` makes of the digits and dots of `raw`.
   */
  function ParseFrequency(p: Parsers, raw: string): (r: Option<real>)
    ensures raw == "" || raw == "---" ==> r.None?
    ensures raw != "" && raw != "---" ==> r == p.float64(CleanFrequency(raw))
  {
    if raw == "" || raw == "---" then None
    else p.float64(CleanFrequency(raw))
  }

  /**
   * A number followed by a unit, as in `154.4150MHz`, reads as the number:
   * the unit's letters are cleaned away before parsing.
   */
  lemma ParseFrequencyStripsUnit(p: Parsers, number: string, unit: string)
    requires |number| > 0 && forall i :: 0 <= i < |number| ==> IsFrequencyChar(number[i])
    requires forall i :: 0 <= i < |unit| ==> !IsFrequencyChar(unit[i])
    ensures ParseFrequency(p, number + unit) == p.float64(number)
  {
    assert number + unit != "---" by {
      assert (number + unit)[0] == number[0] != '-';
    }
    CleanFrequencyAppend(number, unit);
    CleanFrequencyFixedPoint(number);
    CleanFrequencyDropsNoise(unit);
    assert CleanFrequency(number + unit) == number + [] == number;
  }

  /** Texts that clean to the same digits and dots parse alike, whatever else they carry. */
  lemma ParseFrequencyReadsOnlyDigits(p: Parsers, a: string, b: string)
    requires a != "" && a != "---" && b != "" && b != "---"
    requires CleanFrequency(a) == CleanFrequency(b)
    ensures ParseFrequency(p, a) == ParseFrequency(p, b)
  {
  }

  /** The text as a document when it starts with `<`, nothing otherwise. */
  function AsDocument(x: string): (r: Option<string>)
    ensures r.Some? <==> |x| > 0 && x[0] == '<'
    ensures r.Some? ==> r.value == x
  {
    if |x| > 0 && x[0] == '<' then Some(x) else None
  }

  /**
   * `ExtractXmlFromGsiResponse`: strips the `GSI,<XML>,` envelope and
   * returns the trimmed XML text, which always starts with `<`.
   */
  function ExtractXml(raw: string): (r: Option<string>)
    ensures IsBlank(raw) ==> r.None?
    ensures r.Some? ==> |r.value| > 0 && r.value[0] == '<' && IsTrimmed(r.value)
    ensures !Contains(Trim(raw), Envelope) ==> r == AsDocument(Trim(raw))
    ensures Contains(Trim(raw), Envelope) ==>
              r == AsDocument(Trim(Trim(raw)[IndexOf(Trim(raw), Envelope).value + |Envelope|..]))
  {
    var data := Trim(raw);
    match IndexOf(data, Envelope)
    case Some(at) => AsDocument(Trim(data[at + |Envelope|..]))
    case None => AsDocument(data)
  }

  /** Wrapping a trimmed XML document in the envelope and stripping it again gives the document back. */
  lemma EnvelopeRoundTrip(x: string)
    requires |x| > 0 && x[0] == '<' && IsTrimmed(x)
    ensures ExtractXml(Envelope + x) == Some(x)
  {
    var d := Envelope + x;
    assert IsTrimmed(d);
    TrimOfTrimmed(d);
    TrimOfTrimmed(x);
    assert OccursAt(d, Envelope, 0);
    assert d[|Envelope|..] == x;
  }

  /** A bare document with no envelope is returned as it is. */
  lemma BareDocumentPassesThrough(x: string)
    requires |x| > 0 && x[0] == '<' && IsTrimmed(x) && !Contains(x, Envelope)
    ensures ExtractXml(x) == Some(x)
  {
    TrimOfTrimmed(x);
  }
}
