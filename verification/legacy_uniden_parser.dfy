/**
 * The legacy `STS` decoder: the comma-separated status line of the
 * scanner's older protocol, mapped onto a small status record, and the
 * range guard applied to a frequency typed by the user. `double.TryParse`
 * and the `F4` number format are arguments.
 */
module LegacyUnidenParser {
  import opened Wrappers
  import opened Text

  /** The legacy status record. */
  datatype LegacyStatus = LegacyStatus(
    frequency: real,
    modulation: string,
    systemName: string,
    departmentName: string,
    channelName: string,
    rssi: string,
    lastCommandSent: string)

  /** The record before any line arrives. */
  function Default(): (s: LegacyStatus)
    ensures s.frequency == 0.0 && s.modulation == "---" && s.rssi == "S0"
    ensures s.systemName == "SCANNING" && s.departmentName == "..." && s.channelName == "..."
    ensures s.lastCommandSent == "None"
  {
    LegacyStatus(0.0, "---", "SCANNING", "...", "...", "S0", "None")
  }

  /** `double.TryParse`: the number a text denotes, if it denotes one. */
  type NumberParser = string -> Option<real>

  /** The fewest fields an `STS` line must have. */
  const StsFieldCount: nat := 19

  /** Hertz per megahertz: the line carries hertz, the status megahertz. */
  const HzPerMHz: real := 1000000.0

  /** A line the decoder acts on: not blank, enough fields, and `STS` first. */
  predicate Accepted(raw: string) {
    var parts := Split(raw, ',');
    !IsBlank(raw) && |parts| >= StsFieldCount && parts[0] == "STS"
  }

  /**
   * `UpdateStatus`: an accepted line sets the modulation, names and RSSI
   * from their fields, and the frequency when field 3 is a number; any
   * other line changes nothing.
   */
  function UpdateStatus(parse: NumberParser, s: LegacyStatus, raw: string): (r: LegacyStatus)
    ensures !Accepted(raw) ==> r == s
    ensures r.lastCommandSent == s.lastCommandSent
    ensures Accepted(raw) ==>
              var parts := Split(raw, ',');
              && r.modulation == parts[10] && r.rssi == parts[18]
              && r.systemName == Trim(parts[15])
              && r.departmentName == Trim(parts[16])
              && r.channelName == Trim(parts[17])
    ensures Accepted(raw) && parse(Split(raw, ',')[3]).None? ==> r.frequency == s.frequency
    ensures Accepted(raw) && parse(Split(raw, ',')[3]).Some? ==>
              r.frequency * HzPerMHz == parse(Split(raw, ',')[3]).value
  {
    if IsBlank(raw) then s
    else
      var parts := Split(raw, ',');
      if |parts| >= StsFieldCount && parts[0] == "STS" then
        var frequency := match parse(parts[3])
          case Some(hz) => hz / HzPerMHz
          case None => s.frequency;
        s.(frequency := frequency, modulation := parts[10],
           systemName := Trim(parts[15]), departmentName := Trim(parts[16]),
           channelName := Trim(parts[17]), rssi := parts[18])
      else s
  }

  /** Decoding the same line again changes nothing more. */
  lemma UpdateIdempotent(parse: NumberParser, s: LegacyStatus, raw: string)
    ensures UpdateStatus(parse, UpdateStatus(parse, s, raw), raw) == UpdateStatus(parse, s, raw)
  {
  }

  /** An `STS` line built from its fields: none holds a comma, and there are enough of them. */
  predicate StsFields(fields: seq<string>) {
    && |fields| >= StsFieldCount
    && fields[0] == "STS"
    && forall k :: 0 <= k < |fields| ==> ',' !in fields[k]
  }

  /** A line joined from `STS` fields is accepted and splits back into those fields. */
  lemma StsLineAccepted(fields: seq<string>)
    requires StsFields(fields)
    ensures Split(Join(fields, ','), ',') == fields
    ensures Accepted(Join(fields, ','))
  {
    var raw := Join(fields, ',');
    SplitOfJoin(fields, ',');
    assert raw[0] == 'S';
  }

  /**
   * Every field lands where the decoder promises: the line joined from
   * `fields` carries field 10 as the modulation, fields 15 to 17 trimmed
   * as the names and field 18 as the RSSI.
   */
  lemma StsLineDecodes(parse: NumberParser, s: LegacyStatus, fields: seq<string>)
    requires StsFields(fields)
    ensures var r := UpdateStatus(parse, s, Join(fields, ','));
            && r.modulation == fields[10] && r.rssi == fields[18]
            && r.systemName == Trim(fields[15])
            && r.departmentName == Trim(fields[16])
            && r.channelName == Trim(fields[17])
            && r.lastCommandSent == s.lastCommandSent
  {
    StsLineAccepted(fields);
  }

  /** The frequency of a joined line is field 3 in megahertz when it parses, else the old value. */
  lemma StsLineFrequency(parse: NumberParser, s: LegacyStatus, fields: seq<string>)
    requires StsFields(fields)
    ensures var r := UpdateStatus(parse, s, Join(fields, ','));
            match parse(fields[3])
            case Some(hz) => r.frequency * HzPerMHz == hz
            case None => r.frequency == s.frequency
  {
    StsLineAccepted(fields);
  }

  // ── Frequency entry ───────────────────────────────────────────────────

  /** The tunable range, in megahertz. */
  const MinFrequency: real := 25.0
  const MaxFrequency: real := 1300.0

  predicate InBand(f: real) {
    MinFrequency <= f <= MaxFrequency
  }

  /** The outcome of `TryValidateFrequency`: its result and its `formatted` out-parameter. */
  datatype Validated = Validated(ok: bool, formatted: string)

  /**
   * `TryValidateFrequency`: accepts a number in the tunable range and
   * returns it in the `F4` format; anything else is refused with an empty
   * text.
   */
  function TryValidateFrequency(parse: NumberParser, format: real -> string, input: string): (v: Validated)
    ensures v.ok <==> parse(input).Some? && InBand(parse(input).value)
    ensures v.ok ==> v.formatted == format(parse(input).value)
    ensures !v.ok ==> v.formatted == ""
  {
    match parse(input)
    case Some(f) =>
      if f >= MinFrequency && f <= MaxFrequency then Validated(true, format(f)) else Validated(false, "")
    case None => Validated(false, "")
  }

  /** Validation decides on the parsed value alone: texts that parse alike validate alike. */
  lemma ValidationDependsOnValue(parse: NumberParser, format: real -> string, a: string, b: string)
    requires parse(a) == parse(b)
    ensures TryValidateFrequency(parse, format, a) == TryValidateFrequency(parse, format, b)
  {
  }
}
