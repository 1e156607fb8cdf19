/**
 * `GsiResponseHandler`: logs the traffic in both directions to a capped
 * raw-data queue, accumulates received text until it holds a complete GSI
 * document, hands the document to the response parser, logs the outcome to
 * a capped debug queue and starts the next document afresh.
 *
 * The clock is read once per raw entry and once per parse; each reading is
 * an argument. The parser is a function argument so that any implementation
 * of the parser interface can be plugged in; `UnidenParser.UpdateStatus` is
 * the default one.
 */
module GsiResponseHandler {
  import opened Text
  import opened ScannerStatus
  import UnidenParser
  import CappedQueue
  import Xml

  const DefaultMaxDebugLogSize: nat := 5
  const DefaultMaxRawDataSize: nat := 30

  /** The parser interface: the status after the call, and whether it parsed. */
  type Parser = (Status, string) -> UnidenParser.Decoded

  datatype Handler = Handler(
    buffer: string,
    debugLog: seq<string>,
    rawData: seq<string>,
    status: Status,
    maxDebugLogSize: nat,
    maxRawDataSize: nat)

  /** A handler over queues the caller owns; the buffer starts empty. */
  function Create(status: Status, debugLog: seq<string>, rawData: seq<string>,
                  maxDebugLogSize: nat, maxRawDataSize: nat): (h: Handler)
    ensures h.buffer == "" && h.status == status
    ensures h.debugLog == debugLog && h.rawData == rawData
  {
    Handler("", debugLog, rawData, status, maxDebugLogSize, maxRawDataSize)
  }

  /** `FormatRawEntry` and the debug lines: a bracketed timestamp, a space, the text. */
  function Stamped(timestamp: string, text: string): string {
    "[" + timestamp + "] " + text
  }

  function SentEntry(timestamp: string, data: string): string {
    Stamped(timestamp, ">> " + data)
  }

  function ReceivedEntry(timestamp: string, data: string): string {
    Stamped(timestamp, "<< " + data)
  }

  function ParseEntry(timestamp: string, parsed: bool): string {
    Stamped(timestamp, if parsed then "GSI parsed" else "Parse failed")
  }

  /** `OnDataSent`: one raw entry and nothing else. */
  function OnDataSent(h: Handler, timestamp: string, data: string): (r: Handler)
    ensures r == h.(rawData := r.rawData)
    ensures |r.rawData| <= h.maxRawDataSize
    ensures r.rawData == CappedQueue.Newest(h.rawData + [SentEntry(timestamp, data)], h.maxRawDataSize)
  {
    h.(rawData := CappedQueue.Enqueue(h.rawData, SentEntry(timestamp, data), h.maxRawDataSize))
  }

  /** The text the handler inspects after appending `data`. */
  function Accumulated(h: Handler, data: string): string {
    h.buffer + data
  }

  /** Whether appending `data` completes a document. */
  predicate Completes(h: Handler, data: string) {
    Contains(Accumulated(h, data), UnidenParser.ClosingTag)
  }

  /**
   * `OnDataReceived`: logs the raw text, appends it to the buffer and, once
   * the buffer holds the closing root tag, parses the whole buffer, logs the
   * outcome and empties the buffer. `rawTime` stamps the raw entry and
   * `parseTime` the debug entry.
   */
  function OnDataReceived(h: Handler, parse: Parser, rawTime: string, parseTime: string,
                          data: string): (r: Handler)
    ensures r.maxRawDataSize == h.maxRawDataSize && r.maxDebugLogSize == h.maxDebugLogSize
    ensures r.rawData == CappedQueue.Newest(h.rawData + [ReceivedEntry(rawTime, data)], h.maxRawDataSize)
    ensures !Completes(h, data) ==>
              r.buffer == h.buffer + data && r.status == h.status && r.debugLog == h.debugLog
    ensures Completes(h, data) ==> r.buffer == ""
    ensures Completes(h, data) ==> r.status == parse(h.status, h.buffer + data).status
    ensures Completes(h, data) ==>
              r.debugLog == CappedQueue.Newest(
                h.debugLog + [ParseEntry(parseTime, parse(h.status, h.buffer + data).ok)],
                h.maxDebugLogSize)
  {
    var logged := h.(rawData := CappedQueue.Enqueue(h.rawData, ReceivedEntry(rawTime, data), h.maxRawDataSize));
    var acc := Accumulated(h, data);
    if Completes(h, data) then
      var d := parse(h.status, acc);
      logged.(status := d.status,
              debugLog := CappedQueue.Enqueue(h.debugLog, ParseEntry(parseTime, d.ok), h.maxDebugLogSize),
              buffer := "")
    else
      logged.(buffer := acc)
  }

  /** `ClearBuffer`: drops a partial document and nothing else. */
  function ClearBuffer(h: Handler): (r: Handler)
    ensures r.buffer == ""
    ensures r == h.(buffer := r.buffer)
  {
    h.(buffer := "")
  }

  // ── Runs of events ────────────────────────────────────────────────────

  datatype Event =
    | Sent(time: string, data: string)
    | Received(rawTime: string, parseTime: string, data: string)
    | Cleared

  function Step(h: Handler, parse: Parser, e: Event): Handler {
    match e
    case Sent(t, d) => OnDataSent(h, t, d)
    case Received(rt, pt, d) => OnDataReceived(h, parse, rt, pt, d)
    case Cleared => ClearBuffer(h)
  }

  function Run(h: Handler, parse: Parser, events: seq<Event>): Handler
    decreases |events|
  {
    if |events| == 0 then h else Run(Step(h, parse, events[0]), parse, events[1..])
  }

  /** The raw entry one event produces, if any. */
  function RawEntry(e: Event): seq<string> {
    match e
    case Sent(t, d) => [SentEntry(t, d)]
    case Received(rt, _, d) => [ReceivedEntry(rt, d)]
    case Cleared => []
  }

  /** The raw entries a run of events produces, oldest first. */
  function RawEntries(events: seq<Event>): seq<string>
    decreases |events|
  {
    if |events| == 0 then [] else RawEntry(events[0]) + RawEntries(events[1..])
  }

  lemma StepKeepsCaps(h: Handler, parse: Parser, e: Event)
    ensures Step(h, parse, e).maxRawDataSize == h.maxRawDataSize
    ensures Step(h, parse, e).maxDebugLogSize == h.maxDebugLogSize
  {
  }

  /** One event adds its raw entry to the raw queue, keeping the newest. */
  lemma StepRawData(h: Handler, parse: Parser, e: Event)
    requires |h.rawData| <= h.maxRawDataSize
    ensures Step(h, parse, e).rawData == CappedQueue.Newest(h.rawData + RawEntry(e), h.maxRawDataSize)
  {
    match e
    case Sent(t, d) =>
    case Received(rt, pt, d) =>
      ReceivedRawData(h, parse, rt, pt, d);
    case Cleared =>
      assert h.rawData + RawEntry(e) == h.rawData;
  }

  lemma ReceivedRawData(h: Handler, parse: Parser, rawTime: string, parseTime: string, data: string)
    ensures OnDataReceived(h, parse, rawTime, parseTime, data).rawData
            == CappedQueue.Newest(h.rawData + [ReceivedEntry(rawTime, data)], h.maxRawDataSize)
  {
  }

  /**
   * The raw-data queue, within its cap to begin with, holds after any run of
   * events the newest `maxRawDataSize` entries of all the traffic in order.
   */
  lemma {:induction false} RawDataKeepsNewest(h: Handler, parse: Parser, events: seq<Event>)
    requires |h.rawData| <= h.maxRawDataSize
    ensures Run(h, parse, events).rawData == CappedQueue.Newest(h.rawData + RawEntries(events), h.maxRawDataSize)
    decreases |events|
  {
    if |events| == 0 {
      assert h.rawData + RawEntries(events) == h.rawData;
    } else {
      var h1 := Step(h, parse, events[0]);
      StepKeepsCaps(h, parse, events[0]);
      StepRawData(h, parse, events[0]);
      RawDataKeepsNewest(h1, parse, events[1..]);
      RawDataStep(h, parse, events);
    }
  }

  /** The inductive step of `RawDataKeepsNewest`. */
  lemma RawDataStep(h: Handler, parse: Parser, events: seq<Event>)
    requires |events| > 0 && |h.rawData| <= h.maxRawDataSize
    requires Run(Step(h, parse, events[0]), parse, events[1..]).rawData
             == CappedQueue.Newest(Step(h, parse, events[0]).rawData + RawEntries(events[1..]), h.maxRawDataSize)
    ensures Run(h, parse, events).rawData == CappedQueue.Newest(h.rawData + RawEntries(events), h.maxRawDataSize)
  {
    var e, rest := events[0], events[1..];
    var y := Run(h, parse, events).rawData;
    var x := Step(h, parse, e).rawData;
    assert y == Run(Step(h, parse, e), parse, rest).rawData;
    assert x == CappedQueue.Newest(h.rawData + RawEntry(e), h.maxRawDataSize) by {
      StepRawData(h, parse, e);
    }
    assert RawEntries(events) == RawEntry(e) + RawEntries(rest);
    CappedQueue.NewestChain(h.rawData, RawEntry(e), RawEntries(rest), x, y, h.maxRawDataSize);
  }

  /** The text of a run of received chunks, joined. */
  function Joined(chunks: seq<Event>): string
    decreases |chunks|
  {
    if |chunks| == 0 then "" else
      (if chunks[0].Received? then chunks[0].data else "") + Joined(chunks[1..])
  }

  /** Every event in the run is a received chunk. */
  predicate AllReceived(events: seq<Event>) {
    forall k :: 0 <= k < |events| ==> events[k].Received?
  }

  /**
   * No prefix of the run, after the buffered text, completes a document:
   * the closing tag never appears.
   */
  predicate StaysPartial(buffer: string, events: seq<Event>) {
    forall k :: 0 <= k <= |events| ==> !Contains(buffer + Joined(events[..k]), UnidenParser.ClosingTag)
  }

  /**
   * Chunks that do not complete a document are only buffered: the buffer is
   * the old buffer followed by every chunk, and the status and debug log are
   * untouched.
   */
  lemma {:induction false} PartialChunksAccumulate(h: Handler, parse: Parser, events: seq<Event>)
    requires AllReceived(events)
    requires StaysPartial(h.buffer, events)
    ensures Run(h, parse, events).buffer == h.buffer + Joined(events)
    ensures Run(h, parse, events).status == h.status
    ensures Run(h, parse, events).debugLog == h.debugLog
    decreases |events|
  {
    if |events| > 0 {
      var e, rest := events[0], events[1..];
      var h1 := Step(h, parse, e);
      assert Run(h, parse, events) == Run(h1, parse, rest);
      PartialShift(h.buffer, events);
      assert h1.buffer == h.buffer + e.data && h1.status == h.status && h1.debugLog == h.debugLog by {
        PartialChunkBuffered(h, parse, e.rawTime, e.parseTime, e.data);
      }
      PartialChunksAccumulate(h1, parse, rest);
      assert Joined(events) == e.data + Joined(rest);
      AppendAssociates(h.buffer, e.data, Joined(rest));
    }
  }

  lemma AppendAssociates(a: string, b: string, c: string)
    ensures (a + b) + c == a + (b + c)
  {
  }

  /** A chunk that does not complete a document is only buffered. */
  lemma PartialChunkBuffered(h: Handler, parse: Parser, rawTime: string, parseTime: string, data: string)
    requires !Completes(h, data)
    ensures Step(h, parse, Received(rawTime, parseTime, data)).buffer == h.buffer + data
    ensures Step(h, parse, Received(rawTime, parseTime, data)).status == h.status
    ensures Step(h, parse, Received(rawTime, parseTime, data)).debugLog == h.debugLog
  {
  }

  /** Staying partial, seen from after the first chunk. */
  lemma PartialShift(buffer: string, events: seq<Event>)
    requires |events| > 0 && AllReceived(events)
    requires StaysPartial(buffer, events)
    ensures !Contains(buffer + events[0].data, UnidenParser.ClosingTag)
    ensures AllReceived(events[1..])
    ensures StaysPartial(buffer + events[0].data, events[1..])
  {
    var e, rest := events[0], events[1..];
    assert events[..1] == [e];
    assert Joined([e]) == e.data by { assert [e][1..] == []; }
    assert !Contains(buffer + Joined(events[..1]), UnidenParser.ClosingTag);
    forall k | 0 <= k <= |rest|
      ensures !Contains(buffer + e.data + Joined(rest[..k]), UnidenParser.ClosingTag)
    {
      assert events[..k + 1][1..] == rest[..k];
      assert Joined(events[..k + 1]) == e.data + Joined(rest[..k]);
      assert buffer + e.data + Joined(rest[..k]) == buffer + Joined(events[..k + 1]);
      assert !Contains(buffer + Joined(events[..k + 1]), UnidenParser.ClosingTag);
    }
  }

  /**
   * A document split over chunks is parsed exactly once, as a whole: after
   * partial chunks and a final one that brings the closing tag, the status
   * is the parser's result on the entire text, the debug log gained one
   * outcome line and the buffer is empty.
   */
  lemma SplitDocumentParsedWhole(h: Handler, parse: Parser, partial: seq<Event>,
                                 rawTime: string, parseTime: string, last: string)
    requires AllReceived(partial)
    requires StaysPartial(h.buffer, partial)
    requires Contains(h.buffer + Joined(partial) + last, UnidenParser.ClosingTag)
    ensures Run(h, parse, partial + [Received(rawTime, parseTime, last)]).buffer == ""
    ensures Run(h, parse, partial + [Received(rawTime, parseTime, last)]).status
            == parse(h.status, h.buffer + Joined(partial) + last).status
    ensures Run(h, parse, partial + [Received(rawTime, parseTime, last)]).debugLog
            == CappedQueue.Newest(
                 h.debugLog + [ParseEntry(parseTime, parse(h.status, h.buffer + Joined(partial) + last).ok)],
                 h.maxDebugLogSize)
  {
    var e := Received(rawTime, parseTime, last);
    PartialChunksAccumulate(h, parse, partial);
    RunAppend(h, parse, partial, e);
    var mid := Run(h, parse, partial);
    RunKeepsCaps(h, parse, partial);
    assert Accumulated(mid, last) == h.buffer + Joined(partial) + last;
  }

  lemma {:induction false} RunAppend(h: Handler, parse: Parser, events: seq<Event>, e: Event)
    ensures Run(h, parse, events + [e]) == Step(Run(h, parse, events), parse, e)
    decreases |events|
  {
    if |events| == 0 {
      assert events + [e] == [e];
      assert [e][1..] == [];
    } else {
      assert (events + [e])[1..] == events[1..] + [e];
      RunAppend(Step(h, parse, events[0]), parse, events[1..], e);
    }
  }

  lemma {:induction false} RunKeepsCaps(h: Handler, parse: Parser, events: seq<Event>)
    ensures Run(h, parse, events).maxDebugLogSize == h.maxDebugLogSize
    ensures Run(h, parse, events).maxRawDataSize == h.maxRawDataSize
    decreases |events|
  {
    if |events| > 0 {
      StepKeepsCaps(h, parse, events[0]);
      RunKeepsCaps(Step(h, parse, events[0]), parse, events[1..]);
    }
  }

  /** With the default parser, a document that fails to parse changes nothing in the status. */
  lemma DefaultParserFailureKeepsStatus(h: Handler, p: Xml.Parsers, rawTime: string,
                                        parseTime: string, data: string)
    requires Completes(h, data)
    requires !UnidenParser.UpdateStatus(p, h.status, h.buffer + data).ok
    ensures OnDataReceived(h, (s, raw) => UnidenParser.UpdateStatus(p, s, raw), rawTime, parseTime, data).status == h.status
    ensures OnDataReceived(h, (s, raw) => UnidenParser.UpdateStatus(p, s, raw), rawTime, parseTime, data).buffer == ""
  {
  }
}
