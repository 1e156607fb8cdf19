/**
 * The serial receiver: characters arrive in chunks of any size and are
 * framed into lines, each closed by a carriage return. Every line goes to
 * the observers and is offered to the pending response slot.
 */
module SerialDataReceiver {
  import opened ResponseSlot

  const Cr: char := '\r'

  datatype Receiver = Receiver(slot: Slot, buffer: string)

  const Idle := Receiver(NoSlot, "")

  /** The receiver after a chunk, and the lines raised while it was read, in order. */
  datatype Chunked = Chunked(rx: Receiver, lines: seq<string>)

  /**
   * `ExpectResponse`: arms the slot. Replies arrive line by line whatever
   * the command, so the XML flag is not consulted and the buffer is kept.
   */
  function ExpectResponse(rx: Receiver, isXmlCommand: bool): (r: Receiver)
    ensures r.slot == Pending && r.buffer == rx.buffer
  {
    rx.(slot := Pending)
  }

  /** One character: a carriage return closes the line, anything else extends it. */
  function ProcessChar(rx: Receiver, c: char): (r: Chunked)
    ensures c == Cr ==> r.lines == [rx.buffer] && r.rx == Receiver(Offer(rx.slot, rx.buffer), "")
    ensures c != Cr ==> r.lines == [] && r.rx == rx.(buffer := rx.buffer + [c])
  {
    if c == Cr then Chunked(Receiver(Offer(rx.slot, rx.buffer), ""), [rx.buffer])
    else Chunked(rx.(buffer := rx.buffer + [c]), [])
  }

  /** `ProcessChunk`: the characters of a chunk, in order. */
  function ProcessChunk(rx: Receiver, chunk: string): (r: Chunked)
    ensures |r.lines| <= |chunk|
    decreases |chunk|
  {
    if |chunk| == 0 then Chunked(rx, [])
    else
      var first := ProcessChar(rx, chunk[0]);
      var rest := ProcessChunk(first.rx, chunk[1..]);
      Chunked(rest.rx, first.lines + rest.lines)
  }

  /** Lines written back with their terminators. */
  function JoinLines(lines: seq<string>): string
    decreases |lines|
  {
    if |lines| == 0 then "" else lines[0] + [Cr] + JoinLines(lines[1..])
  }

  predicate NoCr(s: string) {
    Cr !in s
  }

  predicate AllNoCr(lines: seq<string>) {
    forall i | 0 <= i < |lines| :: NoCr(lines[i])
  }

  lemma {:induction false} JoinLinesAppend(a: seq<string>, b: seq<string>)
    ensures JoinLines(a + b) == JoinLines(a) + JoinLines(b)
    decreases |a|
  {
    if |a| > 0 {
      assert (a + b)[0] == a[0];
      assert (a + b)[1..] == a[1..] + b;
      JoinLinesAppend(a[1..], b);
      var h := a[0] + [Cr];
      assert JoinLines(a + b) == h + JoinLines(a[1..] + b);
      assert JoinLines(a) == h + JoinLines(a[1..]);
    } else {
      assert a + b == b;
    }
  }

  /**
   * Framing loses nothing: the lines raised, each with its carriage return,
   * followed by what is still buffered, are the buffered text followed by
   * the chunk.
   */
  lemma {:induction false} Lossless(rx: Receiver, chunk: string)
    ensures var r := ProcessChunk(rx, chunk);
            JoinLines(r.lines) + r.rx.buffer == rx.buffer + chunk
    decreases |chunk|
  {
    if |chunk| > 0 {
      var first := ProcessChar(rx, chunk[0]);
      var rest := ProcessChunk(first.rx, chunk[1..]);
      Lossless(first.rx, chunk[1..]);
      JoinLinesAppend(first.lines, rest.lines);
      CharLossless(rx, chunk[0]);
      assert chunk == [chunk[0]] + chunk[1..];
      Regroup(JoinLines(first.lines), JoinLines(rest.lines), rest.rx.buffer);
      Regroup(JoinLines(first.lines), first.rx.buffer, chunk[1..]);
      Regroup(rx.buffer, [chunk[0]], chunk[1..]);
    }
  }

  /** One character is framed without loss. */
  lemma CharLossless(rx: Receiver, c: char)
    ensures var r := ProcessChar(rx, c);
            JoinLines(r.lines) + r.rx.buffer == rx.buffer + [c]
  {
    var r := ProcessChar(rx, c);
    if c == Cr {
      assert [rx.buffer][1..] == [];
      assert JoinLines(r.lines) == rx.buffer + [Cr] + "";
    } else {
      assert JoinLines(r.lines) == "";
    }
  }

  lemma Regroup(p: string, q: string, r: string)
    ensures (p + q) + r == p + (q + r)
  {
  }

  /** No line and no buffer ever holds a carriage return. */
  lemma {:induction false} NoCrInside(rx: Receiver, chunk: string)
    requires NoCr(rx.buffer)
    ensures var r := ProcessChunk(rx, chunk);
            NoCr(r.rx.buffer) && AllNoCr(r.lines)
    decreases |chunk|
  {
    if |chunk| > 0 {
      var first := ProcessChar(rx, chunk[0]);
      NoCrInside(first.rx, chunk[1..]);
      var rest := ProcessChunk(first.rx, chunk[1..]);
      var lines := first.lines + rest.lines;
      forall i | 0 <= i < |lines| ensures NoCr(lines[i]) {
        if i >= |first.lines| {
          assert lines[i] == rest.lines[i - |first.lines|];
        }
      }
    }
  }

  /** Every line raised is offered to the slot, in the order raised. */
  lemma {:induction false} LinesAreOffered(rx: Receiver, chunk: string)
    ensures var r := ProcessChunk(rx, chunk);
            r.rx.slot == OfferAll(rx.slot, r.lines)
    decreases |chunk|
  {
    if |chunk| > 0 {
      var first := ProcessChar(rx, chunk[0]);
      var rest := ProcessChunk(first.rx, chunk[1..]);
      LinesAreOffered(first.rx, chunk[1..]);
      OfferAllAppend(rx.slot, first.lines, rest.lines);
    }
  }

  lemma {:induction false} OfferAllAppend(slot: Slot, a: seq<string>, b: seq<string>)
    ensures OfferAll(slot, a + b) == OfferAll(OfferAll(slot, a), b)
    decreases |a|
  {
    if |a| > 0 {
      assert (a + b)[0] == a[0];
      assert (a + b)[1..] == a[1..] + b;
      OfferAllAppend(Offer(slot, a[0]), a[1..], b);
    } else {
      assert a + b == b;
    }
  }

  /** Reading `a` and then `b` is reading `a + b`: how the bytes were chunked does not matter. */
  lemma {:induction false} ChunkingIrrelevant(rx: Receiver, a: string, b: string)
    ensures var x := ProcessChunk(rx, a);
            var y := ProcessChunk(x.rx, b);
            ProcessChunk(rx, a + b) == Chunked(y.rx, x.lines + y.lines)
    decreases |a|
  {
    if |a| > 0 {
      assert (a + b)[0] == a[0];
      assert (a + b)[1..] == a[1..] + b;
      var first := ProcessChar(rx, a[0]);
      ChunkingIrrelevant(first.rx, a[1..], b);
      var x' := ProcessChunk(first.rx, a[1..]);
      var y := ProcessChunk(x'.rx, b);
      assert first.lines + (x'.lines + y.lines) == (first.lines + x'.lines) + y.lines;
    } else {
      assert a + b == b;
    }
  }

  /**
   * Text without a carriage return followed by one carriage return raises
   * exactly one line: the buffered text and that text, any `\n` kept. Two
   * carriage returns in a row therefore raise an empty line.
   */
  lemma {:induction false} OneLine(rx: Receiver, text: string)
    requires NoCr(text)
    ensures var line := rx.buffer + text;
            ProcessChunk(rx, text + [Cr]) == Chunked(Receiver(Offer(rx.slot, line), ""), [line])
  {
    var x := ProcessChunk(rx, text);
    ChunkingIrrelevant(rx, text, [Cr]);
    NoCrBuffered(rx, text);
    var y := ProcessChunk(x.rx, [Cr]);
    assert ProcessChunk(x.rx, [Cr]) == ProcessChar(x.rx, Cr) by {
      assert [Cr][1..] == [];
    }
  }

  /** Text without a carriage return is only buffered. */
  lemma {:induction false} NoCrBuffered(rx: Receiver, text: string)
    requires NoCr(text)
    ensures ProcessChunk(rx, text) == Chunked(rx.(buffer := rx.buffer + text), [])
    decreases |text|
  {
    if |text| > 0 {
      assert text[0] != Cr;
      assert NoCr(text[1..]) by {
        forall c | c in text[1..] ensures c != Cr {
          assert c in text;
        }
      }
      NoCrBuffered(rx.(buffer := rx.buffer + [text[0]]), text[1..]);
      assert rx.buffer + [text[0]] + text[1..] == rx.buffer + text by {
        assert text == [text[0]] + text[1..];
      }
    } else {
      assert rx.buffer + text == rx.buffer;
    }
  }

  /** The XML flag makes no difference to the serial receiver. */
  lemma ExpectIgnoresXmlFlag(rx: Receiver)
    ensures ExpectResponse(rx, true) == ExpectResponse(rx, false)
  {
  }

  /**
   * A multi-line reply resolves on its first line: after `ExpectResponse`,
   * the slot holds the first line raised, and no later line changes it.
   */
  lemma FirstLineResolves(rx: Receiver, isXmlCommand: bool, chunk: string)
    ensures var r := ProcessChunk(ExpectResponse(rx, isXmlCommand), chunk);
            |r.lines| > 0 ==> r.rx.slot == Resolved(r.lines[0])
  {
    var armed := ExpectResponse(rx, isXmlCommand);
    var r := ProcessChunk(armed, chunk);
    LinesAreOffered(armed, chunk);
    if |r.lines| > 0 {
      FirstOfferWins(r.lines);
    }
  }

  /** Lines and a trailing remainder without carriage returns are determined by their text. */
  lemma {:induction false} FramingIsUnique(a: seq<string>, b: string, c: seq<string>, d: string)
    requires AllNoCr(a) && NoCr(b) && AllNoCr(c) && NoCr(d)
    requires JoinLines(a) + b == JoinLines(c) + d
    ensures a == c && b == d
    decreases |a|
  {
    var s := JoinLines(a) + b;
    if |a| > 0 {
      FirstCrAt(a, b);
    }
    if |c| > 0 {
      FirstCrAt(c, d);
    }
    assert |a| > 0 <==> |c| > 0;
    if |a| == 0 {
      assert JoinLines(a) + b == b && JoinLines(c) + d == d;
    } else {
      assert |a[0]| == |c[0]|;
      assert a[0] == s[..|a[0]|] == c[0];
      assert JoinLines(a[1..]) + b == s[|a[0]| + 1..] == JoinLines(c[1..]) + d;
      TailNoCr(a);
      TailNoCr(c);
      FramingIsUnique(a[1..], b, c[1..], d);
      assert a == [a[0]] + a[1..];
      assert c == [c[0]] + c[1..];
    }
  }

  lemma TailNoCr(lines: seq<string>)
    requires |lines| > 0 && AllNoCr(lines)
    ensures AllNoCr(lines[1..])
  {
    forall i | 0 <= i < |lines[1..]| ensures NoCr(lines[1..][i]) {
      assert lines[1..][i] == lines[i + 1];
    }
  }

  /** Where the first line ends in joined text: at the first carriage return. */
  lemma FirstCrAt(lines: seq<string>, tail: string)
    requires |lines| > 0 && NoCr(lines[0])
    ensures var s := JoinLines(lines) + tail;
            && |lines[0]| < |s| && s[|lines[0]|] == Cr
            && (forall k :: 0 <= k < |lines[0]| ==> s[k] != Cr)
            && s[..|lines[0]|] == lines[0]
            && s[|lines[0]| + 1..] == JoinLines(lines[1..]) + tail
  {
    var j := JoinLines(lines[1..]) + tail;
    assert JoinLines(lines) + tail == lines[0] + ([Cr] + j);
    CrSplit(lines[0], j);
  }

  lemma CrSplit(x: string, y: string)
    requires NoCr(x)
    ensures var s := x + ([Cr] + y);
            && |x| < |s| && s[|x|] == Cr
            && (forall k :: 0 <= k < |x| ==> s[k] != Cr)
            && s[..|x|] == x
            && s[|x| + 1..] == y
  {
    var s := x + ([Cr] + y);
    forall k | 0 <= k < |x| ensures s[k] != Cr {
      assert s[k] == x[k];
    }
  }

  /**
   * The framing is the split of the received text at its carriage returns:
   * any other lines and remainder free of carriage returns that rebuild the
   * same text are the ones the receiver produced.
   */
  lemma SplitCharacterisation(rx: Receiver, chunk: string, lines: seq<string>, rest: string)
    requires NoCr(rx.buffer)
    requires AllNoCr(lines) && NoCr(rest) && JoinLines(lines) + rest == rx.buffer + chunk
    ensures ProcessChunk(rx, chunk) == Chunked(ProcessChunk(rx, chunk).rx, lines)
    ensures ProcessChunk(rx, chunk).rx.buffer == rest
  {
    var r := ProcessChunk(rx, chunk);
    Lossless(rx, chunk);
    NoCrInside(rx, chunk);
    FramingIsUnique(r.lines, r.rx.buffer, lines, rest);
  }
}
