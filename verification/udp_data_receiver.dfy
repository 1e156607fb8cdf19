/**
 * The UDP receiver of SDS200 replies. Most commands answer in one
 * datagram, which is raised to the observers and offered to the pending
 * slot as it is. A `GLT` reply is spread over several datagrams of the form
 * `GLT,<XML>,` + XML text + `<Footer No="n" EOT="0|1"/>`; the receiver
 * collects their XML text and completes the reply on the fragment whose
 * footer says `EOT="1"`.
 *
 * Each datagram is one step of a pure transition over the receiver's
 * state; the lock that serialises them in the program is not modelled.
 */
module UdpDataReceiver {
  import opened Wrappers
  import opened Text
  import opened FooterPattern
  import opened ResponseSlot

  datatype Receiver = Receiver(
    slot: Slot,
    expectingXml: bool,
    buffer: string,          // XML text collected so far
    lastPacket: nat,         // the last footer number seen, 0 at the start of a reply
    prefix: Option<string>)  // the command echoed by the first fragment

  const Idle := Receiver(NoSlot, false, "", 0, None)

  /** One datagram's effect: the new state, what observers saw, and whether a packet gap was logged. */
  datatype Step = Step(rx: Receiver, emitted: Option<string>, gapLogged: bool)

  /**
   * `ExpectResponse`: arms a fresh slot and sets the XML flag; an XML
   * command also starts a new assembly.
   */
  function ExpectResponse(rx: Receiver, isXmlCommand: bool): (r: Receiver)
    ensures r.slot == Pending && r.expectingXml == isXmlCommand
    ensures isXmlCommand ==> r.buffer == "" && r.lastPacket == 0 && r.prefix == None
    ensures !isXmlCommand ==> r.buffer == rx.buffer && r.lastPacket == rx.lastPacket && r.prefix == rx.prefix
  {
    if isXmlCommand then Receiver(Pending, true, "", 0, None)
    else rx.(slot := Pending, expectingXml := false)
  }

  /** A datagram is treated as XML when it mentions `<XML>`, `<?xml` or `<Footer`, in any case. */
  predicate IsXmlPacket(m: string) {
    ContainsIgnoreCase(m, "<XML>") || ContainsIgnoreCase(m, "<?xml") || ContainsIgnoreCase(m, "<Footer")
  }

  /** A datagram that carries a footer is always XML. */
  lemma FooterMakesXml(m: string)
    requires FindFooter(m).Some?
    ensures IsXmlPacket(m)
  {
    FooterImpliesTag(m);
  }

  // ── Extracting the XML text of a fragment ────────────────────────────

  /**
   * `ExtractXmlContent`: from the first `<?xml` up to a later `<Footer`;
   * failing a declaration, what follows the first comma, cut at `<Footer`;
   * failing both, the whole datagram.
   */
  function ExtractXmlContent(packet: string): (r: string)
    ensures Contains(packet, r)
    ensures ContainsIgnoreCase(packet, "<?xml") ==> StartsWithIgnoreCase(r, "<?xml")
    ensures !ContainsIgnoreCase(packet, "<?xml") && ',' in packet ==> !ContainsIgnoreCase(r, "<Footer") && r != packet
    ensures !ContainsIgnoreCase(packet, "<?xml") && ',' !in packet ==> r == packet
    ensures IndexOfIgnoreCase(packet, "<?xml").Some? ==>
              var xs := IndexOfIgnoreCase(packet, "<?xml").value;
              var footer := IndexOfIgnoreCase(packet, "<Footer");
              && OccursAt(packet, r, xs)
              && xs + |r| == (if footer.Some? && footer.value > xs then footer.value else |packet|)
    ensures IndexOfIgnoreCase(packet, "<?xml").None? ==> r == AfterComma(packet)
  {
    match IndexOfIgnoreCase(packet, "<?xml")
    case Some(xs) =>
      var r := FromDeclaration(packet, xs);
      assert ContainsIgnoreCase(packet, "<?xml");
      r
    case None =>
      var r := AfterComma(packet);
      assert !ContainsIgnoreCase(packet, "<?xml");
      r
  }

  /**
   * Without a declaration, the content starts just after the first comma
   * and runs up to the first `<Footer` after it, or to the end.
   */
  lemma ContentAfterFirstComma(packet: string, c: nat)
    requires !ContainsIgnoreCase(packet, "<?xml") && IndexOfChar(packet, ',') == Some(c)
    ensures OccursAt(packet, ExtractXmlContent(packet), c + 1)
    ensures !ContainsIgnoreCase(ExtractXmlContent(packet), "<Footer")
    ensures var end := c + 1 + |ExtractXmlContent(packet)|;
            EndsAtFooterOrEnd(packet, end)
  {
    assert ExtractXmlContent(packet) == AfterComma(packet);
  }

  /** The text from the first declaration on, cut at the first `<Footer` when that comes later. */
  function FromDeclaration(packet: string, xs: nat): (r: string)
    requires IndexOfIgnoreCase(packet, "<?xml") == Some(xs)
    ensures Contains(packet, r) && StartsWithIgnoreCase(r, "<?xml")
    ensures OccursAt(packet, r, xs)
    ensures var footer := IndexOfIgnoreCase(packet, "<Footer");
            xs + |r| == (if footer.Some? && footer.value > xs then footer.value else |packet|)
  {
    DeclarationStart(packet, xs);
    var footer := IndexOfIgnoreCase(packet, "<Footer");
    if footer.Some? && footer.value > xs then
      FooterAfterDeclaration(packet, xs, footer.value);
      assert OccursAt(packet, packet[xs..footer.value], xs);
      packet[xs..footer.value]
    else
      assert OccursAt(packet, packet[xs..], xs);
      packet[xs..]
  }

  /** What follows the first comma, cut at the first `<Footer`; the whole packet when there is no comma. */
  function AfterComma(packet: string): (r: string)
    ensures Contains(packet, r)
    ensures ',' in packet ==> !ContainsIgnoreCase(r, "<Footer") && r != packet
    ensures ',' !in packet ==> r == packet
    ensures IndexOfChar(packet, ',').Some? ==>
              var from := IndexOfChar(packet, ',').value + 1;
              && OccursAt(packet, r, from)
              && EndsAtFooterOrEnd(packet, from + |r|)
  {
    match IndexOfChar(packet, ',')
    case Some(c) =>
      var r := CutAtFooter(packet, c + 1);
      assert OccursAt(packet, r, c + 1);
      assert |r| < |packet|;
      assert ',' in packet;
      r
    case None =>
      assert OccursAt(packet, packet, 0);
      packet
  }

  /** Position `end` is the end of the packet or the start of a `<Footer` tag, in any case. */
  predicate EndsAtFooterOrEnd(packet: string, end: nat) {
    end == |packet| || (end <= |packet| && StartsWithIgnoreCase(packet[end..], "<Footer"))
  }

  /** The text from `from` on, cut at its first `<Footer`. */
  function CutAtFooter(packet: string, from: nat): (r: string)
    requires from <= |packet|
    ensures OccursAt(packet, r, from) && !ContainsIgnoreCase(r, "<Footer")
    ensures EndsAtFooterOrEnd(packet, from + |r|)
  {
    var content := packet[from..];
    match IndexOfIgnoreCase(content, "<Footer")
    case Some(fs) =>
      BeforeFirstOccurrence(content, "<Footer", fs);
      OccurrenceStartsWith(content, "<Footer", fs);
      assert packet[from + fs..] == content[fs..];
      content[..fs]
    case None =>
      content
  }

  /** The text from a case-insensitive occurrence of `needle` on starts with `needle`, ignoring case. */
  lemma OccurrenceStartsWith(s: string, needle: string, i: nat)
    requires i + |needle| <= |s| && OccursAt(Upper(s), Upper(needle), i)
    ensures StartsWithIgnoreCase(s[i..], needle)
  {
    UpperSlice(s, i, i + |needle|);
    assert s[i..][..|needle|] == s[i..i + |needle|];
  }

  /** The text from a case-insensitive `<?xml` on starts with `<?xml`. */
  lemma DeclarationStart(packet: string, xs: nat)
    requires xs + 5 <= |packet| && OccursAt(Upper(packet), Upper("<?xml"), xs)
    ensures StartsWithIgnoreCase(packet[xs..], "<?xml")
  {
    UpperSlice(packet, xs, xs + 5);
    assert packet[xs..][..5] == packet[xs..xs + 5];
  }

  /**
   * A `<Footer` after the declaration cannot start inside its five
   * characters, so the text between them still starts with `<?xml`.
   */
  lemma FooterAfterDeclaration(packet: string, xs: nat, fs: nat)
    requires xs + 5 <= |packet| && OccursAt(Upper(packet), Upper("<?xml"), xs)
    requires fs + 7 <= |packet| && OccursAt(Upper(packet), Upper("<Footer"), fs)
    requires fs > xs
    ensures StartsWithIgnoreCase(packet[xs..fs], "<?xml")
  {
    assert Upper(packet)[fs] == '<';
    forall d | xs + 1 <= d < xs + 5
      ensures Upper(packet)[d] != '<'
    {
      assert Upper(packet)[d] == Upper(packet)[xs..xs + 5][d - xs] == Upper("<?xml")[d - xs];
    }
    UpperSlice(packet, xs, xs + 5);
    assert packet[xs..fs][..5] == packet[xs..xs + 5];
  }

  // ── The command prefix ───────────────────────────────────────────────

  /**
   * The prefix of an assembly: kept once captured; otherwise the text
   * before the first comma, when that comma is not the first character.
   */
  function CapturePrefix(prefix: Option<string>, packet: string): (r: Option<string>)
    ensures prefix.Some? ==> r == prefix
    ensures prefix.None? && r.Some? ==>
              && 0 < |r.value| < |packet| && packet[..|r.value|] == r.value
              && packet[|r.value|] == ',' && ',' !in r.value
    ensures prefix.None? && r.None? ==> ',' !in packet || packet[0] == ','
  {
    if prefix.Some? then prefix
    else match IndexOfChar(packet, ',')
      case Some(c) => if c > 0 then Some(packet[..c]) else None
      case None => None
  }

  /** What the reply text shows for the prefix: `null` interpolates as nothing. */
  function PrefixText(prefix: Option<string>): string {
    prefix.GetOr("")
  }

  // ── One datagram ─────────────────────────────────────────────────────

  /**
   * The assembly step, given what the datagram holds: the prefix as now
   * captured, its XML text and its footer, if any. Every fragment adds its
   * text to the buffer; a footer records its packet number (a gap is only
   * logged); an end-of-transmission footer completes the reply, offers it
   * to the slot and starts over.
   */
  function Assemble(rx: Receiver, prefix: Option<string>, content: string, footer: Option<Footer>): (st: Step)
    ensures st.emitted.Some? <==> footer.Some? && footer.value.endOfTransmission
    ensures st.emitted.Some? ==>
              && st.emitted.value == PrefixText(prefix) + "," + rx.buffer + content
              && st.rx == Receiver(Offer(rx.slot, st.emitted.value), false, "", 0, None)
    ensures st.emitted.None? ==>
              st.rx == rx.(prefix := prefix, buffer := rx.buffer + content,
                           lastPacket := if footer.Some? then footer.value.number else rx.lastPacket)
    ensures st.gapLogged <==> footer.Some? && footer.value.number != rx.lastPacket + 1
  {
    var buffer := rx.buffer + content;
    match footer
    case None => Step(rx.(prefix := prefix, buffer := buffer), None, false)
    case Some(f) =>
      var gap := f.number != rx.lastPacket + 1;
      if f.endOfTransmission then
        var reply := PrefixText(prefix) + "," + buffer;
        Step(Receiver(Offer(rx.slot, reply), false, "", 0, None), Some(reply), gap)
      else
        Step(rx.(prefix := prefix, lastPacket := f.number, buffer := buffer), None, gap)
  }

  /** `ProcessXmlPacket`: capture the prefix, find the footer, extract the XML text, assemble. */
  function ProcessXmlPacket(rx: Receiver, packet: string): Step {
    Assemble(rx, CapturePrefix(rx.prefix, packet), ExtractXmlContent(packet), FindFooter(packet))
  }

  /**
   * `ProcessMessage`: XML datagrams go to the assembler while an XML reply
   * is expected; anything else is raised and offered whole.
   */
  function ProcessMessage(rx: Receiver, m: string): (st: Step)
    ensures rx.expectingXml && IsXmlPacket(m) ==> st == ProcessXmlPacket(rx, m)
    ensures !(rx.expectingXml && IsXmlPacket(m)) ==>
              && st.emitted == Some(m) && !st.gapLogged
              && st.rx.slot == Offer(rx.slot, m) && st.rx.(slot := rx.slot) == rx
    ensures rx.expectingXml && IsXmlPacket(m) ==>
              (st.emitted.Some? <==> FindFooter(m).Some? && FindFooter(m).value.endOfTransmission)
    ensures rx.expectingXml && IsXmlPacket(m) && st.emitted.None? ==>
              st.rx.slot == rx.slot && st.rx.expectingXml
  {
    if rx.expectingXml && IsXmlPacket(m) then ProcessXmlPacket(rx, m)
    else Step(rx.(slot := Offer(rx.slot, m)), Some(m), false)
  }

  /** The receive loop's handling of one datagram: trimmed, and skipped when nothing is left. */
  function ReceiveDatagram(rx: Receiver, datagram: string): (st: Step)
    ensures IsBlank(datagram) ==> st == Step(rx, None, false)
    ensures !IsBlank(datagram) ==> st == ProcessMessage(rx, Trim(datagram))
  {
    var m := Trim(datagram);
    if m == "" then Step(rx, None, false) else ProcessMessage(rx, m)
  }

  /** A datagram with nothing to trim is processed exactly as it arrived. */
  lemma TrimmedDatagramAsIs(rx: Receiver, datagram: string)
    requires IsTrimmed(datagram) && datagram != ""
    ensures ReceiveDatagram(rx, datagram) == ProcessMessage(rx, datagram)
  {
    TrimOfTrimmed(datagram);
  }

  // ── Runs of datagrams ────────────────────────────────────────────────

  datatype Run = Run(rx: Receiver, emitted: seq<string>)

  /** Processes messages in arrival order, collecting what the observers saw. */
  function Deliver(rx: Receiver, ms: seq<string>): Run
    decreases |ms|
  {
    if |ms| == 0 then Run(rx, [])
    else
      var st := ProcessMessage(rx, ms[0]);
      var rest := Deliver(st.rx, ms[1..]);
      Run(rest.rx, (if st.emitted.Some? then [st.emitted.value] else []) + rest.emitted)
  }

  /** Outside an XML reply every message is raised, and the slot keeps the first one. */
  lemma {:induction false} PlainRepliesPassThrough(rx: Receiver, ms: seq<string>)
    requires !rx.expectingXml
    ensures Deliver(rx, ms).emitted == ms
    ensures Deliver(rx, ms).rx.slot == OfferAll(rx.slot, ms)
    decreases |ms|
  {
    if |ms| > 0 {
      PlainRepliesPassThrough(rx.(slot := Offer(rx.slot, ms[0])), ms[1..]);
    }
  }

  // ── Multi-packet replies ─────────────────────────────────────────────

  /** What precedes the XML text in a fragment: the command echo and the `<XML>` marker. */
  function Head(cmd: string): string {
    cmd + ",<XML>,\n"
  }

  /** One fragment of a multi-packet reply. */
  function Fragment(cmd: string, body: string, n: nat, endOfTransmission: bool): string {
    Head(cmd) + body + FooterText(n, endOfTransmission)
  }

  /** A command echo as the scanner sends it: non-empty, with no comma and no tag. */
  predicate IsCommandEcho(cmd: string) {
    |cmd| > 0 && ',' !in cmd && '<' !in cmd
  }

  /** The XML text of a fragment: it starts with the declaration and mentions no footer. */
  predicate IsFragmentBody(body: string) {
    StartsWithIgnoreCase(body, "<?xml") && !ContainsIgnoreCase(body, "<Footer")
  }

  /** The fragments of a reply numbered by `numbers`; only the last says end of transmission. */
  function Fragments(cmd: string, bodies: seq<string>, numbers: seq<nat>): (r: seq<string>)
    requires |numbers| == |bodies|
    ensures |r| == |bodies|
    decreases |bodies|
  {
    if |bodies| == 0 then []
    else [Fragment(cmd, bodies[0], numbers[0], |bodies| == 1)] + Fragments(cmd, bodies[1..], numbers[1..])
  }

  function Concat(parts: seq<string>): string
    decreases |parts|
  {
    if |parts| == 0 then "" else parts[0] + Concat(parts[1..])
  }

  /**
   * A multi-packet reply is assembled into one message: the command, a
   * comma and the fragments' XML text in arrival order, whatever the
   * packet numbers (a gap is logged, not repaired). It is raised once,
   * offered to the slot, and the receiver is left ready for the next
   * command.
   */
  lemma {:induction false} AssembleReply(rx: Receiver, cmd: string, bodies: seq<string>, numbers: seq<nat>)
    requires rx.expectingXml && (rx.prefix == None || rx.prefix == Some(cmd))
    requires IsCommandEcho(cmd)
    requires |bodies| > 0 && |numbers| == |bodies|
    requires forall i | 0 <= i < |bodies| :: IsFragmentBody(bodies[i])
    ensures var reply := cmd + "," + rx.buffer + Concat(bodies);
            Deliver(rx, Fragments(cmd, bodies, numbers)) == Run(Receiver(Offer(rx.slot, reply), false, "", 0, None), [reply])
    decreases |bodies|
  {
    var ms := Fragments(cmd, bodies, numbers);
    assert IsFragmentBody(bodies[0]);
    if |bodies| == 1 {
      assert ms == [Fragment(cmd, bodies[0], numbers[0], true)];
      LastFragmentStep(rx, cmd, bodies[0], numbers[0], ms);
      assert Concat(bodies) == bodies[0] by {
        assert Concat(bodies[1..]) == "";
        assert bodies[0] + "" == bodies[0];
      }
    } else {
      var rx2 := rx.(prefix := Some(cmd), buffer := rx.buffer + bodies[0], lastPacket := numbers[0]);
      assert ms[0] == Fragment(cmd, bodies[0], numbers[0], false);
      MidFragmentStep(rx, cmd, bodies[0], numbers[0], ms);
      assert ms[1..] == Fragments(cmd, bodies[1..], numbers[1..]);
      assert forall i | 0 <= i < |bodies[1..]| :: IsFragmentBody(bodies[1..][i]) by {
        forall i | 0 <= i < |bodies[1..]| ensures IsFragmentBody(bodies[1..][i]) {
          assert bodies[1..][i] == bodies[i + 1];
        }
      }
      AssembleReply(rx2, cmd, bodies[1..], numbers[1..]);
      assert Concat(bodies) == bodies[0] + Concat(bodies[1..]);
      ReplyRegroups(cmd, rx.buffer, bodies[0], Concat(bodies[1..]));
      assert cmd + "," + rx.buffer + Concat(bodies) == cmd + "," + rx2.buffer + Concat(bodies[1..]);
    }
  }

  /** The closing fragment raises the assembled reply and resets the receiver. */
  lemma LastFragmentStep(rx: Receiver, cmd: string, body: string, n: nat, ms: seq<string>)
    requires rx.expectingXml && (rx.prefix == None || rx.prefix == Some(cmd))
    requires IsCommandEcho(cmd) && IsFragmentBody(body)
    requires ms == [Fragment(cmd, body, n, true)]
    ensures var reply := cmd + "," + rx.buffer + body;
            Deliver(rx, ms) == Run(Receiver(Offer(rx.slot, reply), false, "", 0, None), [reply])
  {
    FragmentStep(rx, cmd, body, n, true);
    DeliverLast(rx, ms);
  }

  /** A fragment before the last one is buffered, and nothing is raised. */
  lemma MidFragmentStep(rx: Receiver, cmd: string, body: string, n: nat, ms: seq<string>)
    requires rx.expectingXml && (rx.prefix == None || rx.prefix == Some(cmd))
    requires IsCommandEcho(cmd) && IsFragmentBody(body)
    requires |ms| > 0 && ms[0] == Fragment(cmd, body, n, false)
    ensures Deliver(rx, ms) == Deliver(rx.(prefix := Some(cmd), buffer := rx.buffer + body, lastPacket := n), ms[1..])
  {
    FragmentStep(rx, cmd, body, n, false);
    DeliverSilent(rx, ms);
  }

  lemma ReplyRegroups(cmd: string, buffer: string, body: string, rest: string)
    ensures cmd + "," + buffer + (body + rest) == cmd + "," + (buffer + body) + rest
  {
  }

  /** A message that raises nothing only changes the receiver the rest is delivered to. */
  lemma DeliverSilent(rx: Receiver, ms: seq<string>)
    requires |ms| > 0 && ProcessMessage(rx, ms[0]).emitted.None?
    ensures Deliver(rx, ms) == Deliver(ProcessMessage(rx, ms[0]).rx, ms[1..])
  {
  }

  /** The last message of a run is raised when it is due, and the run ends in its receiver. */
  lemma DeliverLast(rx: Receiver, ms: seq<string>)
    requires |ms| == 1
    ensures var st := ProcessMessage(rx, ms[0]);
            Deliver(rx, ms) == Run(st.rx, if st.emitted.Some? then [st.emitted.value] else [])
  {
    assert ms[1..] == [];
  }

  /** One fragment, in full: it is XML, echoes `cmd`, and carries `body` and its footer. */
  lemma FragmentStep(rx: Receiver, cmd: string, body: string, n: nat, eot: bool)
    requires rx.expectingXml && (rx.prefix == None || rx.prefix == Some(cmd))
    requires IsCommandEcho(cmd) && IsFragmentBody(body)
    ensures ProcessMessage(rx, Fragment(cmd, body, n, eot)) == Assemble(rx, Some(cmd), body, Some(Footer(n, eot)))
  {
    var m := Fragment(cmd, body, n, eot);
    FragmentParts(cmd, body, n, eot);
    FooterMakesXml(m);
    FragmentPrefix(rx, cmd, body, FooterText(n, eot));
    XmlPacketSteps(rx, m, Some(cmd), body, Some(Footer(n, eot)));
  }

  /** An XML packet is assembled from what the three extractions find in it. */
  lemma XmlPacketSteps(rx: Receiver, m: string, prefix: Option<string>, content: string, footer: Option<Footer>)
    requires rx.expectingXml && IsXmlPacket(m)
    requires CapturePrefix(rx.prefix, m) == prefix && ExtractXmlContent(m) == content && FindFooter(m) == footer
    ensures ProcessMessage(rx, m) == Assemble(rx, prefix, content, footer)
  {
  }

  /** The prefix a receiver holds after a fragment is the fragment's command echo. */
  lemma FragmentPrefix(rx: Receiver, cmd: string, body: string, f: string)
    requires rx.prefix == None || rx.prefix == Some(cmd)
    requires IsCommandEcho(cmd)
    ensures CapturePrefix(rx.prefix, Head(cmd) + body + f) == Some(cmd)
  {
    EchoIsPrefix(cmd, body + f);
    assert Head(cmd) + (body + f) == Head(cmd) + body + f;
  }

  /** The prefix captured from a fragment is its command echo. */
  lemma EchoIsPrefix(cmd: string, tail: string)
    requires IsCommandEcho(cmd)
    ensures CapturePrefix(None, Head(cmd) + tail) == Some(cmd)
  {
    var m := Head(cmd) + tail;
    assert m[|cmd|] == ',';
    assert m[..|cmd|] == cmd;
  }

  /** What the extraction and the footer search find in a fragment. */
  lemma FragmentParts(cmd: string, body: string, n: nat, eot: bool)
    requires IsCommandEcho(cmd) && IsFragmentBody(body)
    ensures ExtractXmlContent(Fragment(cmd, body, n, eot)) == body
    ensures FindFooter(Fragment(cmd, body, n, eot)) == Some(Footer(n, eot))
  {
    var f := FooterText(n, eot);
    FooterTextOpensWithTag(n, eot);
    FooterIndex(cmd, body, f);
    FragmentContent(cmd, body, f);
    FragmentFooter(cmd, body, n, eot);
  }

  lemma FragmentFooter(cmd: string, body: string, n: nat, eot: bool)
    requires IsCommandEcho(cmd) && IsFragmentBody(body)
    ensures FindFooter(Fragment(cmd, body, n, eot)) == Some(Footer(n, eot))
  {
    FooterTextOpensWithTag(n, eot);
    FooterFollowsBody(cmd, body, FooterText(n, eot));
    FooterAfter(Head(cmd) + body, n, eot);
  }

  lemma FragmentContent(cmd: string, body: string, f: string)
    requires IsCommandEcho(cmd) && IsFragmentBody(body)
    requires IndexOfIgnoreCase(Head(cmd) + body + f, "<Footer") == Some(|Head(cmd)| + |body|)
    ensures ExtractXmlContent(Head(cmd) + body + f) == body
  {
    var h := Head(cmd);
    var m := h + body + f;
    DeclarationIndex(cmd, body, f);
    assert |body| >= 5;
    assert m[|h|..|h| + |body|] == body;
  }

  /** The first `<Footer` of a fragment is the one right after its body. */
  lemma FooterFollowsBody(cmd: string, body: string, f: string)
    requires IsCommandEcho(cmd) && !ContainsIgnoreCase(body, "<Footer")
    requires StartsWithIgnoreCase(f, "<Footer")
    ensures IndexOfIgnoreCase(Head(cmd) + body + f, "<Footer") == Some(|Head(cmd) + body|)
  {
    FooterIndex(cmd, body, f);
  }

  /** Neither tag starts inside a fragment's head: its only `<` is followed by `X`. */
  lemma HeadHasNoTag(cmd: string, rest: string, tag: string)
    requires '<' !in cmd
    requires tag == "<?xml" || tag == "<Footer"
    ensures forall k | 0 <= k < |Head(cmd)| :: !OccursAt(Upper(Head(cmd) + rest), Upper(tag), k)
  {
    var s := Head(cmd) + rest;
    var u := Upper(s);
    var t := Upper(tag);
    assert t[0] == '<' && t[1] != 'X';
    forall k | 0 <= k < |Head(cmd)|
      ensures !OccursAt(u, t, k)
    {
      if k + |t| <= |u| {
        assert s[k] == Head(cmd)[k];
        if k >= |cmd| {
          assert Head(cmd)[k] == ",<XML>,\n"[k - |cmd|];
        }
        if k == |cmd| + 1 {
          assert s[k + 1] == 'X';
          assert u[k..k + |t|][1] == u[k + 1] != t[1];
        } else {
          assert u[k] != '<';
          assert u[k..k + |t|][0] == u[k];
        }
      }
    }
  }

  /** Neither tag repeats its opening `<`. */
  lemma TagsOpenOnce()
    ensures Upper("<?xml")[0] !in Upper("<?xml")[1..]
    ensures Upper("<Footer")[0] !in Upper("<Footer")[1..]
  {
    assert Upper("<?xml") == "<?XML";
    assert Upper("<Footer") == "<FOOTER";
  }

  /** The first declaration of a fragment is where its body starts. */
  lemma DeclarationIndex(cmd: string, body: string, f: string)
    requires IsCommandEcho(cmd) && StartsWithIgnoreCase(body, "<?xml")
    ensures IndexOfIgnoreCase(Head(cmd) + body + f, "<?xml") == Some(|Head(cmd)|)
  {
    var h := Head(cmd);
    var m := h + body + f;
    HeadHasNoTag(cmd, "", "<?xml");
    assert h + "" == h;
    assert !ContainsIgnoreCase(h, "<?xml");
    assert m[..|h|] == h;
    assert m[|h|..][..5] == body[..5];
    TagsOpenOnce();
    FirstOccurrenceAt(m, "<?xml", |h|);
  }

  /** The first footer tag of a fragment is where its footer starts. */
  lemma FooterIndex(cmd: string, body: string, f: string)
    requires IsCommandEcho(cmd) && !ContainsIgnoreCase(body, "<Footer")
    requires StartsWithIgnoreCase(f, "<Footer")
    ensures IndexOfIgnoreCase(Head(cmd) + body + f, "<Footer") == Some(|Head(cmd)| + |body|)
  {
    var h := Head(cmd);
    var m := h + body + f;
    var p := |h| + |body|;
    HeadAndBodyHaveNoFooter(cmd, body);
    assert m[..p] == h + body;
    assert m[p..] == f;
    TagsOpenOnce();
    FirstOccurrenceAt(m, "<Footer", p);
  }

  lemma HeadAndBodyHaveNoFooter(cmd: string, body: string)
    requires IsCommandEcho(cmd) && !ContainsIgnoreCase(body, "<Footer")
    ensures !ContainsIgnoreCase(Head(cmd) + body, "<Footer")
  {
    HeadHasNoTag(cmd, body, "<Footer");
    UpperAppend(Head(cmd), body);
    NoOccurrenceAfter(Upper(Head(cmd)), Upper(body), Upper("<Footer"));
  }
}
