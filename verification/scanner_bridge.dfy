/**
 * The bridges' command path. The base class normalises a command, tells
 * the `DataSent` observers, and hands it to the transport; the UDP and
 * serial transports arm their receiver, transmit the command with a
 * carriage return, and wait for the reply or the timer.
 *
 * The race between the reply and the timer is made explicit: the
 * datagrams (or serial characters) that arrive before the deadline are an
 * argument, and the reply wins when they resolve the receiver's slot.
 *
 * Each layer of the program is its own function: `Announce` is the base
 * class's template method, `UdpCore` and `SerialCore` the transports'
 * `SendAndReceiveCoreAsync`, and `Awaited` the armed wait they share. The
 * transport layers take the normalised command as an argument.
 */
module ScannerBridge {
  import opened Wrappers
  import opened Text
  import opened ResponseSlot
  import Udp = UdpDataReceiver
  import Serial = SerialDataReceiver

  const Timeout := "TIMEOUT"
  const Disconnected := "DISCONNECTED"

  /** What the bridge does that someone outside can see, in order. */
  datatype Effect =
    | DataSent(text: string)             // the `DataSent` observers are told
    | ExpectReply(multiPacket: bool)     // the receiver is armed
    | Transmit(bytes: string)            // the command goes out on the wire
    | AwaitReply(timeoutMs: nat)         // the timer starts
    | DataReceived(text: string)         // the `DataReceived` observers are told

  /** One call: the bridge afterwards, what happened, and the string returned. */
  datatype Exchange<B> = Exchange(bridge: B, effects: seq<Effect>, result: string)

  // ------------------------------------------------------- normalisation

  /** No character changes when upper-cased. */
  predicate IsUpperCase(s: string) {
    forall k :: 0 <= k < |s| ==> UpperChar(s[k]) == s[k]
  }

  /** `NormalizeCommand`: upper case, then trimmed. */
  function NormalizeCommand(command: string): (r: string)
    ensures IsTrimmed(r) && IsUpperCase(r)
    ensures exists i :: BlankSurrounded(Upper(command), r, i)
  {
    UpperIsUpperCase(command);
    TrimKeepsUpperCase(Upper(command));
    Trim(Upper(command))
  }

  lemma UpperIsUpperCase(s: string)
    ensures IsUpperCase(Upper(s))
  {
  }

  lemma TrimKeepsUpperCase(u: string)
    requires IsUpperCase(u)
    ensures IsUpperCase(Trim(u))
  {
    var r := Trim(u);
    var i :| BlankSurrounded(u, r, i);
    forall k | 0 <= k < |r| ensures UpperChar(r[k]) == r[k] {
      assert r[k] == u[i + k];
    }
  }

  lemma UpperOfUpperCase(s: string)
    requires IsUpperCase(s)
    ensures Upper(s) == s
  {
  }

  /** A normalised command is left as it is by a second normalisation. */
  lemma NormalizeIdempotent(command: string)
    ensures NormalizeCommand(NormalizeCommand(command)) == NormalizeCommand(command)
  {
    var n := NormalizeCommand(command);
    UpperOfUpperCase(n);
    TrimOfTrimmed(n);
  }

  // ------------------------------------------------------------ effects

  /** How many times the `DataSent` observers were told. */
  function SentCount(effects: seq<Effect>): nat
    decreases |effects|
  {
    if |effects| == 0 then 0
    else (if effects[0].DataSent? then 1 else 0) + SentCount(effects[1..])
  }

  /** Effects none of which tells the `DataSent` observers count zero. */
  lemma {:induction false} NoneSent(effects: seq<Effect>)
    requires forall k :: 0 <= k < |effects| ==> !effects[k].DataSent?
    ensures SentCount(effects) == 0
    decreases |effects|
  {
    if |effects| > 0 {
      NoneSent(effects[1..]);
    }
  }

  /** Each message raised by a receiver, in order, as seen by the bridge's observers. */
  function Received(messages: seq<string>): (r: seq<Effect>)
    ensures |r| == |messages|
    ensures forall k :: 0 <= k < |r| ==> r[k] == DataReceived(messages[k])
    decreases |messages|
  {
    if |messages| == 0 then [] else [DataReceived(messages[0])] + Received(messages[1..])
  }

  /**
   * The base class's template method: the observers hear the normalised
   * command before the transport does anything with it.
   */
  function Announce<B>(n: string, core: Exchange<B>): (x: Exchange<B>)
    ensures x.bridge == core.bridge && x.result == core.result
    ensures |x.effects| == 1 + |core.effects|
    ensures x.effects[0] == DataSent(n) && x.effects[1..] == core.effects
    ensures forall k :: 0 <= k < |core.effects| ==> x.effects[k + 1] == core.effects[k]
    ensures SentCount(x.effects) == 1 + SentCount(core.effects)
  {
    var effects := [DataSent(n)] + core.effects;
    assert effects[1..] == core.effects;
    Exchange(core.bridge, effects, core.result)
  }

  /** The way the timer race ended. */
  datatype Outcome = Answered(value: string) | TimedOut

  /** `Task.WhenAny` over the armed slot and the timer, given what arrived in time. */
  function Race(slot: Slot): (o: Outcome)
    ensures o.Answered? <==> slot.Resolved?
    ensures o.Answered? ==> o.value == slot.value
  {
    if slot.Resolved? then Answered(slot.value) else TimedOut
  }

  /** What the transport returns for an outcome. */
  function ResultText(o: Outcome): (r: string)
    ensures o.Answered? ==> r == o.value
    ensures o.TimedOut? ==> r == Timeout
  {
    match o
    case Answered(v) => v
    case TimedOut => Timeout
  }

  /**
   * The armed wait both transports share: arm, transmit the command and a
   * carriage return, start the timer, then pass on what the receiver
   * raised and return the reply or `TIMEOUT`. `after` is the bridge once
   * the wait is over.
   */
  function Awaited<B>(after: B, n: string, multi: bool, waitMs: nat, emitted: seq<string>, slot: Slot): (x: Exchange<B>)
    ensures x.bridge == after
    ensures |x.effects| == 3 + |emitted|
    ensures x.effects[0] == ExpectReply(multi)
    ensures x.effects[1] == Transmit(n + "\r")
    ensures x.effects[2] == AwaitReply(waitMs)
    ensures forall k :: 0 <= k < |emitted| ==> x.effects[3 + k] == DataReceived(emitted[k])
    ensures SentCount(x.effects) == 0
    ensures slot.Resolved? ==> x.result == slot.value
    ensures !slot.Resolved? ==> x.result == Timeout
  {
    var effects := [ExpectReply(multi), Transmit(n + "\r"), AwaitReply(waitMs)] + Received(emitted);
    NoneSent(effects);
    Exchange(after, effects, ResultText(Race(slot)))
  }

  /** `SendCommandCoreAsync` on either transport: the command is written when the transport can write. */
  function SendCore<B>(b: B, n: string, writable: bool): (x: Exchange<B>)
    ensures x.bridge == b
    ensures |x.effects| == if writable then 1 else 0
    ensures writable ==> x.effects[0] == Transmit(n + "\r")
    ensures SentCount(x.effects) == 0
  {
    var effects := if writable then [Transmit(n + "\r")] else [];
    NoneSent(effects);
    Exchange(b, effects, "")
  }

  // ---------------------------------------------------------------- UDP

  /** The multi-packet reply commands, compared ignoring case. */
  const MultiPacketCommands: set<string> := {"GLT"}

  predicate EqualsIgnoreCase(a: string, b: string) {
    Upper(a) == Upper(b)
  }

  /** The command's name: its first comma-separated field, trimmed. */
  function CommandName(command: string): string {
    Trim(BeforeFirst(command, ','))
  }

  /** `IsMultiPacketXmlCommand`: the command's name is in the multi-packet set, ignoring case. */
  predicate IsMultiPacket(command: string) {
    exists m | m in MultiPacketCommands :: EqualsIgnoreCase(CommandName(command), m)
  }

  /** The set has one member, so being multi-packet is being named `GLT` in any case. */
  lemma MultiPacketIsGlt(command: string)
    ensures IsMultiPacket(command) <==> Upper(CommandName(command)) == "GLT"
  {
    assert Upper("GLT") == "GLT";
    assert "GLT" in MultiPacketCommands;
  }

  /** A name followed by arguments: the name is what stands before the first comma. */
  lemma BeforeFirstOfField(name: string, args: string)
    requires ',' !in name
    ensures BeforeFirst(name + "," + args, ',') == name
    ensures BeforeFirst(name, ',') == name
  {
    var s := name + "," + args;
    var r := BeforeFirst(s, ',');
    assert s[|name|] == ',';
    assert s[..|name|] == name;
    assert forall k :: 0 <= k < |name| ==> s[k] != ',';
    assert |r| == |name|;
    assert r == name;
  }

  /** Only the command name decides: the arguments after the first comma never matter. */
  lemma ArgumentsDoNotMatter(name: string, args: string)
    requires ',' !in name
    ensures IsMultiPacket(name + "," + args) <==> IsMultiPacket(name)
  {
    BeforeFirstOfField(name, args);
  }

  /** A name with no comma and no surrounding blanks is the command name, with or without arguments. */
  lemma CommandNameOf(name: string, args: string)
    requires ',' !in name && IsTrimmed(name)
    ensures CommandName(name) == name
    ensures CommandName(name + "," + args) == name
  {
    BareName(name);
    NameWithArgs(name, args);
  }

  lemma BareName(name: string)
    requires ',' !in name && IsTrimmed(name)
    ensures CommandName(name) == name
  {
    BeforeFirstOfField(name, "");
    TrimOfTrimmed(name);
  }

  lemma NameWithArgs(name: string, args: string)
    requires ',' !in name && IsTrimmed(name)
    ensures CommandName(name + "," + args) == name
  {
    BeforeFirstOfField(name, args);
    TrimOfTrimmed(name);
  }

  /** `GLT` asks for a multi-packet reply in any case and with any arguments. */
  lemma GltIsMultiPacket(args: string)
    ensures IsMultiPacket("GLT")
    ensures IsMultiPacket("glt," + args)
  {
    GltBare();
    GltLowerWithArgs(args);
  }

  lemma GltBare()
    ensures IsMultiPacket("GLT")
  {
    CapitalMultiPacket("GLT");
  }

  lemma GltLowerWithArgs(args: string)
    ensures IsMultiPacket("glt," + args)
  {
    assert "glt," + args == "glt" + "," + args;
    NameWithArgs("glt", args);
    assert Upper("glt") == "GLT";
    NamedMultiPacket("glt," + args, "glt");
  }

  /** A bare name in capitals is its own command name and its own upper case. */
  predicate IsCapitalName(name: string) {
    ',' !in name && IsTrimmed(name) && forall k :: 0 <= k < |name| ==> 'A' <= name[k] <= 'Z'
  }

  lemma CapitalMultiPacket(name: string)
    requires IsCapitalName(name) && name == "GLT"
    ensures IsMultiPacket(name)
  {
    BareName(name);
    UpperOfCapitals(name);
    NamedMultiPacket(name, name);
  }

  lemma CapitalSinglePacket(name: string)
    requires IsCapitalName(name) && name != "GLT"
    ensures !IsMultiPacket(name)
  {
    BareName(name);
    UpperOfCapitals(name);
    NamedSinglePacket(name, name);
  }

  lemma NamedMultiPacket(command: string, name: string)
    requires CommandName(command) == name && Upper(name) == "GLT"
    ensures IsMultiPacket(command)
  {
    MultiPacketIsGlt(command);
  }

  lemma NamedSinglePacket(command: string, name: string)
    requires CommandName(command) == name && Upper(name) != "GLT"
    ensures !IsMultiPacket(command)
  {
    MultiPacketIsGlt(command);
  }

  lemma UpperOfCapitals(s: string)
    requires forall k :: 0 <= k < |s| ==> 'A' <= s[k] <= 'Z'
    ensures Upper(s) == s
  {
  }

  const MultiPacketFloorMs: nat := 10000

  /** The timer of a call: at least ten seconds for a multi-packet reply, the caller's otherwise. */
  function EffectiveTimeout(multiPacket: bool, timeoutMs: nat): (r: nat)
    ensures r >= timeoutMs
    ensures multiPacket ==> r >= MultiPacketFloorMs && (r == timeoutMs || r == MultiPacketFloorMs)
    ensures !multiPacket ==> r == timeoutMs
  {
    if multiPacket && timeoutMs < MultiPacketFloorMs then MultiPacketFloorMs else timeoutMs
  }

  /** The UDP bridge: which of its parts exist, the receiver's state, and `IsConnected`. */
  datatype UdpBridge = UdpBridge(hasClient: bool, hasEndpoint: bool, receiver: Option<Udp.Receiver>, connected: bool)

  const UdpUnconnected := UdpBridge(false, false, None, false)

  /** The client, the endpoint and the receiver all exist. */
  predicate UdpWired(b: UdpBridge) {
    b.hasClient && b.hasEndpoint && b.receiver.Some?
  }

  /** What the armed receiver makes of the datagrams that arrive in time. */
  function UdpRun(b: UdpBridge, multi: bool, arrivals: seq<string>): Udp.Run
    requires UdpWired(b)
  {
    Udp.Deliver(Udp.ExpectResponse(b.receiver.value, multi), arrivals)
  }

  /**
   * `SendAndReceiveCoreAsync` on the UDP bridge, given the normalised
   * command `n`. `arrivals` are the datagrams (after the receive loop's
   * trimming and blank filter) that reach the receiver before the timer.
   */
  function UdpCore(b: UdpBridge, n: string, timeoutMs: nat, arrivals: seq<string>): (x: Exchange<UdpBridge>)
    ensures SentCount(x.effects) == 0
    ensures !UdpWired(b) ==> x == Exchange(b, [], Disconnected)
    ensures UdpWired(b) ==>
              var multi := IsMultiPacket(n);
              var run := UdpRun(b, multi, arrivals);
              && |x.effects| == 3 + |run.emitted|
              && x.effects[0] == ExpectReply(multi)
              && x.effects[1] == Transmit(n + "\r")
              && x.effects[2] == AwaitReply(EffectiveTimeout(multi, timeoutMs))
              && (forall k :: 0 <= k < |run.emitted| ==> x.effects[3 + k] == DataReceived(run.emitted[k]))
              && UdpWired(x.bridge) && x.bridge.receiver == Some(run.rx)
              && (run.rx.slot.Resolved? ==> x.result == run.rx.slot.value && x.bridge.connected)
              && (!run.rx.slot.Resolved? ==> x.result == Timeout && x.bridge.connected == b.connected)
  {
    if !UdpWired(b) then Exchange(b, [], Disconnected)
    else
      var multi := IsMultiPacket(n);
      var run := UdpRun(b, multi, arrivals);
      var after := b.(receiver := Some(run.rx), connected := run.rx.slot.Resolved? || b.connected);
      Awaited(after, n, multi, EffectiveTimeout(multi, timeoutMs), run.emitted, run.rx.slot)
  }

  /** `SendAndReceiveAsync` on the UDP bridge. */
  function UdpSendAndReceive(b: UdpBridge, command: string, timeoutMs: nat, arrivals: seq<string>): (x: Exchange<UdpBridge>)
    ensures |x.effects| > 0 && x.effects[0] == DataSent(NormalizeCommand(command))
    ensures SentCount(x.effects) == 1
    ensures !UdpWired(b) ==> x.result == Disconnected && x.bridge == b && |x.effects| == 1
    ensures UdpWired(b) ==> UdpWired(x.bridge)
  {
    Announce(NormalizeCommand(command), UdpCore(b, NormalizeCommand(command), timeoutMs, arrivals))
  }

  /** `SendCommandAsync` on the UDP bridge: written when the client and the endpoint exist. */
  function UdpSendCommand(b: UdpBridge, command: string): (effects: seq<Effect>)
    ensures |effects| > 0 && effects[0] == DataSent(NormalizeCommand(command))
    ensures SentCount(effects) == 1
    ensures |effects| == 2 <==> b.hasClient && b.hasEndpoint
    ensures |effects| <= 2
    ensures |effects| == 2 ==> effects[1] == Transmit(NormalizeCommand(command) + "\r")
  {
    Announce(NormalizeCommand(command), SendCore(b, NormalizeCommand(command), b.hasClient && b.hasEndpoint)).effects
  }

  /** The outcome of a UDP call, read off the armed receiver after the arrivals. */
  function UdpOutcome(b: UdpBridge, n: string, arrivals: seq<string>): Outcome
    requires UdpWired(b)
  {
    Race(UdpRun(b, IsMultiPacket(n), arrivals).rx.slot)
  }

  /**
   * The transport's answer and connectedness: a reply in time is returned
   * and marks the scanner alive; otherwise `TIMEOUT`, and `IsConnected` is
   * kept.
   */
  lemma UdpAnswerOrTimeout(b: UdpBridge, command: string, timeoutMs: nat, arrivals: seq<string>)
    requires UdpWired(b)
    ensures var x := UdpSendAndReceive(b, command, timeoutMs, arrivals);
            var o := UdpOutcome(b, NormalizeCommand(command), arrivals);
            && (o.Answered? ==> x.result == o.value && x.bridge.connected)
            && (o.TimedOut? ==> x.result == Timeout && x.bridge.connected == b.connected)
  {
  }

  /** The effects of a wired UDP call, in order: announce, arm, transmit, wait, then what was raised. */
  lemma UdpEffectOrder(b: UdpBridge, command: string, timeoutMs: nat, arrivals: seq<string>)
    requires UdpWired(b)
    ensures var x := UdpSendAndReceive(b, command, timeoutMs, arrivals);
            var n := NormalizeCommand(command);
            var multi := IsMultiPacket(n);
            && x.effects[..4] == [DataSent(n), ExpectReply(multi), Transmit(n + "\r"), AwaitReply(EffectiveTimeout(multi, timeoutMs))]
            && x.effects[4..] == Received(UdpRun(b, multi, arrivals).emitted)
  {
    var n := NormalizeCommand(command);
    var multi := IsMultiPacket(n);
    var core := UdpCore(b, n, timeoutMs, arrivals);
    EffectOrder(n, multi, EffectiveTimeout(multi, timeoutMs), UdpRun(b, multi, arrivals).emitted, core.effects);
  }

  /** A call's effects, read index by index, are the announcement, the armed wait's three, and what was raised. */
  lemma EffectOrder(n: string, multi: bool, waitMs: nat, emitted: seq<string>, core: seq<Effect>)
    requires |core| == 3 + |emitted|
    requires core[0] == ExpectReply(multi) && core[1] == Transmit(n + "\r") && core[2] == AwaitReply(waitMs)
    requires forall k :: 0 <= k < |emitted| ==> core[3 + k] == DataReceived(emitted[k])
    ensures var effects := Announce(n, Exchange(0, core, "")).effects;
            && effects[..4] == [DataSent(n), ExpectReply(multi), Transmit(n + "\r"), AwaitReply(waitMs)]
            && effects[4..] == Received(emitted)
  {
    var effects := Announce(n, Exchange(0, core, "")).effects;
    assert effects[4..] == core[3..];
    assert core[3..] == Received(emitted);
  }

  /** No datagram in time: the call times out and the connection state is kept. */
  lemma UdpSilenceTimesOut(b: UdpBridge, command: string, timeoutMs: nat)
    requires UdpWired(b)
    ensures var x := UdpSendAndReceive(b, command, timeoutMs, []);
            x.result == Timeout && x.bridge.connected == b.connected
  {
  }

  /** A single-packet command is answered by the first datagram that arrives in time. */
  lemma UdpFirstDatagramAnswers(b: UdpBridge, command: string, timeoutMs: nat, arrivals: seq<string>)
    requires UdpWired(b) && !IsMultiPacket(NormalizeCommand(command)) && |arrivals| > 0
    ensures var x := UdpSendAndReceive(b, command, timeoutMs, arrivals);
            x.result == arrivals[0] && x.bridge.connected
  {
    UdpFirstReply(b, arrivals);
  }

  lemma UdpFirstReply(b: UdpBridge, arrivals: seq<string>)
    requires UdpWired(b) && |arrivals| > 0
    ensures UdpRun(b, false, arrivals).rx.slot == Resolved(arrivals[0])
  {
    var armed := Udp.ExpectResponse(b.receiver.value, false);
    Udp.PlainRepliesPassThrough(armed, arrivals);
    FirstOfferWins(arrivals);
  }

  /**
   * A `GLT` call whose fragments all arrive in time returns the command
   * echo, a comma and the fragments' XML text joined in arrival order.
   */
  lemma UdpGltReplyAssembled(b: UdpBridge, command: string, timeoutMs: nat,
                             echo: string, bodies: seq<string>, numbers: seq<nat>)
    requires UdpWired(b) && IsMultiPacket(NormalizeCommand(command))
    requires Udp.IsCommandEcho(echo)
    requires |bodies| > 0 && |numbers| == |bodies|
    requires forall i | 0 <= i < |bodies| :: Udp.IsFragmentBody(bodies[i])
    ensures var x := UdpSendAndReceive(b, command, timeoutMs, Udp.Fragments(echo, bodies, numbers));
            x.result == echo + "," + Udp.Concat(bodies) && x.bridge.connected
  {
    UdpAssembled(b, echo, bodies, numbers);
  }

  lemma UdpAssembled(b: UdpBridge, echo: string, bodies: seq<string>, numbers: seq<nat>)
    requires UdpWired(b)
    requires Udp.IsCommandEcho(echo)
    requires |bodies| > 0 && |numbers| == |bodies|
    requires forall i | 0 <= i < |bodies| :: Udp.IsFragmentBody(bodies[i])
    ensures UdpRun(b, true, Udp.Fragments(echo, bodies, numbers)).rx.slot == Resolved(echo + "," + Udp.Concat(bodies))
  {
    var armed := Udp.ExpectResponse(b.receiver.value, true);
    Udp.AssembleReply(armed, echo, bodies, numbers);
    assert echo + "," + armed.buffer + Udp.Concat(bodies) == echo + "," + Udp.Concat(bodies);
  }

  const ProbeCommand := "MDL"
  const ProbeTimeoutMs: nat := 2000

  /**
   * `ConnectAsync` on the UDP bridge: a new client, endpoint and receiver,
   * then an `MDL` probe; the bridge is connected exactly when the probe
   * returned neither sentinel.
   */
  function UdpConnect(b: UdpBridge, arrivals: seq<string>): (x: Exchange<UdpBridge>)
    ensures x.bridge.connected <==> x.result != Timeout && x.result != Disconnected
    ensures UdpWired(x.bridge)
    ensures |x.effects| > 0 && x.effects[0] == DataSent(ProbeCommand)
  {
    ProbeIsNormal();
    Settle(UdpSendAndReceive(UdpBridge(true, true, Some(Udp.Idle), b.connected), ProbeCommand, ProbeTimeoutMs, arrivals))
  }

  /** `IsConnected` after the probe: neither sentinel came back. */
  function Settle(probe: Exchange<UdpBridge>): (x: Exchange<UdpBridge>)
    ensures x.bridge.connected <==> x.result != Timeout && x.result != Disconnected
    ensures x.bridge == probe.bridge.(connected := x.bridge.connected)
    ensures x.effects == probe.effects && x.result == probe.result
  {
    Exchange(probe.bridge.(connected := probe.result != Timeout && probe.result != Disconnected), probe.effects, probe.result)
  }

  /** The probe is already normal, and it is answered in one datagram. */
  lemma ProbeIsNormal()
    ensures NormalizeCommand(ProbeCommand) == ProbeCommand
    ensures !IsMultiPacket(ProbeCommand)
  {
    ProbeNormalizes();
    ProbeSinglePacket();
  }

  lemma ProbeNormalizes()
    ensures NormalizeCommand(ProbeCommand) == ProbeCommand
  {
    UpperOfCapitals(ProbeCommand);
    TrimOfTrimmed(ProbeCommand);
  }

  lemma ProbeSinglePacket()
    ensures !IsMultiPacket(ProbeCommand)
  {
    CapitalSinglePacket(ProbeCommand);
  }

  /** A scanner that answers the probe is connected; a silent one is not. */
  lemma UdpProbeDecides(b: UdpBridge, reply: string)
    requires reply != Timeout && reply != Disconnected
    ensures UdpConnect(b, [reply]).bridge.connected
    ensures !UdpConnect(b, []).bridge.connected
  {
    var wired := UdpBridge(true, true, Some(Udp.Idle), b.connected);
    ProbeIsNormal();
    UdpFirstDatagramAnswers(wired, ProbeCommand, ProbeTimeoutMs, [reply]);
    UdpSilenceTimesOut(wired, ProbeCommand, ProbeTimeoutMs);
  }

  // ------------------------------------------------------------- serial

  /** The serial bridge: whether its port is open, and its receiver's state. */
  datatype SerialBridge = SerialBridge(portOpen: bool, receiver: Option<Serial.Receiver>)

  /** `IsConnected` is the port's open state and nothing else. */
  function SerialIsConnected(b: SerialBridge): (r: bool)
    ensures r <==> b.portOpen
  {
    b.portOpen
  }

  /** The serial bridge puts a command on the wire exactly when it reports itself connected. */
  lemma SerialTransmitsIffConnected(b: SerialBridge, command: string)
    ensures SerialIsConnected(b) <==> Transmit(NormalizeCommand(command) + "\r") in SerialSendCommand(b, command)
  {
    var effects := SerialSendCommand(b, command);
    if !SerialIsConnected(b) {
      assert effects == [effects[0]];
    }
  }

  /** `ConnectAsync` on the serial bridge: a new receiver, and the port opened. */
  function SerialConnect(b: SerialBridge): (r: SerialBridge)
    ensures SerialIsConnected(r) && r.receiver == Some(Serial.Idle)
  {
    SerialBridge(true, Some(Serial.Idle))
  }

  /** What the armed serial receiver makes of the text read in time. */
  function SerialRun(b: SerialBridge, arrived: string): Serial.Chunked
    requires b.receiver.Some?
  {
    Serial.ProcessChunk(Serial.ExpectResponse(b.receiver.value, false), arrived)
  }

  /**
   * `SendAndReceiveCoreAsync` on the serial bridge, given the normalised
   * command `n`. `arrived` is the text read from the port before the
   * caller's timeout, which is used as it is.
   */
  function SerialCore(b: SerialBridge, n: string, timeoutMs: nat, arrived: string): (x: Exchange<SerialBridge>)
    ensures SentCount(x.effects) == 0
    ensures x.bridge.portOpen == b.portOpen
    ensures !b.portOpen || b.receiver.None? ==> x == Exchange(b, [], Disconnected)
    ensures b.portOpen && b.receiver.Some? ==>
              var r := SerialRun(b, arrived);
              && |x.effects| == 3 + |r.lines|
              && x.effects[0] == ExpectReply(false)
              && x.effects[1] == Transmit(n + "\r")
              && x.effects[2] == AwaitReply(timeoutMs)
              && x.bridge.receiver == Some(r.rx)
              && (r.rx.slot.Resolved? ==> x.result == r.rx.slot.value)
              && (!r.rx.slot.Resolved? ==> x.result == Timeout)
  {
    if !SerialIsConnected(b) || b.receiver.None? then Exchange(b, [], Disconnected)
    else
      var r := SerialRun(b, arrived);
      Awaited(b.(receiver := Some(r.rx)), n, false, timeoutMs, r.lines, r.rx.slot)
  }

  /** `SendAndReceiveAsync` on the serial bridge. */
  function SerialSendAndReceive(b: SerialBridge, command: string, timeoutMs: nat, arrived: string): (x: Exchange<SerialBridge>)
    ensures |x.effects| > 0 && x.effects[0] == DataSent(NormalizeCommand(command))
    ensures SentCount(x.effects) == 1
    ensures x.bridge.portOpen == b.portOpen
    ensures !b.portOpen ==> x.result == Disconnected && x.bridge == b && |x.effects| == 1
  {
    Announce(NormalizeCommand(command), SerialCore(b, NormalizeCommand(command), timeoutMs, arrived))
  }

  /** `SendCommandAsync` on the serial bridge: written only while the port is open. */
  function SerialSendCommand(b: SerialBridge, command: string): (effects: seq<Effect>)
    ensures |effects| > 0 && effects[0] == DataSent(NormalizeCommand(command))
    ensures SentCount(effects) == 1
    ensures |effects| == 2 <==> b.portOpen
    ensures |effects| <= 2
    ensures |effects| == 2 ==> effects[1] == Transmit(NormalizeCommand(command) + "\r")
  {
    Announce(NormalizeCommand(command), SendCore(b, NormalizeCommand(command), SerialIsConnected(b))).effects
  }

  /**
   * Over serial the first complete line in time is the answer, even for an
   * XML command; with no complete line the call times out.
   */
  lemma SerialFirstLineAnswers(b: SerialBridge, command: string, timeoutMs: nat, arrived: string)
    requires b.portOpen && b.receiver.Some?
    ensures var x := SerialSendAndReceive(b, command, timeoutMs, arrived);
            var lines := SerialRun(b, arrived).lines;
            && (|lines| > 0 ==> x.result == lines[0])
            && (|lines| == 0 ==> x.result == Timeout)
  {
    SerialFirstLine(b, arrived);
  }

  lemma SerialFirstLine(b: SerialBridge, arrived: string)
    requires b.receiver.Some?
    ensures var r := SerialRun(b, arrived);
            && (|r.lines| > 0 ==> r.rx.slot == Resolved(r.lines[0]))
            && (|r.lines| == 0 ==> r.rx.slot == Pending)
  {
    var armed := Serial.ExpectResponse(b.receiver.value, false);
    Serial.FirstLineResolves(b.receiver.value, false, arrived);
    Serial.LinesAreOffered(armed, arrived);
  }

  /** Text without a carriage return never completes a serial call. */
  lemma SerialPartialLineTimesOut(b: SerialBridge, command: string, timeoutMs: nat, arrived: string)
    requires b.portOpen && b.receiver.Some? && Serial.NoCr(arrived)
    ensures SerialSendAndReceive(b, command, timeoutMs, arrived).result == Timeout
  {
    var armed := Serial.ExpectResponse(b.receiver.value, false);
    Serial.NoCrBuffered(armed, arrived);
  }

  /** Right after `ConnectAsync` a serial call goes out on the port. */
  lemma SerialConnectedCallsGoOut(b: SerialBridge, command: string, timeoutMs: nat, arrived: string)
    ensures var x := SerialSendAndReceive(SerialConnect(b), command, timeoutMs, arrived);
            |x.effects| >= 4 && x.effects[2] == Transmit(NormalizeCommand(command) + "\r")
  {
  }
}
