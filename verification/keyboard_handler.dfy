/**
 * `KeyboardHandler`: the key-press state machine of the console. Outside
 * Command mode single keys switch views, toggle recording and muting or ask
 * to quit; in Command mode keys edit a command line that Enter sends to the
 * scanner, logging the exchange to a command history.
 *
 * A key press is one step. The bridge calls it makes are returned as a list,
 * and the reply to a manual command is an argument. The clock readings of a
 * key press are arguments as well: the system clock that stamps the keyboard
 * log, and the time provider before and after the bridge call.
 */
module KeyboardHandler {
  import opened Text
  import CappedQueue
  import ScannerBridge

  const MaxCommandHistorySize: nat := 50
  const MaxDebugLogSize: nat := 5
  const DefaultMaxKeyboardLogSize: nat := 10
  /** `TimeSpan.FromSeconds(2)`, the wait for a manual command's reply. */
  const CommandTimeoutMs: nat := 2000

  datatype ViewMode = Main | Debug | Command

  /** The console key of a press, as far as the handler tells keys apart. */
  datatype ConsoleKey = Escape | Enter | Backspace | OtherKey

  datatype KeyPress = KeyPress(key: ConsoleKey, keyChar: char)

  /** The clock readings one key press may take. */
  datatype Clock = Clock(system: string, before: string, after: string)

  /** The name a key press is logged under. */
  datatype KeyLabel =
    | PressedD | PressedR | PressedM | PressedV | PressedC | PressedQ | PressedSpace
    | Unknown(keyChar: char)

  /** An entry of the keyboard log: `[time] KEY PRESSED: <label>`. */
  datatype KeyLogEntry = KeyLogEntry(time: string, pressed: KeyLabel)

  datatype BridgeCall =
    | SendCommand(command: string)
    | SendAndReceive(command: string, timeoutMs: nat)

  datatype Handler = Handler(
    viewMode: ViewMode,
    spacebarHeld: bool,
    muteState: bool,
    recordState: bool,
    quitRequested: bool,
    commandInput: string,
    commandHistory: seq<string>,
    keyboardLog: seq<KeyLogEntry>,
    debugLog: seq<string>,
    maxKeyboardLogSize: nat)

  /** The handler and the bridge calls one key press made, in order. */
  datatype Reaction = Reaction(handler: Handler, calls: seq<BridgeCall>)

  /** A new handler: Main view, every flag off, empty command line and history. */
  function Create(debugLog: seq<string>, maxKeyboardLogSize: nat): (h: Handler)
    ensures h.viewMode == Main && h.commandInput == "" && h.commandHistory == []
    ensures !h.spacebarHeld && !h.muteState && !h.recordState && !h.quitRequested
  {
    Handler(Main, false, false, false, false, "", [], [], debugLog, maxKeyboardLogSize)
  }

  /** The label text of the keys the markup constants name. */
  function LabelText(l: KeyLabel): string
    requires !l.PressedC? && !l.PressedQ?
  {
    match l
    case PressedD => "D (Toggle Debug View)"
    case PressedR => "R (Record Toggle)"
    case PressedM => "M (Mute Toggle)"
    case PressedV => "V (Volume)"
    case PressedSpace => "SPACE (Hotkey Help)"
    case Unknown(c) => "Unknown: " + [c]
  }

  /** The key-character switch that names a press; letters in either case. */
  function KeyLabelOf(c: char): KeyLabel {
    if c == 'D' || c == 'd' then PressedD
    else if c == 'R' || c == 'r' then PressedR
    else if c == 'M' || c == 'm' then PressedM
    else if c == 'V' || c == 'v' then PressedV
    else if c == 'C' || c == 'c' then PressedC
    else if c == 'Q' || c == 'q' then PressedQ
    else if c == ' ' then PressedSpace
    else Unknown(c)
  }

  /**
   * `EnqueueDebug`: appends a stamped message and drops at most ONE old
   * entry, so the log is held at five only if it was within five before.
   */
  function EnqueueDebug(log: seq<string>, time: string, message: string): seq<string> {
    var q := log + ["[" + time + "] " + message];
    if |q| > MaxDebugLogSize then q[1..] else q
  }

  /** A debug log within its cap keeps the newest five entries; a longer one only grows no longer. */
  lemma EnqueueDebugBounds(log: seq<string>, time: string, message: string)
    ensures |log| <= MaxDebugLogSize ==>
              EnqueueDebug(log, time, message)
              == CappedQueue.Newest(log + ["[" + time + "] " + message], MaxDebugLogSize)
    ensures |EnqueueDebug(log, time, message)| == if |log| + 1 > MaxDebugLogSize then |log| else |log| + 1
  {
  }

  function Note(h: Handler, time: string, message: string): Handler {
    h.(debugLog := EnqueueDebug(h.debugLog, time, message))
  }

  /** `HandleKeyAsync`. `reply` is what the bridge answers if the press sends a manual command. */
  function HandleKey(h: Handler, k: KeyPress, clock: Clock, reply: string): (r: Reaction)
    ensures h.viewMode == Command ==> r == HandleCommandModeKey(h, k, clock, reply)
    ensures h.viewMode != Command && k.key == Escape ==>
              r == Reaction(if h.viewMode == Debug then Note(h.(viewMode := Main), clock.before, "Exited Debug View") else h, [])
    ensures h.viewMode != Command && k.key != Escape ==> r == HandleViewKey(h, k.keyChar, clock)
    ensures h.viewMode != Command && k.key != Escape ==>
              r.handler.keyboardLog
              == CappedQueue.Enqueue(h.keyboardLog, KeyLogEntry(clock.system, KeyLabelOf(k.keyChar)), h.maxKeyboardLogSize)
    ensures h.viewMode == Command || k.key == Escape ==> r.handler.keyboardLog == h.keyboardLog
    ensures h.viewMode != Command ==> r.handler.commandHistory == h.commandHistory
    ensures h.viewMode != Command && k.key == Escape ==> r.calls == [] && r.handler.viewMode == Main
  {
    if h.viewMode == Command then HandleCommandModeKey(h, k, clock, reply)
    else if k.key == Escape then
      if h.viewMode == Debug then Reaction(Note(h.(viewMode := Main), clock.before, "Exited Debug View"), [])
      else assert h.viewMode.Main?; Reaction(h, [])
    else HandleViewKey(h, k.keyChar, clock)
  }

  /** The key-character switch outside Command mode, after the press is logged. */
  function HandleViewKey(h: Handler, c: char, clock: Clock): (r: Reaction)
    ensures r.handler.keyboardLog
            == CappedQueue.Enqueue(h.keyboardLog, KeyLogEntry(clock.system, KeyLabelOf(c)), h.maxKeyboardLogSize)
    ensures r.handler.commandHistory == h.commandHistory
    ensures r.handler.maxKeyboardLogSize == h.maxKeyboardLogSize
  {
    ViewAction(LogPress(h, KeyLabelOf(c), clock), KeyLabelOf(c), clock)
  }

  /** The press, added to the keyboard log under its label. */
  function LogPress(h: Handler, l: KeyLabel, clock: Clock): (r: Handler)
    ensures r == h.(keyboardLog := CappedQueue.Enqueue(h.keyboardLog, KeyLogEntry(clock.system, l), h.maxKeyboardLogSize))
  {
    h.(keyboardLog := CappedQueue.Enqueue(h.keyboardLog, KeyLogEntry(clock.system, l), h.maxKeyboardLogSize))
  }

  /** What a labelled key does once it is logged. */
  function ViewAction(h: Handler, l: KeyLabel, clock: Clock): (r: Reaction)
    ensures r.handler.keyboardLog == h.keyboardLog
    ensures r.handler.commandHistory == h.commandHistory
    ensures r.handler.maxKeyboardLogSize == h.maxKeyboardLogSize
  {
    match l
    case PressedD =>
      Reaction(h.(viewMode := if h.viewMode == Main then Debug else Main), [])
    case PressedC =>
      Reaction(Note(h.(viewMode := Command, commandInput := ""), clock.before, "Entered Command Mode"), [])
    case PressedQ =>
      Reaction(Note(h.(quitRequested := true), clock.before, "Quit requested"), [])
    case PressedR =>
      var on := !h.recordState;
      Reaction(Note(h.(recordState := on), clock.after, "Record " + OnOff(on)),
               [SendCommand(if on then "REC,ON" else "REC,OFF")])
    case PressedM =>
      var on := !h.muteState;
      Reaction(Note(h.(muteState := on), clock.after, "Mute " + OnOff(on)),
               [SendCommand(if on then "MUT,ON" else "MUT,OFF")])
    case PressedV =>
      Reaction(Note(h, clock.before, "Volume adjust (TODO)"), [])
    case PressedSpace =>
      Reaction(h.(spacebarHeld := !h.spacebarHeld), [])
    case Unknown(_) =>
      Reaction(h, [])
  }

  function OnOff(on: bool): string {
    if on then "ON" else "OFF"
  }

  /** `char.IsControl`: the C0 controls, DEL and the C1 controls. */
  predicate IsControl(c: char) {
    c <= '\U{1F}' || ('\U{7F}' <= c <= '\U{9F}')
  }

  /** `HandleCommandModeKeyAsync`. */
  function HandleCommandModeKey(h: Handler, k: KeyPress, clock: Clock, reply: string): (r: Reaction)
    ensures r.handler.keyboardLog == h.keyboardLog
    ensures r.handler.maxKeyboardLogSize == h.maxKeyboardLogSize
  {
    if k.key == Escape then
      Reaction(Note(h.(viewMode := Main, commandInput := ""), clock.before, "Exited Command Mode"), [])
    else if k.key == Enter then
      if IsBlank(h.commandInput) then Reaction(h, [])
      else SendCommandAsync(h, h.commandInput, clock, reply)
    else if k.key == Backspace then
      if |h.commandInput| > 0 then Reaction(h.(commandInput := h.commandInput[..|h.commandInput| - 1]), [])
      else Reaction(h, [])
    else if !IsControl(k.keyChar) then
      Reaction(h.(commandInput := h.commandInput + [k.keyChar]), [])
    else
      Reaction(h, [])
  }

  // ── Manual commands ───────────────────────────────────────────────────

  predicate IsLineBreak(c: char) {
    c == '\r' || c == '\n'
  }

  /** The index of the first line break, or the length when there is none. */
  function FirstBreak(s: string): (i: nat)
    ensures i <= |s|
    ensures forall k :: 0 <= k < i ==> !IsLineBreak(s[k])
    ensures i < |s| ==> IsLineBreak(s[i])
    decreases |s|
  {
    if |s| == 0 || IsLineBreak(s[0]) then 0 else 1 + FirstBreak(s[1..])
  }

  /**
   * `Split(new[] { '\r', '\n' }, StringSplitOptions.RemoveEmptyEntries)`:
   * the non-empty runs between line breaks.
   */
  function Lines(s: string): seq<string>
    decreases |s|
  {
    if |s| == 0 then []
    else
      var i := FirstBreak(s);
      var rest := if i < |s| then Lines(s[i + 1..]) else [];
      if i == 0 then rest else [s[..i]] + rest
  }

  /** Every line is non-empty and holds no line break. */
  lemma {:induction false} LinesArePieces(s: string)
    ensures forall k :: 0 <= k < |Lines(s)| ==> |Lines(s)[k]| > 0
    ensures forall k, j :: 0 <= k < |Lines(s)| && 0 <= j < |Lines(s)[k]| ==> !IsLineBreak(Lines(s)[k][j])
    decreases |s|
  {
    if |s| > 0 {
      var i := FirstBreak(s);
      if i < |s| {
        LinesArePieces(s[i + 1..]);
      }
    }
  }

  /** The text with every line break removed. */
  function WithoutBreaks(s: string): string
    decreases |s|
  {
    if |s| == 0 then "" else (if IsLineBreak(s[0]) then "" else [s[0]]) + WithoutBreaks(s[1..])
  }

  function Flatten(lines: seq<string>): string
    decreases |lines|
  {
    if |lines| == 0 then "" else lines[0] + Flatten(lines[1..])
  }

  lemma {:induction false} WithoutBreaksAppend(a: string, b: string)
    ensures WithoutBreaks(a + b) == WithoutBreaks(a) + WithoutBreaks(b)
    decreases |a|
  {
    if |a| == 0 {
      assert a + b == b;
    } else {
      assert (a + b)[1..] == a[1..] + b;
      WithoutBreaksAppend(a[1..], b);
    }
  }

  lemma {:induction false} WithoutBreaksOfPlain(s: string)
    requires forall k :: 0 <= k < |s| ==> !IsLineBreak(s[k])
    ensures WithoutBreaks(s) == s
    decreases |s|
  {
    if |s| > 0 {
      WithoutBreaksOfPlain(s[1..]);
    }
  }

  /** Splitting loses only the line breaks: the lines, joined, are the text without them. */
  lemma {:induction false} LinesKeepEverythingElse(s: string)
    ensures Flatten(Lines(s)) == WithoutBreaks(s)
    decreases |s|
  {
    if |s| > 0 {
      var i := FirstBreak(s);
      var rest := if i < |s| then Lines(s[i + 1..]) else [];
      var tail := if i < |s| then WithoutBreaks(s[i + 1..]) else "";
      assert Flatten(rest) == tail by {
        if i < |s| {
          LinesKeepEverythingElse(s[i + 1..]);
        }
      }
      WithoutBreaksAtBreak(s);
      if i > 0 {
        FlattenCons(s[..i], rest);
      } else {
        assert s[..i] + tail == tail;
      }
    }
  }

  /** The text without breaks, cut at the first break. */
  lemma {:induction false} WithoutBreaksAtBreak(s: string)
    requires |s| > 0
    ensures var i := FirstBreak(s);
            WithoutBreaks(s) == s[..i] + (if i < |s| then WithoutBreaks(s[i + 1..]) else "")
  {
    var i := FirstBreak(s);
    var a, b := s[..i], s[i..];
    assert s == a + b;
    assert WithoutBreaks(s) == WithoutBreaks(a) + WithoutBreaks(b) by {
      WithoutBreaksAppend(a, b);
    }
    assert WithoutBreaks(a) == a by {
      WithoutBreaksOfPlain(a);
    }
    if i < |s| {
      var c := s[i + 1..];
      SliceAtIndex(s, i);
      WithoutBreaksSkipsBreak(s[i], c);
    } else {
      assert b == [];
    }
  }

  lemma SliceAtIndex(s: string, i: nat)
    requires i < |s|
    ensures s[i..] == [s[i]] + s[i + 1..]
  {
  }

  lemma WithoutBreaksSkipsBreak(c: char, t: string)
    requires IsLineBreak(c)
    ensures WithoutBreaks([c] + t) == WithoutBreaks(t)
  {
    assert ([c] + t)[1..] == t;
  }

  lemma FlattenCons(x: string, r: seq<string>)
    ensures Flatten([x] + r) == x + Flatten(r)
  {
    assert ([x] + r)[1..] == r;
  }

  /** The first break is determined by where it lies: no break before it, and a break at it unless at the end. */
  lemma {:induction false} FirstBreakIs(s: string, i: nat)
    requires i <= |s| && forall k :: 0 <= k < i ==> !IsLineBreak(s[k])
    requires i < |s| ==> IsLineBreak(s[i])
    ensures FirstBreak(s) == i
  {
  }

  /**
   * Every line break is a split point: the lines of a text broken at any
   * `\r` or `\n` are the lines before it followed by the lines after it.
   */
  lemma {:induction false} LinesAtBreak(a: string, c: char, b: string)
    requires IsLineBreak(c)
    ensures Lines(a + [c] + b) == Lines(a) + Lines(b)
    decreases |a|
  {
    var i := FirstBreak(a);
    if i < |a| {
      LinesAtBreak(a[i + 1..], c, b);
      LinesAtEarlierBreak(a, c, b);
    } else {
      LinesAtFirstBreak(a, c, b);
    }
  }

  /** The step of `LinesAtBreak` when `a` has a break of its own. */
  lemma {:induction false} LinesAtEarlierBreak(a: string, c: char, b: string)
    requires IsLineBreak(c) && FirstBreak(a) < |a|
    requires Lines(a[FirstBreak(a) + 1..] + [c] + b) == Lines(a[FirstBreak(a) + 1..]) + Lines(b)
    ensures Lines(a + [c] + b) == Lines(a) + Lines(b)
  {
    var i := FirstBreak(a);
    LinesBeforeAppended(a, [c] + b);
    AppendAssoc(a, [c], b);
    AppendAssoc(a[i + 1..], [c], b);
    LinesUnfold(a);
    AppendAssoc(if i == 0 then [] else [a[..i]], Lines(a[i + 1..]), Lines(b));
  }

  lemma AppendAssoc<T>(x: seq<T>, y: seq<T>, z: seq<T>)
    ensures x + y + z == x + (y + z)
  {
  }

  /** Text appended after a break of `a` joins the lines after that break. */
  lemma {:induction false} LinesBeforeAppended(a: string, t: string)
    requires FirstBreak(a) < |a|
    ensures var i := FirstBreak(a);
            Lines(a + t) == (if i == 0 then [] else [a[..i]]) + Lines(a[i + 1..] + t)
  {
    var i := FirstBreak(a);
    SlicesOfAppend(a, t, i);
    SlicesOfAppend(a, t, i + 1);
    FirstBreakOfPrefix(a, t);
    LinesUnfold(a + t);
  }

  lemma SlicesOfAppend<T>(a: seq<T>, t: seq<T>, n: nat)
    requires n <= |a|
    ensures (a + t)[..n] == a[..n]
    ensures (a + t)[n..] == a[n..] + t
  {
  }

  /** A break inside `a` stays the first break when text is appended. */
  lemma {:induction false} FirstBreakOfPrefix(a: string, t: string)
    requires FirstBreak(a) < |a|
    ensures FirstBreak(a + t) == FirstBreak(a)
  {
    var i := FirstBreak(a);
    forall k | 0 <= k <= i
      ensures (a + t)[k] == a[k]
    {
    }
    FirstBreakIs(a + t, i);
  }

  /** The base of `LinesAtBreak`: `c` is the first break of the whole text. */
  lemma {:induction false} LinesAtFirstBreak(a: string, c: char, b: string)
    requires IsLineBreak(c) && FirstBreak(a) == |a|
    ensures Lines(a + [c] + b) == Lines(a) + Lines(b)
  {
    var s := a + [c] + b;
    FirstBreakIs(s, |a|);
    LinesUnfold(s);
    assert s[|a| + 1..] == b;
    assert s[..|a|] == a;
    LinesWithoutBreak(a);
  }

  /** The lines of a text are the piece before its first break, if non-empty, then the lines after it. */
  lemma {:induction false} LinesUnfold(s: string)
    requires FirstBreak(s) < |s|
    ensures var i := FirstBreak(s);
            Lines(s) == (if i == 0 then [] else [s[..i]]) + Lines(s[i + 1..])
  {
    var i := FirstBreak(s);
    var rest := Lines(s[i + 1..]);
    if i == 0 {
      assert Lines(s) == rest;
      assert [] + rest == rest;
    } else {
      assert Lines(s) == [s[..i]] + rest;
    }
  }

  /** A text without breaks is one line, or none when it is empty. */
  lemma {:induction false} LinesWithoutBreak(s: string)
    requires FirstBreak(s) == |s|
    ensures Lines(s) == if |s| == 0 then [] else [s]
  {
    if |s| > 0 {
      assert s[..|s|] == s;
    }
  }

  /** A one-line reply without line breaks is logged as that one line. */
  lemma SingleLineReply(s: string)
    requires |s| > 0 && forall k :: 0 <= k < |s| ==> !IsLineBreak(s[k])
    ensures Lines(s) == [s]
  {
    assert s[..|s|] == s;
  }

  function SentEntry(time: string, command: string): string {
    "[" + time + "] >> " + command
  }

  function TimeoutEntry(time: string): string {
    "[" + time + "] << [TIMEOUT - No response]"
  }

  /** The stamp that opens every logged reply line. */
  function ReplyLinePrefix(time: string): string {
    "[" + time + "] << "
  }

  function ReplyEntries(time: string, lines: seq<string>): (r: seq<string>)
    ensures |r| == |lines|
    ensures forall k :: 0 <= k < |r| ==> r[k] == ReplyLinePrefix(time) + lines[k]
  {
    seq(|lines|, k requires 0 <= k < |lines| => ReplyLinePrefix(time) + lines[k])
  }

  /** The history entries a reply adds: one timeout line, or one per reply line. */
  function ReplyLog(time: string, reply: string): (r: seq<string>)
    ensures reply == ScannerBridge.Timeout ==> r == [TimeoutEntry(time)]
    ensures reply != ScannerBridge.Timeout ==> r == ReplyEntries(time, Lines(reply))
    ensures |r| == if reply == ScannerBridge.Timeout then 1 else |Lines(reply)|
    ensures reply != ScannerBridge.Timeout ==>
              forall k :: 0 <= k < |r| ==> ReplyLinePrefix(time) <= r[k] && r[k][|ReplyLinePrefix(time)|..] == Lines(reply)[k]
  {
    if reply == ScannerBridge.Timeout then [TimeoutEntry(time)] else ReplyEntries(time, Lines(reply))
  }

  /**
   * `SendCommandAsync`: logs the command, asks the bridge with a two-second
   * wait, logs the reply and clears the command line.
   */
  function SendCommandAsync(h: Handler, command: string, clock: Clock, reply: string): (r: Reaction)
    ensures r.calls == [SendAndReceive(command, CommandTimeoutMs)]
    ensures r.handler == h.(commandInput := "", commandHistory := r.handler.commandHistory)
    ensures |r.handler.commandHistory| <= MaxCommandHistorySize
    ensures |h.commandHistory| <= MaxCommandHistorySize ==>
              r.handler.commandHistory == CappedQueue.Newest(
                h.commandHistory + ([SentEntry(clock.before, command)] + ReplyLog(clock.after, reply)),
                MaxCommandHistorySize)
  {
    var sent := CappedQueue.Enqueue(h.commandHistory, SentEntry(clock.before, command), MaxCommandHistorySize);
    var history := CappedQueue.EnqueueAll(sent, ReplyLog(clock.after, reply), MaxCommandHistorySize);
    HistoryKeepsNewest(h.commandHistory, SentEntry(clock.before, command), ReplyLog(clock.after, reply));
    Reaction(h.(commandInput := "", commandHistory := history), [SendAndReceive(command, CommandTimeoutMs)])
  }

  lemma HistoryKeepsNewest(history: seq<string>, sent: string, replies: seq<string>)
    ensures var s := CappedQueue.Enqueue(history, sent, MaxCommandHistorySize);
            |CappedQueue.EnqueueAll(s, replies, MaxCommandHistorySize)| <= MaxCommandHistorySize
    ensures |history| <= MaxCommandHistorySize ==>
              var s := CappedQueue.Enqueue(history, sent, MaxCommandHistorySize);
              CappedQueue.EnqueueAll(s, replies, MaxCommandHistorySize)
              == CappedQueue.Newest(history + ([sent] + replies), MaxCommandHistorySize)
  {
    var s := CappedQueue.Enqueue(history, sent, MaxCommandHistorySize);
    CappedQueue.EnqueueAllKeepsNewest(s, replies, MaxCommandHistorySize);
    if |history| <= MaxCommandHistorySize {
      CappedQueue.NewestChain(history, [sent], replies, s, CappedQueue.EnqueueAll(s, replies, MaxCommandHistorySize),
                              MaxCommandHistorySize);
    }
  }

  // ── Properties of key handling ────────────────────────────────────────

  /** A press outside Command mode that is not Esc, carrying character `c`. */
  predicate ViewKey(h: Handler, k: KeyPress, c: char) {
    h.viewMode != Command && k.key != Escape && k.keyChar == c
  }

  /** `D` switches Main to Debug and any other view to Main, and sends nothing. */
  lemma DTogglesDebugView(h: Handler, k: KeyPress, clock: Clock, reply: string)
    requires ViewKey(h, k, 'D') || ViewKey(h, k, 'd')
    ensures HandleKey(h, k, clock, reply).handler.viewMode == if h.viewMode == Main then Debug else Main
    ensures HandleKey(h, k, clock, reply).calls == []
  {
    assert KeyLabelOf(k.keyChar) == PressedD;
  }

  /** Esc outside Command mode: Debug goes back to Main, Main stays, and the key is not logged. */
  lemma EscapeLeavesDebugView(h: Handler, k: KeyPress, clock: Clock, reply: string)
    requires h.viewMode != Command && k.key == Escape
    ensures HandleKey(h, k, clock, reply).handler.viewMode == Main
    ensures HandleKey(h, k, clock, reply).handler.keyboardLog == h.keyboardLog
    ensures h.viewMode == Main ==> HandleKey(h, k, clock, reply) == Reaction(h, [])
  {
  }

  /** `C` opens the command line empty. */
  lemma CEntersCommandMode(h: Handler, k: KeyPress, clock: Clock, reply: string)
    requires ViewKey(h, k, 'C') || ViewKey(h, k, 'c')
    ensures HandleKey(h, k, clock, reply).handler.viewMode == Command
    ensures HandleKey(h, k, clock, reply).handler.commandInput == ""
  {
    assert KeyLabelOf(k.keyChar) == PressedC;
  }

  /** `Q` asks to quit. */
  lemma QRequestsQuit(h: Handler, k: KeyPress, clock: Clock, reply: string)
    requires ViewKey(h, k, 'Q') || ViewKey(h, k, 'q')
    ensures HandleKey(h, k, clock, reply).handler.quitRequested
    ensures HandleKey(h, k, clock, reply).handler.viewMode == h.viewMode
  {
    assert KeyLabelOf(k.keyChar) == PressedQ;
  }

  /** Space flips the help overlay and changes no view. */
  lemma SpaceTogglesHelp(h: Handler, k: KeyPress, clock: Clock, reply: string)
    requires ViewKey(h, k, ' ')
    ensures HandleKey(h, k, clock, reply).handler.spacebarHeld == !h.spacebarHeld
    ensures HandleKey(h, k, clock, reply).handler.viewMode == h.viewMode
  {
    assert KeyLabelOf(k.keyChar) == PressedSpace;
  }

  /** `R` flips recording and sends the command that matches the new state. */
  lemma RTogglesRecording(h: Handler, k: KeyPress, clock: Clock, reply: string)
    requires ViewKey(h, k, 'R') || ViewKey(h, k, 'r')
    ensures HandleKey(h, k, clock, reply).handler.recordState == !h.recordState
    ensures HandleKey(h, k, clock, reply).calls
            == [SendCommand(if h.recordState then "REC,OFF" else "REC,ON")]
  {
    assert KeyLabelOf(k.keyChar) == PressedR;
  }

  /** `M` flips muting and sends the command that matches the new state. */
  lemma MTogglesMute(h: Handler, k: KeyPress, clock: Clock, reply: string)
    requires ViewKey(h, k, 'M') || ViewKey(h, k, 'm')
    ensures HandleKey(h, k, clock, reply).handler.muteState == !h.muteState
    ensures HandleKey(h, k, clock, reply).calls
            == [SendCommand(if h.muteState then "MUT,OFF" else "MUT,ON")]
  {
    assert KeyLabelOf(k.keyChar) == PressedM;
  }

  /** Outside Command mode every key but Esc is logged, newest last. */
  lemma ViewKeysAreLogged(h: Handler, k: KeyPress, clock: Clock, reply: string)
    requires h.viewMode != Command && k.key != Escape
    ensures HandleKey(h, k, clock, reply).handler.keyboardLog
            == CappedQueue.Newest(h.keyboardLog + [KeyLogEntry(clock.system, KeyLabelOf(k.keyChar))],
                                  h.maxKeyboardLogSize)
  {
  }

  /** In Command mode no key reaches the keyboard log. */
  lemma CommandKeysAreNotLogged(h: Handler, k: KeyPress, clock: Clock, reply: string)
    requires h.viewMode == Command
    ensures HandleKey(h, k, clock, reply).handler.keyboardLog == h.keyboardLog
  {
  }

  /** Esc in Command mode returns to Main with an empty command line. */
  lemma EscapeLeavesCommandMode(h: Handler, k: KeyPress, clock: Clock, reply: string)
    requires h.viewMode == Command && k.key == Escape
    ensures HandleKey(h, k, clock, reply).handler.viewMode == Main
    ensures HandleKey(h, k, clock, reply).handler.commandInput == ""
    ensures HandleKey(h, k, clock, reply).calls == []
  {
  }

  /** Backspace drops the last character, and leaves an empty line alone. */
  lemma BackspaceDropsLast(h: Handler, k: KeyPress, clock: Clock, reply: string)
    requires h.viewMode == Command && k.key == Backspace
    ensures |h.commandInput| > 0 ==>
              HandleKey(h, k, clock, reply).handler.commandInput + [h.commandInput[|h.commandInput| - 1]]
              == h.commandInput
    ensures |h.commandInput| == 0 ==> HandleKey(h, k, clock, reply) == Reaction(h, [])
  {
  }

  /** Enter sends a line that is not blank, once, and clears it; a blank line stays as it is. */
  lemma EnterSendsNonBlankInput(h: Handler, k: KeyPress, clock: Clock, reply: string)
    requires h.viewMode == Command && k.key == Enter
    ensures !IsBlank(h.commandInput) ==>
              HandleKey(h, k, clock, reply).calls == [SendAndReceive(h.commandInput, CommandTimeoutMs)]
    ensures !IsBlank(h.commandInput) ==> HandleKey(h, k, clock, reply).handler.commandInput == ""
    ensures IsBlank(h.commandInput) ==> HandleKey(h, k, clock, reply) == Reaction(h, [])
  {
  }

  /** The keys that type the characters of `s`. */
  function Typing(s: string): (keys: seq<KeyPress>)
    ensures |keys| == |s|
    ensures forall k :: 0 <= k < |s| ==> keys[k] == KeyPress(OtherKey, s[k])
  {
    seq(|s|, k requires 0 <= k < |s| => KeyPress(OtherKey, s[k]))
  }

  function HandleKeys(h: Handler, keys: seq<KeyPress>, clock: Clock, reply: string): Handler
    decreases |keys|
  {
    if |keys| == 0 then h else HandleKeys(HandleKey(h, keys[0], clock, reply).handler, keys[1..], clock, reply)
  }

  /** Typing printable characters in Command mode appends exactly them to the command line. */
  lemma {:induction false} TypingAppends(h: Handler, s: string, clock: Clock, reply: string)
    requires h.viewMode == Command
    requires forall k :: 0 <= k < |s| ==> !IsControl(s[k])
    ensures HandleKeys(h, Typing(s), clock, reply).commandInput == h.commandInput + s
    ensures HandleKeys(h, Typing(s), clock, reply).viewMode == Command
    decreases |s|
  {
    if |s| == 0 {
      assert h.commandInput + s == h.commandInput;
    } else {
      var h1 := HandleKey(h, KeyPress(OtherKey, s[0]), clock, reply).handler;
      assert h1.commandInput == h.commandInput + [s[0]];
      assert Typing(s)[1..] == Typing(s[1..]);
      TypingAppends(h1, s[1..], clock, reply);
      assert h.commandInput + s == h1.commandInput + s[1..];
    }
  }

  /** The bounds every log keeps. */
  predicate WithinBounds(h: Handler) {
    && |h.keyboardLog| <= h.maxKeyboardLogSize
    && |h.commandHistory| <= MaxCommandHistorySize
    && |h.debugLog| <= MaxDebugLogSize
  }

  lemma NoteKeepsBounds(h: Handler, time: string, message: string)
    requires WithinBounds(h)
    ensures WithinBounds(Note(h, time, message))
  {
    EnqueueDebugBounds(h.debugLog, time, message);
  }

  /**
   * Every key press keeps the keyboard log within its size, the command
   * history within 50 entries and the debug log within 5.
   */
  lemma HandleKeyKeepsBounds(h: Handler, k: KeyPress, clock: Clock, reply: string)
    requires WithinBounds(h)
    ensures WithinBounds(HandleKey(h, k, clock, reply).handler)
  {
    var r := HandleKey(h, k, clock, reply);
    if h.viewMode == Command {
      CommandKeyKeepsBounds(h, k, clock, reply);
    } else if k.key == Escape {
      NoteKeepsBounds(h.(viewMode := Main), clock.before, "Exited Debug View");
    } else {
      ViewKeyKeepsBounds(h, k.keyChar, clock);
    }
  }

  lemma CommandKeyKeepsBounds(h: Handler, k: KeyPress, clock: Clock, reply: string)
    requires WithinBounds(h) && h.viewMode == Command
    ensures WithinBounds(HandleCommandModeKey(h, k, clock, reply).handler)
  {
    if k.key == Escape {
      NoteKeepsBounds(h.(viewMode := Main, commandInput := ""), clock.before, "Exited Command Mode");
    }
  }

  lemma ViewKeyKeepsBounds(h: Handler, c: char, clock: Clock)
    requires WithinBounds(h)
    ensures WithinBounds(HandleViewKey(h, c, clock).handler)
  {
    var l := KeyLabelOf(c);
    var logged := LogPress(h, l, clock);
    assert WithinBounds(logged);
    ViewActionKeepsBounds(logged, l, clock);
  }

  lemma ViewActionKeepsBounds(h: Handler, l: KeyLabel, clock: Clock)
    requires WithinBounds(h)
    ensures WithinBounds(ViewAction(h, l, clock).handler)
  {
    match l
    case PressedC => NoteKeepsBounds(h.(viewMode := Command, commandInput := ""), clock.before, "Entered Command Mode");
    case PressedQ => NoteKeepsBounds(h.(quitRequested := true), clock.before, "Quit requested");
    case PressedR => NoteKeepsBounds(h.(recordState := !h.recordState), clock.after, "Record " + OnOff(!h.recordState));
    case PressedM => NoteKeepsBounds(h.(muteState := !h.muteState), clock.after, "Mute " + OnOff(!h.muteState));
    case PressedV => NoteKeepsBounds(h, clock.before, "Volume adjust (TODO)");
    case PressedD =>
    case PressedSpace =>
    case Unknown(_) =>
  }
}
