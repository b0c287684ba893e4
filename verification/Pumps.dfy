/** The WebSocket handler after a successful attach: two byte pumps and the goroutine that waits
    for them, sharing a mutex-guarded connection and an error channel of two slots.

    A frame goes onto the connection in pieces while its writer holds the mutex; a write may fail
    half-way and then breaks the connection for good.  Reads, received messages, failures and the
    timer are the environment's choice.
  */
module Pumps {
  import opened Common

  const BUFFER: nat := 4096
  const CHANNEL: nat := 2
  const BRACE: Byte := 123

  // ----- messages and frames

  datatype Control = Ping | Resize | OtherType | Untyped

  datatype Message = Message(text: bool, data: seq<Byte>)

  /** `decode` stands for the JSON decoder: None if it fails, Untyped for an empty type. */
  type Decoder = seq<Byte> -> Option<Control>

  /** What the input pump does not pass on to the PTY. */
  predicate IsControl(decode: Decoder, m: Message) {
    m.text && m.data != [] && m.data[0] == BRACE && decode(m.data).Some? && !decode(m.data).value.Untyped?
  }

  datatype Frame = Terminal(bytes: seq<Byte>) | Pong | Close

  /** Where a frame begins, its bytes, and where it ends. */
  datatype Item = Head(kind: Kind) | Piece(b: Byte) | Tail

  datatype Kind = Output | Reply | Goodbye

  function KindOf(f: Frame): Kind {
    match f case Terminal(_) => Output case Pong => Reply case Close => Goodbye
  }

  /** A frame on the wire. */
  function Encode(f: Frame): seq<Item> {
    [Head(KindOf(f))]
    + (if f.Terminal? then seq(|f.bytes|, i requires 0 <= i < |f.bytes| => Piece(f.bytes[i])) else [])
    + [Tail]
  }

  function EncodeAll(frames: seq<Frame>): seq<Item> {
    if frames == [] then [] else EncodeAll(frames[..|frames| - 1]) + Encode(frames[|frames| - 1])
  }

  /** The terminal output carried by the frames. */
  function TerminalBytes(frames: seq<Frame>): seq<Byte> {
    if frames == [] then []
    else
      var last := frames[|frames| - 1];
      TerminalBytes(frames[..|frames| - 1]) + if last.Terminal? then last.bytes else []
  }

  /** The keystrokes of a message: everything but a text message that begins with a brace and that
      the decoder takes for a control message with a type. */
  function Keys(decode: Decoder, m: Message): seq<Byte> {
    if m.text && m.data != [] && m.data[0] == BRACE then
      match decode(m.data)
      case None => m.data
      case Some(Untyped) => m.data
      case Some(_) => []
    else m.data
  }

  /** The client's keystrokes. */
  function Keystrokes(decode: Decoder, ms: seq<Message>): seq<Byte> {
    if ms == [] then [] else Keystrokes(decode, ms[..|ms| - 1]) + Keys(decode, ms[|ms| - 1])
  }

  predicate IsPing(decode: Decoder, m: Message) {
    m.text && m.data != [] && m.data[0] == BRACE && decode(m.data) == Some(Ping)
  }

  function Pings(decode: Decoder, ms: seq<Message>): nat {
    if ms == [] then 0
    else Pings(decode, ms[..|ms| - 1]) + if IsPing(decode, ms[|ms| - 1]) then 1 else 0
  }

  // ----- a client that reads the wire

  /** The frame that is open at the end of the wire. */
  function Open(wire: seq<Item>): Option<Kind> {
    if wire == [] then None
    else
      match wire[|wire| - 1]
      case Head(k) => Some(k)
      case Piece(_) => Open(wire[..|wire| - 1])
      case Tail => None
  }

  /** The terminal output that the client has received, an incomplete frame included. */
  function ClientReads(wire: seq<Item>): seq<Byte> {
    if wire == [] then []
    else
      var before, last := wire[..|wire| - 1], wire[|wire| - 1];
      ClientReads(before) + if last.Piece? && Open(before) == Some(Output) then [last.b] else []
  }

  /** Frames of one kind that have arrived completely. */
  function Arrived(wire: seq<Item>, k: Kind): nat {
    if wire == [] then 0
    else
      var before, last := wire[..|wire| - 1], wire[|wire| - 1];
      Arrived(before, k) + if last.Tail? && Open(before) == Some(k) then 1 else 0
  }

  // ----- the three goroutines

  datatype OutputPump =
    | Reading
    | Logging(chunk: seq<Byte>, end: bool)
    | Locking(chunk: seq<Byte>, end: bool)
    | Writing(chunk: seq<Byte>, end: bool, sent: nat)    // items of the frame on the wire
    | Reporting(lost: seq<Byte>)
    | Stopped(lost: seq<Byte>)

  datatype InputPump =
    | Receiving
    | LoggingIn(data: seq<Byte>)
    | Forwarding(data: seq<Byte>)
    | LockingPong
    | WritingPong(sent: nat)
    | ReportingIn(dropped: seq<Byte>)
    | StoppedIn(dropped: seq<Byte>)

  datatype Waiter = Selecting | LockingClose | WritingClose(sent: nat) | Destroying | Closing | Ended

  datatype Writer = Out | In | Main

  /** What the environment has reported: the end of the PTY's output, a write to the PTY that failed,
      a connection that cannot be read any more. */
  datatype Report = PtyEnded | PtyFailed | Unreadable

  datatype State = State(
    decode: Decoder, logsOut: bool, logsIn: bool,     // whether the log files could be opened
    output: OutputPump, input: InputPump, main: Waiter,
    lock: Option<Writer>, errors: nat, broken: bool,
    wire: seq<Item>, frames: seq<Frame>, torn: seq<Item>,
    fromPty: seq<Byte>, outLog: seq<Byte>,
    received: seq<Message>, inLog: seq<Byte>, toPty: seq<Byte>,
    destroys: nat,
    reports: set<Report>)

  datatype Choice =
    | Go
    | Read(chunk: seq<Byte>, end: bool)       // what the PTY's Read returns
    | Got(message: Message)                   // what the connection's ReadMessage returns
    | Wrote(count: nat, ok: bool)             // what the PTY's Write returns
    | Push(count: nat)                        // some items of the frame go onto the wire
    | Fail                                    // the read or write returns an error
    | Timeout

  /** The writer of `f` can put more of it on the wire, or the write fails. */
  predicate PushOk(st: State, f: Frame, sent: nat, c: Choice) {
    sent <= |Encode(f)| && ((c.Push? && !st.broken && 0 < c.count && sent + c.count <= |Encode(f)|) || c.Fail?)
  }

  predicate Enabled(st: State, w: Writer, c: Choice) {
    match w
    case Out => (
      match st.output
      case Reading => c.Read? && |c.chunk| <= BUFFER
      case Logging(_, _) => c.Go?
      case Locking(_, _) => c.Go? && st.lock.None?
      case Writing(chunk, _, sent) => PushOk(st, Terminal(chunk), sent, c)
      case Reporting(_) => c.Go? && st.errors < CHANNEL
      case Stopped(_) => false)
    case In => (
      match st.input
      case Receiving => c.Got? || c.Fail?
      case LoggingIn(_) => c.Go?
      case Forwarding(data) => c.Wrote? && c.count <= |data| && (c.count < |data| ==> !c.ok)
      case LockingPong => c.Go? && st.lock.None?
      case WritingPong(sent) => PushOk(st, Pong, sent, c)
      case ReportingIn(_) => c.Go? && st.errors < CHANNEL
      case StoppedIn(_) => false)
    case Main => (
      match st.main
      case Selecting => c.Timeout? || (c.Go? && st.errors > 0)
      case LockingClose => c.Go? && st.lock.None?
      case WritingClose(sent) => PushOk(st, Close, sent, c)
      case Destroying => c.Go?
      case Closing => c.Go?
      case Ended => false)
  }

  /** One piece of a write; a failure or the last piece lets go of the mutex. */
  function Pushed(st: State, f: Frame, sent: nat, c: Choice): State
    requires PushOk(st, f, sent, c)
  {
    if c.Fail? then
      st.(broken := true, lock := None, torn := if st.torn != [] then st.torn else Encode(f)[..sent])
    else
      var wire := st.wire + Encode(f)[sent..sent + c.count];
      if sent + c.count < |Encode(f)| then st.(wire := wire)
      else st.(wire := wire, frames := st.frames + [f], lock := None)
  }

  /** The writer has to go on. */
  predicate Unfinished(f: Frame, sent: nat, c: Choice) {
    c.Push? && sent + c.count < |Encode(f)|
  }

  function OutputStep(st: State, c: Choice): State
    requires Enabled(st, Out, c)
  {
    match st.output
    case Reading =>
      st.(fromPty := st.fromPty + c.chunk, reports := if c.end then st.reports + {PtyEnded} else st.reports,
          output := if c.chunk != [] then Logging(c.chunk, c.end) else if c.end then Reporting([]) else Reading)
    case Logging(chunk, end) =>
      st.(outLog := if st.logsOut then st.outLog + chunk else st.outLog, output := Locking(chunk, end))
    case Locking(chunk, end) => st.(lock := Some(Out), output := Writing(chunk, end, 0))
    case Writing(chunk, end, sent) =>
      Pushed(st, Terminal(chunk), sent, c).(output :=
        if c.Fail? then Reporting(chunk)
        else if Unfinished(Terminal(chunk), sent, c) then Writing(chunk, end, sent + c.count)
        else if end then Reporting([]) else Reading)
    case Reporting(lost) => st.(errors := st.errors + 1, output := Stopped(lost))
  }

  /** Where a message goes: a ping is answered, other control messages and empty ones end here,
      the rest is on its way to the PTY. */
  function Sorted(decode: Decoder, m: Message): InputPump {
    if IsControl(decode, m) then
      if decode(m.data).value.Ping? then LockingPong else Receiving
    else if m.data == [] then Receiving else LoggingIn(m.data)
  }

  function InputStep(st: State, c: Choice): State
    requires Enabled(st, In, c)
  {
    match st.input
    case Receiving =>
      if c.Fail? then st.(reports := st.reports + {Unreadable}, input := ReportingIn([]))
      else st.(received := st.received + [c.message], input := Sorted(st.decode, c.message))
    case LoggingIn(data) =>
      st.(inLog := if st.logsIn then st.inLog + data else st.inLog, input := Forwarding(data))
    case Forwarding(data) =>
      st.(toPty := st.toPty + data[..c.count],
          reports := if c.ok then st.reports else st.reports + {PtyFailed},
          input := if c.ok then Receiving else ReportingIn(data[c.count..]))
    case LockingPong => st.(lock := Some(In), input := WritingPong(0))
    case WritingPong(sent) =>
      Pushed(st, Pong, sent, c).(input := if Unfinished(Pong, sent, c) then WritingPong(sent + c.count) else Receiving)
    case ReportingIn(dropped) => st.(errors := st.errors + 1, input := StoppedIn(dropped))
  }

  function MainStep(st: State, c: Choice): State
    requires Enabled(st, Main, c)
  {
    match st.main
    case Selecting => st.(errors := if c.Go? then st.errors - 1 else st.errors, main := LockingClose)
    case LockingClose => st.(lock := Some(Main), main := WritingClose(0))
    case WritingClose(sent) =>
      Pushed(st, Close, sent, c).(main :=
        if Unfinished(Close, sent, c) then WritingClose(sent + c.count) else Destroying)
    case Destroying => st.(destroys := st.destroys + 1, main := Closing)
    case Closing => st.(broken := true, main := Ended)
  }

  function Next(st: State, w: Writer, c: Choice): State
    requires Enabled(st, w, c)
  {
    match w
    case Out => OutputStep(st, c)
    case In => InputStep(st, c)
    case Main => MainStep(st, c)
  }

  ghost predicate Initial(st: State) {
    st == State(st.decode, st.logsOut, st.logsIn, Reading, Receiving, Selecting, None, 0, false,
                [], [], [], [], [], [], [], [], 0, {})
  }

  ghost predicate StepAt(run: seq<State>, i: nat)
    requires i + 1 < |run|
  {
    exists w, c :: Enabled(run[i], w, c) && run[i + 1] == Next(run[i], w, c)
  }

  ghost predicate IsRun(run: seq<State>) {
    run != [] && Initial(run[0]) && forall i: nat | i + 1 < |run| :: StepAt(run, i)
  }

  // ----- the invariant

  /** Read from the PTY and not yet carried by a completed frame. */
  function Unsent(o: OutputPump): seq<Byte> {
    match o
    case Reading => []
    case Logging(chunk, _) => chunk
    case Locking(chunk, _) => chunk
    case Writing(chunk, _, _) => chunk
    case Reporting(lost) => lost
    case Stopped(lost) => lost
  }

  /** Received from the client and not yet accepted by the PTY. */
  function Unforwarded(i: InputPump): seq<Byte> {
    match i
    case LoggingIn(data) => data
    case Forwarding(data) => data
    case ReportingIn(dropped) => dropped
    case StoppedIn(dropped) => dropped
    case _ => []
  }

  function Unlogged(o: OutputPump): seq<Byte> {
    if o.Logging? then o.chunk else []
  }

  function UnloggedIn(i: InputPump): seq<Byte> {
    if i.LoggingIn? then i.data else []
  }

  ghost predicate OutputOk(st: State) {
    && TerminalBytes(st.frames) + Unsent(st.output) == st.fromPty && |Unsent(st.output)| <= BUFFER
    && if st.logsOut then st.outLog + Unlogged(st.output) == st.fromPty else st.outLog == []
  }

  ghost predicate InputOk(st: State) {
    && st.toPty + Unforwarded(st.input) == Keystrokes(st.decode, st.received)
    && if st.logsIn then st.inLog + UnloggedIn(st.input) == Keystrokes(st.decode, st.received) else st.inLog == []
  }

  /** The frame being written and how much of it is on the wire. */
  function Current(st: State): Option<(Frame, nat)> {
    if st.output.Writing? then Some((Terminal(st.output.chunk), st.output.sent))
    else if st.input.WritingPong? then Some((Pong, st.input.sent))
    else if st.main.WritingClose? then Some((Close, st.main.sent))
    else None
  }

  ghost predicate LockOk(st: State) {
    && (st.output.Writing? <==> st.lock == Some(Out))
    && (st.input.WritingPong? <==> st.lock == Some(In))
    && (st.main.WritingClose? <==> st.lock == Some(Main))
  }

  /** Whole frames, then what a failed write left behind, then what the lock holder has written. */
  ghost predicate WireOk(st: State) {
    && (st.torn != [] ==> st.broken) && Torn(st.torn)
    && match Current(st)
       case None => st.wire == EncodeAll(st.frames) + st.torn
       case Some((f, sent)) =>
         && sent < |Encode(f)| && (st.torn != [] ==> sent == 0)
         && st.wire == EncodeAll(st.frames) + st.torn + Encode(f)[..sent]
  }

  /** Part of one frame, from its beginning. */
  ghost predicate Torn(items: seq<Item>) {
    exists f :: items <= Encode(f)
  }

  function Stops(st: State): nat {
    (if st.output.Stopped? then 1 else 0) + (if st.input.StoppedIn? then 1 else 0)
  }

  ghost predicate MainOk(st: State) {
    && st.errors <= Stops(st)
    && st.destroys == if st.main.Closing? || st.main.Ended? then 1 else 0
  }

  ghost predicate Invariant(st: State) {
    OutputOk(st) && InputOk(st) && LockOk(st) && WireOk(st) && MainOk(st)
  }

  // ----- every step keeps it

  lemma EncodeAdded(frames: seq<Frame>, f: Frame)
    ensures EncodeAll(frames + [f]) == EncodeAll(frames) + Encode(f)
  {
    assert (frames + [f])[..|frames|] == frames;
  }

  lemma FrameAdded(frames: seq<Frame>, f: Frame)
    ensures TerminalBytes(frames + [f]) == TerminalBytes(frames) + if f.Terminal? then f.bytes else []
  {
    assert (frames + [f])[..|frames|] == frames;
  }

  lemma MessageAdded(decode: Decoder, ms: seq<Message>, m: Message)
    ensures Keystrokes(decode, ms + [m]) == Keystrokes(decode, ms) + Keys(decode, m)
    ensures Pings(decode, ms + [m]) == Pings(decode, ms) + if IsPing(decode, m) then 1 else 0
  {
    assert (ms + [m])[..|ms|] == ms;
  }

  lemma TornPrefix(f: Frame, n: nat)
    requires n <= |Encode(f)|
    ensures Torn(Encode(f)[..n])
  {
    assert Encode(f)[..n] <= Encode(f);
  }

  lemma Extend<T>(wire: seq<T>, whole: seq<T>, e: seq<T>, sent: nat, count: nat)
    requires sent + count <= |e| && wire == whole + [] + e[..sent]
    ensures wire + e[sent..sent + count] == whole + [] + e[..sent + count]
    ensures sent + count == |e| ==> wire + e[sent..sent + count] == (whole + e) + []
  {
  }

  lemma PieceWire(st: State, f: Frame, sent: nat, c: Choice)
    requires PushOk(st, f, sent, c) && c.Push? && sent < |Encode(f)| && st.torn == []
    requires st.wire == EncodeAll(st.frames) + [] + Encode(f)[..sent]
    ensures var st' := Pushed(st, f, sent, c);
      st'.torn == [] && st'.wire ==
        if Unfinished(f, sent, c) then EncodeAll(st'.frames) + [] + Encode(f)[..sent + c.count]
        else EncodeAll(st'.frames) + []
  {
    Extend(st.wire, EncodeAll(st.frames), Encode(f), sent, c.count);
    EncodeAdded(st.frames, f);
  }

  /** What one piece of a write does to the wire. */
  lemma PushedWire(st: State, f: Frame, sent: nat, c: Choice)
    requires PushOk(st, f, sent, c) && sent < |Encode(f)| && (st.torn != [] ==> st.broken && sent == 0) && Torn(st.torn)
    requires st.wire == EncodeAll(st.frames) + st.torn + Encode(f)[..sent]
    ensures var st' := Pushed(st, f, sent, c);
      && (st'.torn != [] ==> st'.broken) && Torn(st'.torn)
      && (if Unfinished(f, sent, c)
          then st'.torn == [] && st'.wire == EncodeAll(st'.frames) + [] + Encode(f)[..sent + c.count]
          else st'.wire == EncodeAll(st'.frames) + st'.torn)
  {
    TornPrefix(f, sent);
    if c.Push? {
      PieceWire(st, f, sent, c);
    } else {
      assert st.torn == [] ==> EncodeAll(st.frames) + [] == EncodeAll(st.frames);
      assert Encode(f)[..0] == [];
    }
  }

  lemma OutLock(st: State, c: Choice)
    requires LockOk(st) && Enabled(st, Out, c)
    ensures LockOk(OutputStep(st, c))
  {
  }

  lemma InLock(st: State, c: Choice)
    requires LockOk(st) && Enabled(st, In, c)
    ensures LockOk(InputStep(st, c))
  {
  }

  lemma MainLock(st: State, c: Choice)
    requires LockOk(st) && Enabled(st, Main, c)
    ensures LockOk(MainStep(st, c))
  {
  }

  lemma OutIdleWire(st: State, c: Choice)
    requires LockOk(st) && WireOk(st) && Enabled(st, Out, c) && !st.output.Writing? && !st.output.Locking?
    ensures WireOk(OutputStep(st, c))
  {
    var st' := OutputStep(st, c);
    assert st'.wire == st.wire && st'.frames == st.frames && st'.torn == st.torn && Current(st') == Current(st);
  }

  lemma OutLocksWire(st: State, c: Choice)
    requires LockOk(st) && WireOk(st) && Enabled(st, Out, c) && st.output.Locking?
    ensures WireOk(OutputStep(st, c))
  {
    assert Current(st).None?;
    assert st.wire + Encode(Terminal(st.output.chunk))[..0] == st.wire;
  }

  lemma OutWritesWire(st: State, c: Choice)
    requires LockOk(st) && WireOk(st) && Enabled(st, Out, c) && st.output.Writing?
    ensures WireOk(OutputStep(st, c))
  {
    PushedWire(st, Terminal(st.output.chunk), st.output.sent, c);
  }

  lemma OutWire(st: State, c: Choice)
    requires LockOk(st) && WireOk(st) && Enabled(st, Out, c)
    ensures WireOk(OutputStep(st, c))
  {
    if st.output.Writing? {
      OutWritesWire(st, c);
    } else if st.output.Locking? {
      OutLocksWire(st, c);
    } else {
      OutIdleWire(st, c);
    }
  }

  lemma InWritesWire(st: State, c: Choice)
    requires LockOk(st) && WireOk(st) && Enabled(st, In, c) && st.input.WritingPong?
    ensures WireOk(InputStep(st, c))
  {
    PushedWire(st, Pong, st.input.sent, c);
  }

  /** Every other step leaves the wire, the frames and the lock holder's progress alone. */
  lemma InIdleWire(st: State, c: Choice)
    requires LockOk(st) && WireOk(st) && Enabled(st, In, c) && !st.input.WritingPong? && !st.input.LockingPong?
    ensures WireOk(InputStep(st, c))
  {
    var st' := InputStep(st, c);
    assert st'.wire == st.wire && st'.frames == st.frames && st'.torn == st.torn && Current(st') == Current(st);
  }

  lemma InLocksWire(st: State, c: Choice)
    requires LockOk(st) && WireOk(st) && Enabled(st, In, c) && st.input.LockingPong?
    ensures WireOk(InputStep(st, c))
  {
    assert Current(st).None?;
    assert st.wire + Encode(Pong)[..0] == st.wire;
  }

  lemma InWire(st: State, c: Choice)
    requires LockOk(st) && WireOk(st) && Enabled(st, In, c)
    ensures WireOk(InputStep(st, c))
  {
    if st.input.WritingPong? {
      InWritesWire(st, c);
    } else if st.input.LockingPong? {
      InLocksWire(st, c);
    } else {
      InIdleWire(st, c);
    }
  }

  lemma MainIdleWire(st: State, c: Choice)
    requires LockOk(st) && WireOk(st) && Enabled(st, Main, c) && !st.main.WritingClose? && !st.main.LockingClose?
    ensures WireOk(MainStep(st, c))
  {
    var st' := MainStep(st, c);
    assert st'.wire == st.wire && st'.frames == st.frames && st'.torn == st.torn && Current(st') == Current(st);
  }

  lemma MainLocksWire(st: State, c: Choice)
    requires LockOk(st) && WireOk(st) && Enabled(st, Main, c) && st.main.LockingClose?
    ensures WireOk(MainStep(st, c))
  {
    assert Current(st).None?;
    assert st.wire + Encode(Close)[..0] == st.wire;
  }

  lemma MainWritesWire(st: State, c: Choice)
    requires LockOk(st) && WireOk(st) && Enabled(st, Main, c) && st.main.WritingClose?
    ensures WireOk(MainStep(st, c))
  {
    PushedWire(st, Close, st.main.sent, c);
  }

  lemma MainWire(st: State, c: Choice)
    requires LockOk(st) && WireOk(st) && Enabled(st, Main, c)
    ensures WireOk(MainStep(st, c))
  {
    if st.main.WritingClose? {
      MainWritesWire(st, c);
    } else if st.main.LockingClose? {
      MainLocksWire(st, c);
    } else {
      MainIdleWire(st, c);
    }
  }

  lemma OutReads(st: State, c: Choice)
    requires OutputOk(st) && Enabled(st, Out, c) && st.output.Reading?
    ensures OutputOk(OutputStep(st, c))
  {
    Regroup(TerminalBytes(st.frames), [], c.chunk);
    Regroup(st.outLog, [], c.chunk);
  }

  lemma OutLogs(st: State, c: Choice)
    requires OutputOk(st) && Enabled(st, Out, c) && st.output.Logging?
    ensures OutputOk(OutputStep(st, c))
  {
    Regroup(st.outLog, st.output.chunk, []);
  }

  lemma PushedFrames(st: State, f: Frame, sent: nat, c: Choice)
    requires PushOk(st, f, sent, c)
    ensures var st' := Pushed(st, f, sent, c);
      && st'.frames == (if c.Push? && !Unfinished(f, sent, c) then st.frames + [f] else st.frames)
      && st' == st.(wire := st'.wire, frames := st'.frames, lock := st'.lock, broken := st'.broken, torn := st'.torn)
  {
  }

  lemma SameUnsent(st: State, st': State)
    requires OutputOk(st) && st'.frames == st.frames && Unsent(st'.output) == Unsent(st.output)
    requires Unlogged(st.output) == Unlogged(st'.output) == []
    requires st'.fromPty == st.fromPty && st'.outLog == st.outLog && st'.logsOut == st.logsOut
    ensures OutputOk(st')
  {
  }

  lemma SentFrame(st: State, st': State)
    requires OutputOk(st) && st'.frames == st.frames + [Terminal(Unsent(st.output))] && Unsent(st'.output) == []
    requires Unlogged(st.output) == Unlogged(st'.output) == []
    requires st'.fromPty == st.fromPty && st'.outLog == st.outLog && st'.logsOut == st.logsOut
    ensures OutputOk(st')
  {
    FrameAdded(st.frames, Terminal(Unsent(st.output)));
    assert TerminalBytes(st.frames) + Unsent(st.output) + [] == st.fromPty;
  }

  lemma OutWrites(st: State, c: Choice)
    requires OutputOk(st) && Enabled(st, Out, c) && st.output.Writing?
    ensures OutputOk(OutputStep(st, c))
  {
    var f := Terminal(st.output.chunk);
    PushedFrames(st, f, st.output.sent, c);
    if c.Push? && !Unfinished(f, st.output.sent, c) {
      SentFrame(st, OutputStep(st, c));
    } else {
      SameUnsent(st, OutputStep(st, c));
    }
  }

  lemma OutOutput(st: State, c: Choice)
    requires OutputOk(st) && Enabled(st, Out, c)
    ensures OutputOk(OutputStep(st, c))
  {
    if st.output.Reading? {
      OutReads(st, c);
    } else if st.output.Logging? {
      OutLogs(st, c);
    } else if st.output.Writing? {
      OutWrites(st, c);
    }
  }

  lemma InOutput(st: State, c: Choice)
    requires OutputOk(st) && Enabled(st, In, c)
    ensures OutputOk(InputStep(st, c))
  {
    if st.input.WritingPong? {
      PushedFrames(st, Pong, st.input.sent, c);
    }
    OtherFrame(st, InputStep(st, c), Pong);
  }

  /** A frame without terminal output changes nothing for the output pump. */
  lemma OtherFrame(st: State, st': State, f: Frame)
    requires OutputOk(st) && !f.Terminal? && (st'.frames == st.frames || st'.frames == st.frames + [f])
    requires st'.output == st.output && st'.fromPty == st.fromPty && st'.outLog == st.outLog
    requires st'.logsOut == st.logsOut
    ensures OutputOk(st')
  {
    FrameAdded(st.frames, f);
    assert TerminalBytes(st.frames) + [] == TerminalBytes(st.frames);
  }

  lemma MainOutput(st: State, c: Choice)
    requires OutputOk(st) && Enabled(st, Main, c)
    ensures OutputOk(MainStep(st, c))
  {
    if st.main.WritingClose? {
      PushedFrames(st, Close, st.main.sent, c);
    }
    OtherFrame(st, MainStep(st, c), Close);
  }

  lemma SortedData(decode: Decoder, m: Message)
    ensures Unforwarded(Sorted(decode, m)) == Keys(decode, m) && UnloggedIn(Sorted(decode, m)) == Keys(decode, m)
    ensures Sorted(decode, m) == LockingPong <==> IsPing(decode, m)
  {
  }

  lemma InGot(st: State, m: Message)
    requires InputOk(st) && st.input.Receiving?
    ensures InputOk(st.(received := st.received + [m], input := Sorted(st.decode, m)))
  {
    MessageAdded(st.decode, st.received, m);
    SortedData(st.decode, m);
    Regroup(st.toPty, [], Keys(st.decode, m));
    Regroup(st.inLog, [], Keys(st.decode, m));
  }

  lemma InLogs(st: State, c: Choice)
    requires InputOk(st) && Enabled(st, In, c) && st.input.LoggingIn?
    ensures InputOk(InputStep(st, c))
  {
    Regroup(st.inLog, st.input.data, []);
  }

  lemma Forwarded(sent: seq<Byte>, data: seq<Byte>, count: nat)
    requires count <= |data|
    ensures sent + data[..count] + data[count..] == sent + data
    ensures count == |data| ==> sent + data[..count] + [] == sent + data
  {
    Regroup(sent, data[..count], data[count..]);
    assert data[..count] + data[count..] == data;
  }

  lemma InForwards(st: State, c: Choice)
    requires InputOk(st) && Enabled(st, In, c) && st.input.Forwarding?
    ensures InputOk(InputStep(st, c))
  {
    Forwarded(st.toPty, st.input.data, c.count);
  }

  lemma InGets(st: State, c: Choice)
    requires InputOk(st) && Enabled(st, In, c) && st.input.Receiving?
    ensures InputOk(InputStep(st, c))
  {
    if c.Got? {
      InGot(st, c.message);
    }
  }

  /** Neither a pong nor the report to the handler touches the keystrokes. */
  lemma InElse(st: State, c: Choice)
    requires InputOk(st) && Enabled(st, In, c)
    requires st.input.LockingPong? || st.input.WritingPong? || st.input.ReportingIn?
    ensures InputOk(InputStep(st, c))
  {
    if st.input.WritingPong? {
      PushedFrames(st, Pong, st.input.sent, c);
    }
  }

  lemma InInput(st: State, c: Choice)
    requires InputOk(st) && Enabled(st, In, c)
    ensures InputOk(InputStep(st, c))
  {
    match st.input
    case Receiving => InGets(st, c);
    case LoggingIn(_) => InLogs(st, c);
    case Forwarding(_) => InForwards(st, c);
    case LockingPong => InElse(st, c);
    case WritingPong(_) => InElse(st, c);
    case ReportingIn(_) => InElse(st, c);
  }

  /** What the input pump has to do with keystrokes. */
  ghost predicate SameInput(st: State, st': State) {
    && st'.decode == st.decode && st'.logsIn == st.logsIn && st'.input == st.input
    && st'.received == st.received && st'.inLog == st.inLog && st'.toPty == st.toPty
  }

  lemma OutLeavesInput(st: State, c: Choice)
    requires Enabled(st, Out, c)
    ensures SameInput(st, OutputStep(st, c))
  {
  }

  lemma MainLeavesInput(st: State, c: Choice)
    requires Enabled(st, Main, c)
    ensures SameInput(st, MainStep(st, c))
  {
  }

  lemma OthersInput(st: State, st': State)
    requires InputOk(st) && SameInput(st, st')
    ensures InputOk(st')
  {
  }

  lemma OutMain(st: State, c: Choice)
    requires MainOk(st) && Enabled(st, Out, c)
    ensures MainOk(OutputStep(st, c))
  {
  }

  lemma InMain(st: State, c: Choice)
    requires MainOk(st) && Enabled(st, In, c)
    ensures MainOk(InputStep(st, c))
  {
  }

  lemma MainMain(st: State, c: Choice)
    requires MainOk(st) && Enabled(st, Main, c)
    ensures MainOk(MainStep(st, c))
  {
  }

  lemma {:induction false} RunInvariant(run: seq<State>, n: nat)
    requires IsRun(run) && n < |run|
    ensures Invariant(run[n])
  {
    if n == 0 {
      assert [] <= Encode(Pong);
    } else {
      RunInvariant(run, n - 1);
      assert StepAt(run, n - 1);
      var w, c :| Enabled(run[n - 1], w, c) && run[n] == Next(run[n - 1], w, c);
      StepKeeps(run[n - 1], w, c);
    }
  }

  lemma StepKeeps(st: State, w: Writer, c: Choice)
    requires Invariant(st) && Enabled(st, w, c)
    ensures Invariant(Next(st, w, c))
  {
    match w
    case Out =>
      OutLock(st, c);
      OutWire(st, c);
      OutOutput(st, c);
      OutLeavesInput(st, c);
      OthersInput(st, OutputStep(st, c));
      OutMain(st, c);
    case In =>
      InLock(st, c);
      InWire(st, c);
      InOutput(st, c);
      InInput(st, c);
      InMain(st, c);
    case Main =>
      MainLock(st, c);
      MainWire(st, c);
      MainOutput(st, c);
      MainLeavesInput(st, c);
      OthersInput(st, MainStep(st, c));
      MainMain(st, c);
  }

  // ----- what the handler promises, under every schedule

  /** The PTY gets a prefix of the client's keystrokes, in order and without control messages;
      what is missing is at most the message in hand or the one whose write failed. */
  lemma KeystrokesReachPty(run: seq<State>, n: nat)
    requires IsRun(run) && n < |run|
    ensures var st := run[n];
      && st.toPty <= Keystrokes(st.decode, st.received)
      && (st.input.Receiving? || st.input.LockingPong? || st.input.WritingPong? ==>
            st.toPty == Keystrokes(st.decode, st.received))
      && (st.logsIn ==> st.toPty <= st.inLog <= Keystrokes(st.decode, st.received))
  {
    RunInvariant(run, n);
    var st := run[n];
    assert st.toPty == Keystrokes(st.decode, st.received)[..|st.toPty|];
  }

  /** Pongs and close frames never split a terminal frame: the connection has carried whole
      frames and then at most one that is not complete. */
  lemma FramesNeverSplit(run: seq<State>, n: nat)
    requires IsRun(run) && n < |run|
    ensures exists tail :: run[n].wire == EncodeAll(run[n].frames) + tail && Torn(tail)
  {
    RunInvariant(run, n);
    var tail := Incomplete(run[n]);
  }

  /** The incomplete frame at the end of the wire. */
  lemma Incomplete(st: State) returns (tail: seq<Item>)
    requires WireOk(st)
    ensures st.wire == EncodeAll(st.frames) + tail && Torn(tail)
  {
    match Current(st)
    case None => tail := st.torn;
    case Some((f, sent)) =>
      TornPrefix(f, sent);
      Regroup(EncodeAll(st.frames), st.torn, Encode(f)[..sent]);
      tail := if st.torn == [] then Encode(f)[..sent] else st.torn;
  }

  /** No pump ever blocks on the error channel, read or unread, and the handler destroys its
      session once: not before it leaves the wait, and surely by the time it returns. */
  lemma ChannelAndDestroy(run: seq<State>, n: nat)
    requires IsRun(run) && n < |run|
    ensures var st := run[n];
      && st.errors <= CHANNEL
      && (st.output.Reporting? ==> Enabled(st, Out, Go)) && (st.input.ReportingIn? ==> Enabled(st, In, Go))
      && st.destroys <= 1
      && (st.main.Selecting? || st.main.LockingClose? || st.main.WritingClose? ==> st.destroys == 0)
      && (st.main.Ended? ==> st.destroys == 1)
  {
    RunInvariant(run, n);
  }
}
