/** What the two ends of the pumps get to see, told by what is on the wire and by what the
    environment has reported. */
module PumpsClient {
  import opened Common
  import opened Pumps

  // ----- reading the wire

  /** The terminal output in the first `n` items of a frame. */
  function Carried(f: Frame, n: nat): seq<Byte> {
    if f.Terminal? && n > 0 then f.bytes[..if n - 1 < |f.bytes| then n - 1 else |f.bytes|] else []
  }

  /** What `n` items of a frame add to what is read. */
  ghost predicate ReadTo(wire: seq<Item>, f: Frame, n: nat, k: Kind)
    requires n <= |Encode(f)|
  {
    var longer := wire + Encode(f)[..n];
    && (n > 0 ==> Open(longer) == if n == |Encode(f)| then None else Some(KindOf(f)))
    && ClientReads(longer) == ClientReads(wire) + Carried(f, n)
    && Arrived(longer, k) == Arrived(wire, k) + if n == |Encode(f)| && KindOf(f) == k then 1 else 0
  }

  lemma ReadOn(wire: seq<Item>, f: Frame, n: nat, k: Kind)
    requires 0 < n <= |Encode(f)| && ReadTo(wire, f, n - 1, k)
    ensures ReadTo(wire, f, n, k)
  {
    var was, item := wire + Encode(f)[..n - 1], Encode(f)[n - 1];
    OneItem(wire, f, n);
    ReadItem(was, item, k);
    CarriedGrows(f, n);
    Regroup(ClientReads(wire), Carried(f, n - 1),
            if f.Terminal? && 1 < n < |Encode(f)| then [f.bytes[n - 2]] else []);
  }

  lemma OneItem(wire: seq<Item>, f: Frame, n: nat)
    requires 0 < n <= |Encode(f)|
    ensures wire + Encode(f)[..n] == wire + Encode(f)[..n - 1] + [Encode(f)[n - 1]]
  {
    Regroup(wire, Encode(f)[..n - 1], [Encode(f)[n - 1]]);
    assert Encode(f)[..n - 1] + [Encode(f)[n - 1]] == Encode(f)[..n];
  }

  /** ... whatever was on the wire before. */
  lemma {:induction false} ReadPart(wire: seq<Item>, f: Frame, n: nat, k: Kind)
    requires n <= |Encode(f)|
    ensures ReadTo(wire, f, n, k)
  {
    if n == 0 {
      assert wire + Encode(f)[..0] == wire && ClientReads(wire) + [] == ClientReads(wire);
    } else {
      ReadPart(wire, f, n - 1, k);
      ReadOn(wire, f, n, k);
    }
  }

  lemma CarriedGrows(f: Frame, n: nat)
    requires 0 < n <= |Encode(f)|
    ensures Carried(f, n) == Carried(f, n - 1) + if f.Terminal? && 1 < n < |Encode(f)| then [f.bytes[n - 2]] else []
    ensures Encode(f)[n - 1]
         == if n == 1 then Head(KindOf(f)) else if n == |Encode(f)| then Tail else Piece(f.bytes[n - 2])
    ensures 1 < n < |Encode(f)| ==> f.Terminal?
  {
  }

  lemma ReadItem(wire: seq<Item>, i: Item, k: Kind)
    ensures Open(wire + [i]) == match i case Head(j) => Some(j) case Piece(_) => Open(wire) case Tail => None
    ensures ClientReads(wire + [i]) == ClientReads(wire) + if i.Piece? && Open(wire) == Some(Output) then [i.b] else []
    ensures Arrived(wire + [i], k) == Arrived(wire, k) + if i.Tail? && Open(wire) == Some(k) then 1 else 0
  {
    assert (wire + [i])[..|wire|] == wire;
  }

  function Count(frames: seq<Frame>, k: Kind): nat {
    if frames == [] then 0
    else Count(frames[..|frames| - 1], k) + if KindOf(frames[|frames| - 1]) == k then 1 else 0
  }

  lemma CountAdded(frames: seq<Frame>, f: Frame, k: Kind)
    ensures Count(frames + [f], k) == Count(frames, k) + if KindOf(f) == k then 1 else 0
  {
    assert (frames + [f])[..|frames|] == frames;
  }

  /** Whole frames are read as what they carry. */
  lemma {:induction false} ReadAll(frames: seq<Frame>, k: Kind)
    ensures ClientReads(EncodeAll(frames)) == TerminalBytes(frames) && Arrived(EncodeAll(frames), k) == Count(frames, k)
  {
    if frames != [] {
      var last := frames[|frames| - 1];
      ReadAll(frames[..|frames| - 1], k);
      ReadPart(EncodeAll(frames[..|frames| - 1]), last, |Encode(last)|, k);
      assert Encode(last)[..|Encode(last)|] == Encode(last);
    }
  }

  // ----- what failures leave behind

  predicate Stopping(o: OutputPump) {
    o.Reporting? || o.Stopped?
  }

  predicate StoppingIn(i: InputPump) {
    i.ReportingIn? || i.StoppedIn?
  }

  /** The output pump stops only if the PTY or the connection made it, and loses output only if the
      connection broke. */
  ghost predicate OutFaults(st: State) {
    && (Stopping(st.output) ==> st.broken || PtyEnded in st.reports)
    && (Stopping(st.output) && Unsent(st.output) != [] ==> st.broken)
    && ((st.output.Logging? || st.output.Locking? || st.output.Writing?) && st.output.end ==> PtyEnded in st.reports)
  }

  /** The input pump stops only if the connection or the PTY made it, and drops keystrokes only if
      the PTY refused them. */
  ghost predicate InFaults(st: State) {
    && (StoppingIn(st.input) ==> Unreadable in st.reports || PtyFailed in st.reports)
    && (StoppingIn(st.input) && Unforwarded(st.input) != [] ==> PtyFailed in st.reports)
  }

  /** A torn frame is the start of one whose output, if it carries any, is the output that is lost. */
  ghost predicate TornFrom(st: State) {
    st.torn == [] || exists f, n: nat :: TornAt(st, f, n)
  }

  ghost predicate TornAt(st: State, f: Frame, n: nat) {
    && n < |Encode(f)| && st.torn == Encode(f)[..n]
    && (f.Terminal? ==> Stopping(st.output) && Unsent(st.output) == f.bytes)
  }

  /** Every ping is answered by one pong, unless the connection broke. */
  ghost predicate Replies(st: State) {
    var answered := Count(st.frames, Reply) + if st.input.LockingPong? || st.input.WritingPong? then 1 else 0;
    && answered <= Pings(st.decode, st.received)
    && (!st.broken ==> answered == Pings(st.decode, st.received))
  }

  /** One close frame, before the session is destroyed, unless the connection broke. */
  ghost predicate Goodbyes(st: State) {
    && (st.main.Selecting? || st.main.LockingClose? || st.main.WritingClose? ==> Count(st.frames, Goodbye) == 0)
    && Count(st.frames, Goodbye) <= 1
    && (st.main.Destroying? || st.main.Closing? ==> Count(st.frames, Goodbye) == 1 || st.broken)
  }

  // ----- every step keeps it

  lemma OutKeepsFaults(st: State, c: Choice)
    requires OutFaults(st) && Enabled(st, Out, c)
    ensures OutFaults(OutputStep(st, c))
  {
    if st.output.Writing? {
      PushedFrames(st, Terminal(st.output.chunk), st.output.sent, c);
    }
  }

  lemma InKeepsFaults(st: State, c: Choice)
    requires InFaults(st) && Enabled(st, In, c)
    ensures InFaults(InputStep(st, c))
  {
    if st.input.Receiving? && c.Got? {
      SortedData(st.decode, c.message);
    }
  }

  /** What only grows, and what the other pump leaves alone. */
  lemma InLeavesOutput(st: State, c: Choice)
    requires Enabled(st, In, c)
    ensures var st' := InputStep(st, c);
      st'.output == st.output && (st.broken ==> st'.broken) && st.reports <= st'.reports
  {
  }

  lemma OutLeavesReports(st: State, c: Choice)
    requires Enabled(st, Out, c)
    ensures var st' := OutputStep(st, c);
      st'.input == st.input && (st.broken ==> st'.broken) && st.reports <= st'.reports
  {
  }

  lemma MainLeavesPumps(st: State, c: Choice)
    requires Enabled(st, Main, c)
    ensures var st' := MainStep(st, c);
      && st'.output == st.output && st'.input == st.input && (st.broken ==> st'.broken) && st'.reports == st.reports
      && st'.received == st.received
  {
  }

  lemma FaultsKept(st: State, w: Writer, c: Choice)
    requires OutFaults(st) && InFaults(st) && Enabled(st, w, c)
    ensures OutFaults(Next(st, w, c)) && InFaults(Next(st, w, c))
  {
    match w
    case Out =>
      OutKeepsFaults(st, c);
      OutLeavesReports(st, c);
    case In =>
      InKeepsFaults(st, c);
      InLeavesOutput(st, c);
    case Main =>
      MainLeavesPumps(st, c);
  }

  lemma PushedTorn(st: State, f: Frame, sent: nat, c: Choice)
    requires PushOk(st, f, sent, c)
    ensures Pushed(st, f, sent, c).torn == if c.Fail? && st.torn == [] then Encode(f)[..sent] else st.torn
  {
  }

  lemma StillTorn(st: State, st': State, f: Frame, n: nat)
    requires TornAt(st, f, n) && st'.torn == st.torn
    requires Stopping(st.output) ==> Stopping(st'.output) && Unsent(st'.output) == Unsent(st.output)
    ensures TornFrom(st')
  {
    assert TornAt(st', f, n);
  }

  lemma OutStops(st: State, c: Choice)
    requires Enabled(st, Out, c) && Stopping(st.output)
    ensures var st' := OutputStep(st, c);
      st'.torn == st.torn && Stopping(st'.output) && Unsent(st'.output) == Unsent(st.output)
  {
  }

  lemma OutTears(st: State, c: Choice)
    requires TornFrom(st) && Enabled(st, Out, c) && st.output.Writing?
    requires st.output.sent < |Encode(Terminal(st.output.chunk))|
    ensures TornFrom(OutputStep(st, c))
  {
    var f, st' := Terminal(st.output.chunk), OutputStep(st, c);
    PushedTorn(st, f, st.output.sent, c);
    if st.torn != [] {
      var g, n: nat :| TornAt(st, g, n);
      StillTorn(st, st', g, n);
    } else if c.Fail? {
      assert TornAt(st', f, st.output.sent);
    }
  }

  lemma OutKeepsTorn(st: State, c: Choice)
    requires TornFrom(st) && WireOk(st) && LockOk(st) && Enabled(st, Out, c)
    ensures TornFrom(OutputStep(st, c))
  {
    if st.output.Writing? {
      OutTears(st, c);
    } else if st.torn != [] {
      var g, n: nat :| TornAt(st, g, n);
      if Stopping(st.output) {
        OutStops(st, c);
      }
      StillTorn(st, OutputStep(st, c), g, n);
    }
  }

  lemma InKeepsTorn(st: State, c: Choice)
    requires TornFrom(st) && Enabled(st, In, c) && (st.input.WritingPong? ==> st.input.sent < |Encode(Pong)|)
    ensures TornFrom(InputStep(st, c))
  {
    var st' := InputStep(st, c);
    InLeavesOutput(st, c);
    if st.input.WritingPong? {
      PushedTorn(st, Pong, st.input.sent, c);
    }
    if st.torn != [] {
      var g, n: nat :| TornAt(st, g, n);
      StillTorn(st, st', g, n);
    } else if st'.torn != [] {
      assert TornAt(st', Pong, st.input.sent);
    }
  }

  lemma MainKeepsTorn(st: State, c: Choice)
    requires TornFrom(st) && Enabled(st, Main, c) && (st.main.WritingClose? ==> st.main.sent < |Encode(Close)|)
    ensures TornFrom(MainStep(st, c))
  {
    var st' := MainStep(st, c);
    MainLeavesPumps(st, c);
    if st.main.WritingClose? {
      PushedTorn(st, Close, st.main.sent, c);
    }
    if st.torn != [] {
      var g, n: nat :| TornAt(st, g, n);
      StillTorn(st, st', g, n);
    } else if st'.torn != [] {
      assert TornAt(st', Close, st.main.sent);
    }
  }

  /** The frame that the lock holder is writing is not complete. */
  lemma Incompletely(st: State)
    requires WireOk(st) && LockOk(st)
    ensures st.input.WritingPong? ==> st.input.sent < |Encode(Pong)|
    ensures st.main.WritingClose? ==> st.main.sent < |Encode(Close)|
  {
  }

  lemma TornKept(st: State, w: Writer, c: Choice)
    requires TornFrom(st) && WireOk(st) && LockOk(st) && Enabled(st, w, c)
    ensures TornFrom(Next(st, w, c))
  {
    Incompletely(st);
    match w
    case Out => OutKeepsTorn(st, c);
    case In => InKeepsTorn(st, c);
    case Main => MainKeepsTorn(st, c);
  }

  // ----- pongs and close frames

  lemma PushedCount(st: State, f: Frame, sent: nat, c: Choice, k: Kind)
    requires PushOk(st, f, sent, c)
    ensures Count(Pushed(st, f, sent, c).frames, k)
         == Count(st.frames, k) + if c.Push? && !Unfinished(f, sent, c) && KindOf(f) == k then 1 else 0
  {
    PushedFrames(st, f, sent, c);
    CountAdded(st.frames, f, k);
  }

  /** The output pump sends neither pongs nor close frames. */
  lemma OutCounts(st: State, c: Choice, k: Kind)
    requires Enabled(st, Out, c) && k != Output
    ensures var st' := OutputStep(st, c);
      && Count(st'.frames, k) == Count(st.frames, k) && st'.main == st.main && st'.decode == st.decode
      && st'.received == st.received
  {
    if st.output.Writing? {
      PushedCount(st, Terminal(st.output.chunk), st.output.sent, c, k);
      PushedFrames(st, Terminal(st.output.chunk), st.output.sent, c);
    }
  }

  lemma OutKeepsReplies(st: State, c: Choice)
    requires Replies(st) && Goodbyes(st) && Enabled(st, Out, c)
    ensures Replies(OutputStep(st, c)) && Goodbyes(OutputStep(st, c))
  {
    OutCounts(st, c, Reply);
    OutCounts(st, c, Goodbye);
    OutLeavesReports(st, c);
  }

  lemma InGetsReplies(st: State, c: Choice)
    requires Replies(st) && Enabled(st, In, c) && st.input.Receiving? && c.Got?
    ensures Replies(InputStep(st, c))
  {
    MessageAdded(st.decode, st.received, c.message);
    SortedData(st.decode, c.message);
    assert !InputStep(st, c).input.WritingPong?;
  }

  lemma InWritesReplies(st: State, c: Choice)
    requires Replies(st) && Enabled(st, In, c) && st.input.WritingPong?
    ensures Replies(InputStep(st, c))
  {
    PushedCount(st, Pong, st.input.sent, c, Reply);
    PushedFrames(st, Pong, st.input.sent, c);
  }

  lemma InElseReplies(st: State, c: Choice)
    requires Replies(st) && Enabled(st, In, c) && !st.input.WritingPong? && !c.Got?
    ensures Replies(InputStep(st, c))
  {
    var st' := InputStep(st, c);
    assert st'.frames == st.frames && st'.received == st.received && st'.broken == st.broken;
  }

  lemma InKeepsReplies(st: State, c: Choice)
    requires Replies(st) && Enabled(st, In, c)
    ensures Replies(InputStep(st, c))
  {
    if c.Got? {
      InGetsReplies(st, c);
    } else if st.input.WritingPong? {
      InWritesReplies(st, c);
    } else {
      InElseReplies(st, c);
    }
  }

  lemma InKeepsGoodbyes(st: State, c: Choice)
    requires Goodbyes(st) && Enabled(st, In, c)
    ensures Goodbyes(InputStep(st, c))
  {
    InLeavesOutput(st, c);
    if st.input.WritingPong? {
      PushedCount(st, Pong, st.input.sent, c, Goodbye);
      PushedFrames(st, Pong, st.input.sent, c);
    }
  }

  lemma MainKeepsReplies(st: State, c: Choice)
    requires Replies(st) && Enabled(st, Main, c)
    ensures Replies(MainStep(st, c))
  {
    MainLeavesPumps(st, c);
    if st.main.WritingClose? {
      PushedCount(st, Close, st.main.sent, c, Reply);
      PushedFrames(st, Close, st.main.sent, c);
    }
  }

  lemma MainKeepsGoodbyes(st: State, c: Choice)
    requires Goodbyes(st) && Enabled(st, Main, c)
    ensures Goodbyes(MainStep(st, c))
  {
    if st.main.WritingClose? {
      PushedCount(st, Close, st.main.sent, c, Goodbye);
      PushedFrames(st, Close, st.main.sent, c);
    }
  }

  lemma RepliesKept(st: State, w: Writer, c: Choice)
    requires Replies(st) && Goodbyes(st) && Enabled(st, w, c)
    ensures Replies(Next(st, w, c)) && Goodbyes(Next(st, w, c))
  {
    match w
    case Out =>
      OutKeepsReplies(st, c);
    case In =>
      InKeepsReplies(st, c);
      InKeepsGoodbyes(st, c);
    case Main =>
      MainKeepsReplies(st, c);
      MainKeepsGoodbyes(st, c);
  }

  // ----- along a run

  ghost predicate Tells(st: State) {
    OutFaults(st) && InFaults(st) && TornFrom(st) && Replies(st) && Goodbyes(st)
  }

  lemma TellsKept(run: seq<State>, n: nat)
    requires IsRun(run) && 0 < n < |run| && Tells(run[n - 1])
    ensures Tells(run[n])
  {
    assert StepAt(run, n - 1);
    var w, c :| Enabled(run[n - 1], w, c) && run[n] == Next(run[n - 1], w, c);
    RunInvariant(run, n - 1);
    FaultsKept(run[n - 1], w, c);
    TornKept(run[n - 1], w, c);
    RepliesKept(run[n - 1], w, c);
  }

  lemma {:induction false} RunTells(run: seq<State>, n: nat)
    requires IsRun(run) && n < |run|
    ensures Tells(run[n])
  {
    if n > 0 {
      RunTells(run, n - 1);
      TellsKept(run, n);
    }
  }

  /** What is on the wire is read as the completed frames and a part of the output not yet sent. */
  lemma WireReads(st: State, k: Kind) returns (part: seq<Byte>)
    requires WireOk(st) && LockOk(st) && TornFrom(st)
    ensures Reads(st, k, part)
  {
    if st.torn != [] {
      var f, n: nat :| TornAt(st, f, n);
      part := TornReads(st, k, f, n);
    } else if Current(st).Some? {
      part := CurrentReads(st, k);
    } else {
      part := WholeReads(st, k);
    }
  }

  ghost predicate Reads(st: State, k: Kind, part: seq<Byte>) {
    && ClientReads(st.wire) == TerminalBytes(st.frames) + part && part <= Unsent(st.output)
    && (part != [] ==> st.output.Writing? || (Stopping(st.output) && st.broken))
    && Arrived(st.wire, k) == Count(st.frames, k)
  }

  lemma TornReads(st: State, k: Kind, f: Frame, n: nat) returns (part: seq<Byte>)
    requires WireOk(st) && st.torn != [] && TornAt(st, f, n)
    ensures Reads(st, k, part)
  {
    ReadAll(st.frames, k);
    ReadPart(EncodeAll(st.frames), f, n, k);
    part := Carried(f, n);
    NothingMore(st);
  }

  lemma CurrentReads(st: State, k: Kind) returns (part: seq<Byte>)
    requires WireOk(st) && LockOk(st) && st.torn == [] && Current(st).Some?
    ensures Reads(st, k, part)
  {
    var (f, sent) := Current(st).value;
    ReadAll(st.frames, k);
    assert EncodeAll(st.frames) + [] == EncodeAll(st.frames);
    ReadPart(EncodeAll(st.frames), f, sent, k);
    part := Carried(f, sent);
  }

  lemma WholeReads(st: State, k: Kind) returns (part: seq<Byte>)
    requires WireOk(st) && st.torn == [] && Current(st).None?
    ensures Reads(st, k, part)
  {
    ReadAll(st.frames, k);
    assert EncodeAll(st.frames) + [] == EncodeAll(st.frames);
    assert TerminalBytes(st.frames) + [] == TerminalBytes(st.frames);
    part := [];
  }

  /** Behind a torn frame nothing is written any more. */
  lemma NothingMore(st: State)
    requires WireOk(st) && st.torn != []
    ensures st.wire == EncodeAll(st.frames) + st.torn
  {
    Regroup(EncodeAll(st.frames) + st.torn, [], []);
  }

  // ----- what both ends get, under every schedule

  /** The client reads a prefix of the PTY's output, byte for byte and in order, an incomplete last
      frame included, and is at most one buffer behind; between chunks it has read everything.  The
      log lies between what it was sent and what the PTY printed.  The pump stops only if the PTY or
      the connection made it, and then everything has arrived unless the connection broke. */
  lemma OutputReachesClient(run: seq<State>, n: nat)
    requires IsRun(run) && n < |run|
    ensures var st := run[n];
      && ClientReads(st.wire) <= st.fromPty && |st.fromPty| <= |ClientReads(st.wire)| + 4096
      && (st.output.Reading? ==> ClientReads(st.wire) == st.fromPty)
      && (st.logsOut ==> TerminalBytes(st.frames) <= st.outLog <= st.fromPty)
      && (Stopping(st.output) ==> st.broken || PtyEnded in st.reports)
      && (Stopping(st.output) && !st.broken ==> ClientReads(st.wire) == st.fromPty)
  {
    RunInvariant(run, n);
    RunTells(run, n);
    var st := run[n];
    var part := WireReads(st, Output);
    PrefixOf(TerminalBytes(st.frames), part, Unsent(st.output));
  }

  lemma PrefixOf(a: seq<Byte>, part: seq<Byte>, all: seq<Byte>)
    requires part <= all
    ensures a + part <= a + all && a <= a + all && (all == [] ==> a + part == a + all)
  {
  }

  /** Every ping is answered by exactly one pong, at once, unless the connection broke; no pong
      comes unasked.  One close frame is sent before the session is destroyed, unless the
      connection broke, and never two. */
  lemma RepliesReachClient(run: seq<State>, n: nat)
    requires IsRun(run) && n < |run|
    ensures var st := run[n];
      && Arrived(st.wire, Reply) <= Pings(st.decode, st.received)
      && (!st.broken && st.input.Receiving? ==> Arrived(st.wire, Reply) == Pings(st.decode, st.received))
      && Arrived(st.wire, Goodbye) <= 1
      && (st.main.Selecting? || st.main.LockingClose? ==> Arrived(st.wire, Goodbye) == 0)
      && (st.main.Destroying? || st.main.Closing? ==> Arrived(st.wire, Goodbye) == 1 || st.broken)
  {
    RunInvariant(run, n);
    RunTells(run, n);
    var part := WireReads(run[n], Reply);
    var part' := WireReads(run[n], Goodbye);
  }

  /** The input pump stops only if the connection or the PTY made it, and then the PTY has received
      everything unless it refused a write. */
  lemma KeystrokesNotDropped(run: seq<State>, n: nat)
    requires IsRun(run) && n < |run|
    ensures var st := run[n];
      && (StoppingIn(st.input) ==> Unreadable in st.reports || PtyFailed in st.reports)
      && (StoppingIn(st.input) && PtyFailed !in st.reports ==> st.toPty == Keystrokes(st.decode, st.received))
  {
    RunInvariant(run, n);
    RunTells(run, n);
    assert run[n].toPty + [] == run[n].toPty;
  }
}
