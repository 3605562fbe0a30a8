/** Every call made on a server session does exactly what it is for, over every run: which operations
    are started, which failures are reported, and in which frame type messages go out. */
module ServerCalls {
  import opened Traces
  import opened ServerSession

  // ---- the calls of a run ----

  /** A call, and whether the session was accepted by then. */
  datatype Made = Made(call: Call, accepted: bool)

  function MadeIn(calls: seq<Call>, accepted: bool): (ms: seq<Made>)
    ensures |ms| == |calls|
  {
    seq(|calls|, i requires 0 <= i < |calls| => Made(calls[i], accepted))
  }

  /** The calls made in an event, from outside or in its callback. */
  function MadeBy(s: State, e: Event): seq<Made> {
    match e
    case External(c) => [Made(c, s.accepted)]
    case AcceptDone(_, callback) => MadeIn(callback, true)
    case ReadDone(_, _, _, callback) => MadeIn(callback, s.accepted)
    case ControlFrame(callback) => MadeIn(callback, s.accepted)
    case TimerDone(_, callback) => MadeIn(callback, s.accepted)
    case _ => []
  }

  function CallsMade(t0: Time, es: seq<Event>): seq<Made>
    requires IsRun(t0, es)
  {
    if es == [] then [] else CallsMade(t0, Before(es)) + MadeBy(After(t0, Before(es)), Last(es))
  }

  // ---- what they start, and what is reported ----

  /** The operation a call asks for: an accept only before the session is accepted, a ping, pong or close
      only after. */
  predicate Asks(m: Made, op: Op) {
    || (op == Accept && m.call == DoAccept && !m.accepted)
    || (op == Ping && m.call == DoPing && m.accepted)
    || (op == Pong && m.call == DoPong && m.accepted)
    || (op == Close && m.call == DoClose && m.accepted)
    || (op.Armed? && m.call == LaunchTimerWith(op.id))
  }

  /** The failure an event reports: any that is neither an abort nor, for a read, the orderly end. */
  predicate Reports(e: Event, op: Op) {
    || (op == Reported("accept") && e.AcceptDone? && (e.ec == Closed || e.ec == OtherError))
    || (op == Reported("read") && e.ReadDone? && e.ec == OtherError)
    || (op == Reported("write") && e.WriteDone? && (e.ec == Closed || e.ec == OtherError))
    || (op == Reported("timer") && e.TimerDone? && (e.ec == Closed || e.ec == OtherError))
  }

  predicate IsCounted(op: Op) {
    op.Accept? || op.Ping? || op.Pong? || op.Close? || op.Armed? || op.Reported?
  }

  function Asked(ms: seq<Made>, op: Op): nat {
    if ms == [] then 0 else Asked(ms[..|ms| - 1], op) + if Asks(ms[|ms| - 1], op) then 1 else 0
  }

  function ReportsOf(es: seq<Event>, op: Op): nat {
    if es == [] then 0 else ReportsOf(Before(es), op) + if Reports(Last(es), op) then 1 else 0
  }

  function Count(log: seq<Entry>, op: Op): nat {
    if log == [] then 0 else Count(log[..|log| - 1], op) + if log[|log| - 1].op == op then 1 else 0
  }

  lemma CountOneMore(log: seq<Entry>, op: Op)
    ensures forall e: Entry :: Count(log + [e], op) == Count(log, op) + if e.op == op then 1 else 0
  {
    forall e: Entry
      ensures Count(log + [e], op) == Count(log, op) + if e.op == op then 1 else 0
    {
      assert (log + [e])[..|log|] == log;
    }
  }

  lemma {:induction false} AskedConcat(a: seq<Made>, b: seq<Made>, op: Op)
    ensures Asked(a + b, op) == Asked(a, op) + Asked(b, op)
  {
    if b == [] {
      assert a + b == a;
    } else {
      assert (a + b)[..|a + b| - 1] == a + b[..|b| - 1];
      AskedConcat(a, b[..|b| - 1], op);
    }
  }

  lemma NoteCounts(s: State, noted: Op, op: Op)
    ensures Count(s.Note(noted).log, op) == Count(s.log, op) + if noted == op then 1 else 0
  {
    CountOneMore(s.log, op);
  }

  lemma NotesCount(s: State, s': State, noted: Op, op: Op)
    requires s'.log == s.log + [Entry(noted, s.now)]
    ensures Count(s'.log, op) == Count(s.log, op) + if noted == op then 1 else 0
  {
    CountOneMore(s.log, op);
  }

  lemma DoCounts(s: State, c: Call, op: Op)
    requires IsCounted(op)
    ensures Count(s.Do(c).log, op) == Count(s.log, op) + if Asks(Made(c, s.accepted), op) then 1 else 0
    ensures s.Do(c).accepted == s.accepted
  {
    hide Count;
    var s' := s.Do(c);
    match c
    case DoAccept => if !s.accepted { NotesCount(s, s', Accept, op); }
    case DoRead => if s.accepted && s.readable { NotesCount(s, s', Read, op); }
    case DoWrite => if s.accepted { NotesCount(s, s', Write(Frame(s.output, s.textMode)), op); }
    case DoPing => if s.accepted { NotesCount(s, s', Ping, op); }
    case DoPong => if s.accepted { NotesCount(s, s', Pong, op); }
    case DoClose => if s.accepted { NotesCount(s, s', Close, op); }
    case LaunchTimerWith(id) => NotesCount(s, s', Armed(id), op);
    case _ => assert s'.log == s.log;
  }

  lemma {:induction false} RunCounts(s: State, calls: seq<Call>, op: Op)
    requires IsCounted(op)
    ensures Count(s.Run(calls).log, op) == Count(s.log, op) + Asked(MadeIn(calls, s.accepted), op)
    ensures s.Run(calls).accepted == s.accepted
    decreases |calls|
  {
    hide Count, State.Do, Asks;
    if calls != [] {
      var front, last := calls[..|calls| - 1], calls[|calls| - 1];
      RunCounts(s, front, op);
      DoCounts(s.Run(front), last, op);
      var ms := MadeIn(calls, s.accepted);
      assert ms[..|ms| - 1] == MadeIn(front, s.accepted);
    }
  }

  lemma ContinueCounts(s: State, op: Op)
    requires IsCounted(op)
    ensures Count(s.Continue().log, op) == Count(s.log, op)
  {
    hide Count;
    CountOneMore(s.log, op);
  }

  lemma HandlerCounts(s: State, callback: seq<Call>, text: bool, op: Op)
    requires IsCounted(op)
    ensures var s1 := s.Run(callback);
            var s2 := s1.(input := "");
            var s3 := if s2.autoFrame then s2.(textMode := text) else s2;
            var n := Count(s.log, op) + Asked(MadeIn(callback, s.accepted), op);
            Count(s1.Continue().log, op) == n && Count(s3.Continue().log, op) == n
  {
    hide Count, Asked, State.Run, State.Continue;
    RunCounts(s, callback, op);
    var s1 := s.Run(callback);
    ContinueCounts(s1, op);
    ContinueCounts(s1.(input := ""), op);
    ContinueCounts(s1.(input := "", textMode := text), op);
  }

  lemma FiredCounts(s: State, id: CallbackId, callback: seq<Call>, op: Op)
    requires IsCounted(op)
    ensures Count(s.Note(Fired(id)).Run(callback).log, op)
            == Count(s.log, op) + Asked(MadeIn(callback, s.accepted), op)
  {
    hide Count, Asked, State.Run;
    NoteCounts(s, Fired(id), op);
    RunCounts(s.Note(Fired(id)), callback, op);
  }

  lemma QuietTimerCounts(s: State, ec: Error, op: Op)
    requires IsCounted(op) && !(s.TimerActs(ec) && s.timerCallback.Callback?)
    ensures Count(s.OnTimer(ec, []).log, op) == Count(s.log, op) + if Reports(TimerDone(ec, []), op) then 1 else 0
  {
    hide Count, State.Run;
    CountOneMore(s.log, op);
  }

  lemma OnTimerCounts(s: State, ec: Error, callback: seq<Call>, op: Op)
    requires IsCounted(op)
    requires !s.TimerActs(ec) || s.timerCallback == Unset ==> callback == []
    ensures Count(s.OnTimer(ec, callback).log, op)
            == Count(s.log, op) + Asked(MadeIn(callback, s.accepted), op)
               + if Reports(TimerDone(ec, callback), op) then 1 else 0
  {
    hide Count, State.Run, State.Note, State.Launch;
    if s.TimerActs(ec) && s.timerCallback.Callback? {
      hide Asked;
      FiredCounts(s, s.timerCallback.id, callback, op);
    } else {
      hide State.OnTimer;
      QuietTimerCounts(s, ec, op);
    }
  }

  lemma OnWriteCounts(s: State, ec: Error, op: Op)
    requires IsCounted(op)
    ensures Count(s.OnWrite(ec).log, op) == Count(s.log, op) + if Reports(WriteDone(ec), op) then 1 else 0
  {
    hide Count;
    CountOneMore(s.log, op);
  }

  lemma AcceptCounts(s: State, e: Event, op: Op)
    requires Enabled(s, e) && e.AcceptDone? && IsCounted(op)
    ensures Count(Step(s, e).log, op) == Count(s.log, op) + Asked(MadeBy(s, e), op) + if Reports(e, op) then 1 else 0
  {
    hide Count, State.Run, State.Continue, State.Note;
    var s1 := s.(pendingAccepts := s.pendingAccepts - 1);
    NoteCounts(s1, Reported("accept"), op);
    HandlerCounts(s1.(accepted := true), e.callback, true, op);
  }

  lemma ReadCounts(s: State, e: Event, op: Op)
    requires Enabled(s, e) && e.ReadDone? && IsCounted(op)
    ensures Count(Step(s, e).log, op) == Count(s.log, op) + Asked(MadeBy(s, e), op) + if Reports(e, op) then 1 else 0
  {
    hide Count, State.Run, State.Continue, State.Note;
    var s1 := s.(pendingReads := s.pendingReads - 1);
    NoteCounts(s1, Reported("read"), op);
    HandlerCounts(s1.Received(e.data), e.callback, e.text, op);
  }

  lemma StepCounts(s: State, e: Event, op: Op)
    requires Enabled(s, e) && IsCounted(op)
    ensures Count(Step(s, e).log, op) == Count(s.log, op) + Asked(MadeBy(s, e), op) + if Reports(e, op) then 1 else 0
  {
    hide Count, State.Run, State.Do, State.OnTimer, State.OnWrite, State.OnRead, State.OnAccept, Asks;
    match e
    case External(c) =>
      DoCounts(s, c, op);
      assert [Made(c, s.accepted)][..0] == [];
    case AcceptDone(_, _) => AcceptCounts(s, e, op);
    case ReadDone(_, _, _, _) => ReadCounts(s, e, op);
    case WriteDone(ec) => OnWriteCounts(s.(pendingWrites := s.pendingWrites - 1), ec, op);
    case ControlFrame(callback) => RunCounts(s, callback, op);
    case TimerDone(ec, callback) => OnTimerCounts(s.(waits := s.waits - 1), ec, callback, op);
    case Elapse(_) =>
  }

  /** In every run each accept, ping, pong, close and armed timer callback in the log answers one call
      that asked for it, and each reported failure one failed completion; nothing else starts or reports
      any of these. */
  lemma {:induction false} EveryCallIsAnswered(t0: Time, es: seq<Event>, op: Op)
    requires IsRun(t0, es) && IsCounted(op)
    ensures Count(After(t0, es).log, op) == Asked(CallsMade(t0, es), op) + ReportsOf(es, op)
    decreases |es|
  {
    hide Step, Asks, Reports, MadeBy;
    if es != [] {
      EveryCallIsAnswered(t0, Before(es), op);
      StepCounts(After(t0, Before(es)), Last(es), op);
      AskedConcat(CallsMade(t0, Before(es)), MadeBy(After(t0, Before(es)), Last(es)), op);
    }
  }

  // ---- the frame type ----

  datatype FrameMode = Auto | Text | Binary

  function NextMode(mode: FrameMode, c: Call): FrameMode {
    match c
    case SetAutoFrame => Auto
    case SetTextFrame => Text
    case SetBinaryFrame => Binary
    case _ => mode
  }

  /** The frame type that was asked for last, `mode` before the calls. */
  function ModeAfter(mode: FrameMode, ms: seq<Made>): FrameMode {
    if ms == [] then mode else NextMode(ModeAfter(mode, ms[..|ms| - 1]), ms[|ms| - 1].call)
  }

  lemma {:induction false} ModeConcat(mode: FrameMode, a: seq<Made>, b: seq<Made>)
    ensures ModeAfter(mode, a + b) == ModeAfter(ModeAfter(mode, a), b)
  {
    if b == [] {
      assert a + b == a;
    } else {
      assert (a + b)[..|a + b| - 1] == a + b[..|b| - 1];
      ModeConcat(mode, a, b[..|b| - 1]);
    }
  }

  predicate InMode(s: State, mode: FrameMode) {
    && (s.autoFrame <==> mode == Auto)
    && (mode == Text ==> s.textMode) && (mode == Binary ==> !s.textMode)
  }

  lemma DoKeepsMode(s: State, c: Call, mode: FrameMode)
    requires InMode(s, mode)
    ensures InMode(s.Do(c), NextMode(mode, c))
  {
  }

  lemma {:induction false} RunKeepsMode(s: State, calls: seq<Call>, accepted: bool, mode: FrameMode)
    requires InMode(s, mode)
    ensures InMode(s.Run(calls), ModeAfter(mode, MadeIn(calls, accepted)))
    decreases |calls|
  {
    hide InMode, State.Do, NextMode;
    if calls != [] {
      var front, last := calls[..|calls| - 1], calls[|calls| - 1];
      RunKeepsMode(s, front, accepted, mode);
      var ms := MadeIn(calls, accepted);
      assert ms[..|ms| - 1] == MadeIn(front, accepted);
      DoKeepsMode(s.Run(front), last, ModeAfter(mode, MadeIn(front, accepted)));
    }
  }

  lemma ContinueKeepsMode(s: State)
    ensures s.Continue().autoFrame == s.autoFrame && s.Continue().textMode == s.textMode
  {
  }

  lemma NoCallsKeepMode(mode: FrameMode, accepted: bool)
    ensures ModeAfter(mode, MadeIn([], accepted)) == mode
  {
  }

  lemma AcceptKeepsMode(s: State, e: Event, mode: FrameMode)
    requires Enabled(s, e) && e.AcceptDone? && InMode(s, mode)
    ensures InMode(Step(s, e), ModeAfter(mode, MadeBy(s, e)))
  {
    hide State.Run, State.Continue, ModeAfter;
    var s1 := s.(pendingAccepts := s.pendingAccepts - 1, accepted := true);
    RunKeepsMode(s1, e.callback, true, mode);
    ContinueKeepsMode(s1.Run(e.callback));
    assert ModeAfter(mode, MadeIn([], true)) == mode by { NoCallsKeepMode(mode, true); }
  }

  lemma ReadKeepsMode(s: State, e: Event, mode: FrameMode)
    requires Enabled(s, e) && e.ReadDone? && InMode(s, mode)
    ensures InMode(Step(s, e), ModeAfter(mode, MadeBy(s, e)))
    ensures e.ec == NoError && Step(s, e).autoFrame ==> Step(s, e).textMode == e.text
  {
    hide State.Run, State.Continue, ModeAfter;
    var s1 := s.(pendingReads := s.pendingReads - 1).Received(e.data);
    RunKeepsMode(s1, e.callback, s.accepted, mode);
    ContinueKeepsMode(s1.Run(e.callback).(input := ""));
    ContinueKeepsMode(s1.Run(e.callback).(input := "", textMode := e.text));
    NoCallsKeepMode(mode, s.accepted);
  }

  lemma TimerKeepsMode(s: State, e: Event, mode: FrameMode)
    requires Enabled(s, e) && e.TimerDone? && InMode(s, mode)
    ensures InMode(Step(s, e), ModeAfter(mode, MadeBy(s, e)))
  {
    hide State.Run, ModeAfter;
    NoCallsKeepMode(mode, s.accepted);
    if s.timerCallback.Callback? {
      RunKeepsMode(s.(waits := s.waits - 1).Note(Fired(s.timerCallback.id)), e.callback, s.accepted, mode);
    }
  }

  lemma StepKeepsMode(s: State, e: Event, mode: FrameMode)
    requires Enabled(s, e) && InMode(s, mode)
    ensures InMode(Step(s, e), ModeAfter(mode, MadeBy(s, e)))
    ensures e.ReadDone? && e.ec == NoError && Step(s, e).autoFrame ==> Step(s, e).textMode == e.text
  {
    hide State.Run, State.Do, State.OnAccept, State.OnRead, State.OnTimer;
    match e
    case External(c) =>
      DoKeepsMode(s, c, mode);
      assert [Made(c, s.accepted)][..0] == [];
    case AcceptDone(_, _) => AcceptKeepsMode(s, e, mode);
    case ReadDone(_, _, _, _) => ReadKeepsMode(s, e, mode);
    case WriteDone(_) =>
    case ControlFrame(callback) => RunKeepsMode(s, callback, s.accepted, mode);
    case TimerDone(_, _) => TimerKeepsMode(s, e, mode);
    case Elapse(_) =>
  }

  lemma StartsDetecting(t0: Time)
    ensures InMode(Initial(t0), Auto)
  {
  }

  /** In every run a session writes in the frame type that was asked for last; asked for detection, or
      for nothing, it takes the type of each message it reads. */
  lemma {:induction false} FrameTypeAsAsked(t0: Time, es: seq<Event>)
    requires IsRun(t0, es)
    ensures InMode(After(t0, es), ModeAfter(Auto, CallsMade(t0, es)))
    ensures es != [] && Last(es).ReadDone? && Last(es).ec == NoError && After(t0, es).autoFrame ==>
              After(t0, es).textMode == Last(es).text
    decreases |es|
  {
    hide Step, InMode, MadeBy;
    if es == [] {
      assert InMode(Initial(t0), Auto) by { StartsDetecting(t0); }
    } else {
      FrameTypeAsAsked(t0, Before(es));
      var s := After(t0, Before(es));
      StepKeepsMode(s, Last(es), ModeAfter(Auto, CallsMade(t0, Before(es))));
      ModeConcat(Auto, CallsMade(t0, Before(es)), MadeBy(s, Last(es)));
    }
  }
}
