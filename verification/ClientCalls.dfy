/** Every call made on a client session does exactly what it is for, over every run. The client's
    counterpart of ServerCalls. */
module ClientCalls {
  import opened Traces
  import opened ClientSession

  // ---- the calls of a run ----

  /** A call, and whether a handshake had succeeded by then. */
  datatype Made = Made(call: Call, handshaked: bool)

  function MadeIn(calls: seq<Call>, handshaked: bool): (ms: seq<Made>)
    ensures |ms| == |calls|
  {
    seq(|calls|, i requires 0 <= i < |calls| => Made(calls[i], handshaked))
  }

  /** The calls made in an event, from outside or in its callback; a failure runs no callback. */
  function MadeBy(s: State, e: Event): seq<Made> {
    match e
    case External(c) => [Made(c, s.handshaked)]
    case HandshakeDone(ok, callback) => if ok then MadeIn(callback.calls, true) else []
    case ReadDone(ok, _, _, callback) => if ok then MadeIn(callback.calls, s.handshaked) else []
    case WriteDone(_, _) => []
    case ControlFrame(calls) => MadeIn(calls, s.handshaked)
  }

  function CallsMade(es: seq<Event>): seq<Made>
    requires IsRun(es)
  {
    if es == [] then [] else CallsMade(Before(es)) + MadeBy(After(Before(es)), Last(es))
  }

  // ---- what they start, and what is reported ----

  /** The operation a call asks for: a handshake only before one has succeeded, a ping, pong or close
      only after. */
  predicate Asks(m: Made, op: Op) {
    || (op == Handshake && m.call == DoHandshake && !m.handshaked)
    || (op == Ping && m.call == DoPing && m.handshaked)
    || (op == Pong && m.call == DoPong && m.handshaked)
    || (op == Close && m.call == DoClose && m.handshaked)
  }

  predicate Reports(e: Event, op: Op) {
    || (op == Reported("handshake") && e.HandshakeDone? && !e.ok)
    || (op == Reported("read") && e.ReadDone? && !e.ok)
    || (op == Reported("write") && e.WriteDone? && !e.ok)
  }

  predicate IsCounted(op: Op) {
    op.Handshake? || op.Ping? || op.Pong? || op.Close? || op.Reported?
  }

  function Asked(ms: seq<Made>, op: Op): nat {
    if ms == [] then 0 else Asked(ms[..|ms| - 1], op) + if Asks(ms[|ms| - 1], op) then 1 else 0
  }

  function ReportsOf(es: seq<Event>, op: Op): nat {
    if es == [] then 0 else ReportsOf(Before(es), op) + if Reports(Last(es), op) then 1 else 0
  }

  function Count(log: seq<Op>, op: Op): nat {
    if log == [] then 0 else Count(log[..|log| - 1], op) + if log[|log| - 1] == op then 1 else 0
  }

  lemma CountOneMore(log: seq<Op>, op: Op)
    ensures forall o: Op :: Count(log + [o], op) == Count(log, op) + if o == op then 1 else 0
  {
    forall o: Op
      ensures Count(log + [o], op) == Count(log, op) + if o == op then 1 else 0
    {
      assert (log + [o])[..|log|] == log;
    }
  }

  lemma {:induction false} AskedConcat(a: seq<Made>, b: seq<Made>, op: Op)
    ensures Asked(a + b, op) == Asked(a, op) + Asked(b, op)
  {
    if b == [] {
      assert a + b == a;
    } else {
      assert (a + b)[..|a + b| - 1] == a + b[..|b| - 1];
      AskedConcat(a, b[..|b| - 1], op);
    }
  }

  lemma DoCounts(s: State, c: Call, op: Op)
    requires IsCounted(op)
    ensures Count(s.Do(c).log, op) == Count(s.log, op) + if Asks(Made(c, s.handshaked), op) then 1 else 0
    ensures s.Do(c).handshaked == s.handshaked
  {
    hide Count;
    CountOneMore(s.log, op);
  }

  lemma {:induction false} RunCounts(s: State, calls: seq<Call>, op: Op)
    requires IsCounted(op)
    ensures Count(s.Run(calls).log, op) == Count(s.log, op) + Asked(MadeIn(calls, s.handshaked), op)
    ensures s.Run(calls).handshaked == s.handshaked
    decreases |calls|
  {
    hide Count, State.Do, Asks;
    if calls != [] {
      var front, last := calls[..|calls| - 1], calls[|calls| - 1];
      RunCounts(s, front, op);
      DoCounts(s.Run(front), last, op);
      var ms := MadeIn(calls, s.handshaked);
      assert ms[..|ms| - 1] == MadeIn(front, s.handshaked);
    }
  }

  lemma FinishCounts(s: State, nextRead: bool, op: Op)
    requires IsCounted(op)
    ensures Count(s.Finish(nextRead).log, op) == Count(s.log, op)
  {
    hide Count;
    CountOneMore(s.log, op);
  }

  lemma HandlerCounts(s: State, callback: Callback, text: bool, op: Op)
    requires IsCounted(op)
    ensures var s1 := s.Run(callback.calls);
            var s2 := s1.(input := "");
            var s3 := if s2.autoFrame then s2.(textMode := text) else s2;
            var n := Count(s.log, op) + Asked(MadeIn(callback.calls, s.handshaked), op);
            Count(s1.Finish(callback.nextRead).log, op) == n && Count(s3.Finish(callback.nextRead).log, op) == n
  {
    hide Count, Asked, State.Run, State.Finish;
    RunCounts(s, callback.calls, op);
    var s1 := s.Run(callback.calls);
    FinishCounts(s1, callback.nextRead, op);
    FinishCounts(s1.(input := ""), callback.nextRead, op);
    FinishCounts(s1.(input := "", textMode := text), callback.nextRead, op);
  }

  lemma NoteCounts(s: State, noted: Op, op: Op)
    ensures Count(s.Note(noted).log, op) == Count(s.log, op) + if noted == op then 1 else 0
  {
    CountOneMore(s.log, op);
  }

  lemma OnWriteCounts(s: State, ok: bool, nextRead: bool, op: Op)
    requires IsCounted(op)
    ensures Count(s.OnWrite(ok, nextRead).log, op)
            == Count(s.log, op) + if op == Reported("write") && !ok then 1 else 0
  {
    hide Count;
    CountOneMore(s.log, op);
  }

  lemma StepCounts(s: State, e: Event, op: Op)
    requires Enabled(s, e) && IsCounted(op)
    ensures Count(Step(s, e).log, op) == Count(s.log, op) + Asked(MadeBy(s, e), op) + if Reports(e, op) then 1 else 0
  {
    hide Count, State.Run, State.Do, State.OnWrite, State.Finish, State.Note, Asks;
    match e
    case External(c) =>
      DoCounts(s, c, op);
      assert [Made(c, s.handshaked)][..0] == [];
    case HandshakeDone(_, callback) =>
      var s1 := s.(pendingHandshakes := s.pendingHandshakes - 1);
      NoteCounts(s1, Reported("handshake"), op);
      HandlerCounts(s1.(handshaked := true), callback, true, op);
    case ReadDone(_, data, text, callback) =>
      var s1 := s.(pendingReads := s.pendingReads - 1);
      NoteCounts(s1, Reported("read"), op);
      HandlerCounts(s1.Received(data), callback, text, op);
    case WriteDone(which, ok) =>
      OnWriteCounts(s.(pendingWrites := Without(s.pendingWrites, which)), ok, s.pendingWrites[which], op);
    case ControlFrame(calls) => RunCounts(s, calls, op);
  }

  /** In every run each handshake, ping, pong and close in the log answers one call that asked for it,
      and each reported failure one failed completion; nothing else starts or reports any of these. */
  lemma {:induction false} EveryCallIsAnswered(es: seq<Event>, op: Op)
    requires IsRun(es) && IsCounted(op)
    ensures Count(After(es).log, op) == Asked(CallsMade(es), op) + ReportsOf(es, op)
    decreases |es|
  {
    hide Step, Asks, Reports, MadeBy;
    if es != [] {
      EveryCallIsAnswered(Before(es), op);
      StepCounts(After(Before(es)), Last(es), op);
      AskedConcat(CallsMade(Before(es)), MadeBy(After(Before(es)), Last(es)), op);
    }
  }

  // ---- the frame type ----

  datatype FrameMode = Auto | Text | Binary

  function NextMode(mode: FrameMode, c: Call): FrameMode {
    match c
    case SetAutoFrame => Auto
    case SetTextFrame => Text
    case SetBinaryFrame => Binary
    case _ => mode
  }

  /** The frame type that was asked for last, `mode` before the calls. */
  function ModeAfter(mode: FrameMode, ms: seq<Made>): FrameMode {
    if ms == [] then mode else NextMode(ModeAfter(mode, ms[..|ms| - 1]), ms[|ms| - 1].call)
  }

  lemma {:induction false} ModeConcat(mode: FrameMode, a: seq<Made>, b: seq<Made>)
    ensures ModeAfter(mode, a + b) == ModeAfter(ModeAfter(mode, a), b)
  {
    if b == [] {
      assert a + b == a;
    } else {
      assert (a + b)[..|a + b| - 1] == a + b[..|b| - 1];
      ModeConcat(mode, a, b[..|b| - 1]);
    }
  }

  predicate InMode(s: State, mode: FrameMode) {
    && (s.autoFrame <==> mode == Auto)
    && (mode == Text ==> s.textMode) && (mode == Binary ==> !s.textMode)
  }

  lemma DoKeepsMode(s: State, c: Call, mode: FrameMode)
    requires InMode(s, mode)
    ensures InMode(s.Do(c), NextMode(mode, c))
  {
  }

  lemma {:induction false} RunKeepsMode(s: State, calls: seq<Call>, handshaked: bool, mode: FrameMode)
    requires InMode(s, mode)
    ensures InMode(s.Run(calls), ModeAfter(mode, MadeIn(calls, handshaked)))
    decreases |calls|
  {
    hide InMode, State.Do, NextMode;
    if calls != [] {
      var front, last := calls[..|calls| - 1], calls[|calls| - 1];
      RunKeepsMode(s, front, handshaked, mode);
      var ms := MadeIn(calls, handshaked);
      assert ms[..|ms| - 1] == MadeIn(front, handshaked);
      DoKeepsMode(s.Run(front), last, ModeAfter(mode, MadeIn(front, handshaked)));
    }
  }

  lemma NoCallsKeepMode(mode: FrameMode)
    ensures ModeAfter(mode, []) == mode
  {
  }

  lemma HandshakeKeepsMode(s: State, e: Event, mode: FrameMode)
    requires Enabled(s, e) && e.HandshakeDone? && InMode(s, mode)
    ensures InMode(Step(s, e), ModeAfter(mode, MadeBy(s, e)))
  {
    hide State.Run, ModeAfter;
    NoCallsKeepMode(mode);
    RunKeepsMode(s.(pendingHandshakes := s.pendingHandshakes - 1, handshaked := true), e.callback.calls, true, mode);
  }

  lemma ReadKeepsMode(s: State, e: Event, mode: FrameMode)
    requires Enabled(s, e) && e.ReadDone? && InMode(s, mode)
    ensures InMode(Step(s, e), ModeAfter(mode, MadeBy(s, e)))
    ensures e.ok && Step(s, e).autoFrame ==> Step(s, e).textMode == e.text
  {
    hide State.Run, ModeAfter;
    NoCallsKeepMode(mode);
    RunKeepsMode(s.(pendingReads := s.pendingReads - 1).Received(e.data), e.callback.calls, s.handshaked, mode);
  }

  lemma StepKeepsMode(s: State, e: Event, mode: FrameMode)
    requires Enabled(s, e) && InMode(s, mode)
    ensures InMode(Step(s, e), ModeAfter(mode, MadeBy(s, e)))
    ensures e.ReadDone? && e.ok && Step(s, e).autoFrame ==> Step(s, e).textMode == e.text
  {
    hide State.Run, State.Do, State.OnHandshake, State.OnRead;
    match e
    case External(c) =>
      DoKeepsMode(s, c, mode);
      assert [Made(c, s.handshaked)][..0] == [];
    case HandshakeDone(_, _) => HandshakeKeepsMode(s, e, mode);
    case ReadDone(_, _, _, _) => ReadKeepsMode(s, e, mode);
    case WriteDone(_, _) =>
    case ControlFrame(calls) => RunKeepsMode(s, calls, s.handshaked, mode);
  }

  lemma StartsDetecting()
    ensures InMode(INITIAL, Auto)
  {
  }

  /** In every run a session writes in the frame type that was asked for last; asked for detection, or
      for nothing, it takes the type of each message it reads. */
  lemma {:induction false} FrameTypeAsAsked(es: seq<Event>)
    requires IsRun(es)
    ensures InMode(After(es), ModeAfter(Auto, CallsMade(es)))
    ensures es != [] && Last(es).ReadDone? && Last(es).ok && After(es).autoFrame ==> After(es).textMode == Last(es).text
    decreases |es|
  {
    hide Step, InMode, MadeBy;
    if es == [] {
      assert InMode(INITIAL, Auto) by { StartsDetecting(); }
    } else {
      FrameTypeAsAsked(Before(es));
      var s := After(Before(es));
      StepKeepsMode(s, Last(es), ModeAfter(Auto, CallsMade(Before(es))));
      ModeConcat(Auto, CallsMade(Before(es)), MadeBy(s, Last(es)));
    }
  }
}
