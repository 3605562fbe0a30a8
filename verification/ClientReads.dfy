/** What a client session has outstanding, over every run. */
module ClientReads {
  import opened Traces
  import Server = ServerSession
  import opened ClientSession

  predicate IsFailedRead(e: Event) { e.ReadDone? && !e.ok }

  predicate IsHandshaked(e: Event) { e.HandshakeDone? && e.ok }

  predicate IsFailure(e: Event) { (e.HandshakeDone? || e.ReadDone? || e.WriteDone?) && !e.ok }

  // ---- single outstanding read, whatever the callbacks and the environment do ----

  /** A read may be started exactly when none is pending and none has failed; nothing that needs a
      handshake was started before one succeeded. */
  ghost predicate ReadDiscipline(s: State, failed: bool) {
    && s.pendingReads <= 1
    && (s.readable <==> s.pendingReads == 0 && !failed)
    && (failed ==> s.pendingReads == 0)
    && (!s.handshaked ==> forall op :: op in s.log ==> op.Handshake? || op.Reported?)
  }

  ghost predicate Kept(s: State, s': State, failed: bool) {
    && ReadDiscipline(s', failed) && s'.handshaked == s.handshaked
    && s.log <= s'.log
    && (failed ==> forall k :: |s.log| <= k < |s'.log| ==> !s'.log[k].Read?)
  }

  lemma DoKeepsReads(s: State, c: Call, failed: bool)
    requires ReadDiscipline(s, failed)
    ensures Kept(s, s.Do(c), failed)
  {
  }

  lemma {:induction false} RunKeepsReads(s: State, calls: seq<Call>, failed: bool)
    requires ReadDiscipline(s, failed)
    ensures Kept(s, s.Run(calls), failed)
    decreases |calls|
  {
    if calls != [] {
      var front := calls[..|calls| - 1];
      RunKeepsReads(s, front, failed);
      DoKeepsReads(s.Run(front), calls[|calls| - 1], failed);
    }
  }

  lemma HandlerKeepsReads(s: State, callback: Callback, text: bool, failed: bool)
    requires ReadDiscipline(s, failed)
    ensures var s1 := s.Run(callback.calls);
            var s2 := s1.(input := "");
            && Kept(s, s1.Finish(callback.nextRead), failed)
            && Kept(s, (if s2.autoFrame then s2.(textMode := text) else s2).Finish(callback.nextRead), failed)
  {
    hide State.Run;
    RunKeepsReads(s, callback.calls, failed);
    var s1 := s.Run(callback.calls);
    var s2 := s1.(input := "");
    DoKeepsReads(s1, DoWrite(callback.nextRead), failed);
    DoKeepsReads(s2, DoWrite(callback.nextRead), failed);
    DoKeepsReads(s2.(textMode := text), DoWrite(callback.nextRead), failed);
  }

  lemma OnWriteKeepsReads(s: State, ok: bool, nextRead: bool, failed: bool)
    requires ReadDiscipline(s, failed)
    ensures Kept(s, s.OnWrite(ok, nextRead), failed)
  {
    if ok { DoKeepsReads(s.(output := ""), DoRead, failed); }
  }

  lemma OnHandshakeKeepsReads(s: State, ok: bool, callback: Callback, failed: bool)
    requires ReadDiscipline(s, failed)
    ensures var s' := s.OnHandshake(ok, callback);
            && Kept(s.(handshaked := s.handshaked || ok), s', failed)
  {
    hide State.Run, State.Finish;
    if ok { HandlerKeepsReads(s.(handshaked := true), callback, true, failed); }
  }

  lemma OnReadKeepsReads(s: State, ok: bool, data: string, text: bool, callback: Callback)
    requires ReadDiscipline(s, true)
    ensures Kept(s, s.OnRead(ok, data, text, callback), !ok)
  {
    hide State.Run, State.Finish;
    if ok { HandlerKeepsReads(s.(readable := true, input := s.input + data), callback, text, false); }
  }

  lemma StepKeepsReads(s: State, e: Event, failed: bool)
    requires Enabled(s, e) && ReadDiscipline(s, failed)
    ensures var s' := Step(s, e);
            && ReadDiscipline(s', failed || IsFailedRead(e))
            && (s'.handshaked <==> s.handshaked || IsHandshaked(e))
            && s.log <= s'.log
            && (failed ==> forall k :: |s.log| <= k < |s'.log| ==> !s'.log[k].Read?)
  {
    hide State.Run, State.Do, State.OnHandshake, State.OnRead, State.OnWrite;
    match e
    case External(c) => DoKeepsReads(s, c, failed);
    case HandshakeDone(ok, callback) =>
      OnHandshakeKeepsReads(s.(pendingHandshakes := s.pendingHandshakes - 1), ok, callback, failed);
    case ReadDone(ok, data, text, callback) =>
      OnReadKeepsReads(s.(pendingReads := s.pendingReads - 1), ok, data, text, callback);
    case WriteDone(which, ok) =>
      OnWriteKeepsReads(s.(pendingWrites := Without(s.pendingWrites, which)), ok, s.pendingWrites[which], failed);
    case ControlFrame(calls) => RunKeepsReads(s, calls, failed);
  }

  /** In every run, for any callbacks, outside calls and order of completions: at most one read is
      pending, a read may be started exactly when none is pending and none has failed, and no read,
      write, ping, pong or close was started before a handshake succeeded. */
  lemma {:induction false} SingleOutstandingRead(es: seq<Event>)
    requires IsRun(es)
    ensures ReadDiscipline(After(es), Some(es, IsFailedRead))
    ensures After(es).handshaked <==> Some(es, IsHandshaked)
    decreases |es|
  {
    if es != [] {
      SingleOutstandingRead(Before(es));
      SomeOneMore(es, IsFailedRead);
      SomeOneMore(es, IsHandshaked);
      StepKeepsReads(After(Before(es)), Last(es), Some(Before(es), IsFailedRead));
    }
  }

  /** After a failed read, whatever happens next starts no read. */
  lemma NoReadAfterFailure(es: seq<Event>, e: Event)
    requires IsRun(es) && Some(es, IsFailedRead) && Enabled(After(es), e)
    ensures After(es).log <= Step(After(es), e).log
    ensures forall k :: |After(es).log| <= k < |Step(After(es), e).log| ==> !Step(After(es), e).log[k].Read?
  {
    SingleOutstandingRead(es);
    StepKeepsReads(After(es), e, true);
  }

  // ---- what message callbacks are handed ----

  lemma {:induction false} RunKeepsInput(s: State, calls: seq<Call>)
    ensures s.Run(calls).input == s.input
    decreases |calls|
  {
    if calls != [] { RunKeepsInput(s, calls[..|calls| - 1]); }
  }

  lemma StepEmptiesInput(s: State, e: Event)
    requires Enabled(s, e) && s.input == ""
    ensures Step(s, e).input == ""
  {
    hide State.Run;
    match e
    case External(_) =>
    case HandshakeDone(_, callback) =>
      RunKeepsInput(s.(pendingHandshakes := s.pendingHandshakes - 1, handshaked := true), callback.calls);
    case ReadDone(_, _, _, _) =>
    case WriteDone(_, _) =>
    case ControlFrame(calls) => RunKeepsInput(s, calls);
  }

  function HandedIn(s: State, e: Event): seq<string> {
    if e.ReadDone? && e.ok then [s.Received(e.data).input] else []
  }

  /** The input buffers handed to the message callbacks of a run, in order. */
  function Handed(es: seq<Event>): seq<string>
    requires IsRun(es)
  {
    if es == [] then [] else Handed(Before(es)) + HandedIn(After(Before(es)), Last(es))
  }

  /** The messages the stream delivered. */
  function MessagesRead(es: seq<Event>): seq<string> {
    if es == [] then []
    else MessagesRead(Before(es)) + if Last(es).ReadDone? && Last(es).ok then [Last(es).data] else []
  }

  /** In every run the input buffer is empty between handlers, and the k-th message callback is handed
      exactly the k-th message, with nothing of an earlier one in front of it. */
  lemma {:induction false} CallbacksSeeTheirMessage(es: seq<Event>)
    requires IsRun(es)
    ensures After(es).input == "" && Handed(es) == MessagesRead(es)
    decreases |es|
  {
    hide Step;
    if es != [] {
      CallbacksSeeTheirMessage(Before(es));
      StepEmptiesInput(After(Before(es)), Last(es));
      if Last(es).ReadDone? { assert "" + Last(es).data == Last(es).data; }
    }
  }

  // ---- one token ----

  /** A call that touches neither handshakes, reads, writes nor the output. */
  predicate IsSilent(c: Call) { !c.DoHandshake? && !c.DoRead? && !c.DoWrite? && !c.Append? }

  predicate Silent(calls: seq<Call>) { forall c :: c in calls ==> IsSilent(c) }

  predicate NeitherShakesNorWrites(calls: seq<Call>) {
    forall c :: c in calls ==> !c.DoHandshake? && !c.DoWrite?
  }

  function Appended(calls: seq<Call>): string {
    if calls == [] then ""
    else
      var c := calls[|calls| - 1];
      Appended(calls[..|calls| - 1]) + if c.Append? then c.text else ""
  }

  /** A callback does exactly one of two things: write output and let the session read after it, or
      start reading. */
  ghost predicate AnswersOrReads(callback: Callback) {
    && NeitherShakesNorWrites(callback.calls)
    && (Appended(callback.calls) != "") != (DoRead in callback.calls)
    && (Appended(callback.calls) != "" ==> callback.nextRead)
  }

  ghost predicate IsOrderly(e: Event) {
    match e
    case External(c) => c.DoHandshake? || IsSilent(c)
    case HandshakeDone(ok, callback) => ok ==> AnswersOrReads(callback)
    case ReadDone(ok, _, _, callback) => ok ==> AnswersOrReads(callback)
    case WriteDone(_, _) => true
    case ControlFrame(calls) => Silent(calls)
  }

  function HandshakeCalls(es: seq<Event>): nat {
    if es == [] then 0
    else HandshakeCalls(Before(es)) + if Last(es) == External(DoHandshake) then 1 else 0
  }

  function Failures(es: seq<Event>): nat {
    if es == [] then 0 else Failures(Before(es)) + if IsFailure(Last(es)) then 1 else 0
  }

  function Outstanding(s: State): nat {
    s.pendingHandshakes + s.pendingReads + |s.pendingWrites|
  }

  ghost predicate Token(s: State, calls: nat, failures: nat) {
    && calls <= 1
    && Outstanding(s) + failures == calls
    && (calls == 0 || s.pendingHandshakes == 1 ==> !s.handshaked)
    && (s.pendingReads + |s.pendingWrites| == 1 ==> s.handshaked)
    && (failures == 0 ==> (s.readable <==> s.pendingReads == 0))
    && (failures == 0 && |s.pendingWrites| == 0 ==> s.output == "")
    && (|s.pendingWrites| == 1 ==> s.pendingWrites[0])
  }

  /** What a callback that neither shakes hands nor writes has done so far. */
  ghost predicate Progress(s: State, didRead: bool, output: string) {
    && s.handshaked && s.pendingHandshakes == 0 && s.pendingWrites == []
    && s.pendingReads == (if didRead then 1 else 0)
    && (s.readable <==> !didRead)
    && s.output == output
  }

  lemma CallProgress(s: State, c: Call, didRead: bool, output: string)
    requires Progress(s, didRead, output) && !c.DoHandshake? && !c.DoWrite?
    ensures Progress(s.Do(c), didRead || c.DoRead?, output + if c.Append? then c.text else "")
  {
  }

  lemma {:induction false} CallbackEffect(s: State, calls: seq<Call>)
    requires NeitherShakesNorWrites(calls)
    requires s.handshaked && s.readable && Outstanding(s) == 0
    ensures Progress(s.Run(calls), DoRead in calls, s.output + Appended(calls))
    decreases |calls|
  {
    if calls != [] {
      var front, last := calls[..|calls| - 1], calls[|calls| - 1];
      assert calls == front + [last];
      assert forall c :: c in front ==> c in calls;
      assert last in calls;
      CallbackEffect(s, front);
      CallProgress(s.Run(front), last, DoRead in front, s.output + Appended(front));
    } else {
      assert s.output + "" == s.output;
    }
  }

  /** After a handler whose callback neither shakes hands nor writes, exactly one operation is
      outstanding if and only if the callback did exactly one of writing output and reading. */
  lemma HandlerLeavesOneExactlyWhen(s: State, callback: Callback)
    requires NeitherShakesNorWrites(callback.calls)
    requires s.handshaked && s.readable && Outstanding(s) == 0 && s.output == ""
    ensures Outstanding(s.Run(callback.calls).Finish(callback.nextRead)) == 1
            <==> ((Appended(callback.calls) != "") != (DoRead in callback.calls))
  {
    CallbackEffect(s, callback.calls);
  }

  lemma {:induction false} SilentRun(s: State, calls: seq<Call>)
    requires Silent(calls)
    ensures var s' := s.Run(calls);
            && s'.handshaked == s.handshaked && s'.readable == s.readable && s'.output == s.output
            && s'.pendingHandshakes == s.pendingHandshakes && s'.pendingReads == s.pendingReads
            && s'.pendingWrites == s.pendingWrites
    decreases |calls|
  {
    if calls != [] {
      assert calls[|calls| - 1] in calls;
      SilentRun(s, calls[..|calls| - 1]);
    }
  }

  lemma HandlerKeepsToken(s: State, callback: Callback, text: bool)
    requires AnswersOrReads(callback)
    requires s.handshaked && s.readable && Outstanding(s) == 0 && s.output == ""
    ensures var s1 := s.Run(callback.calls);
            var s2 := s1.(input := "");
            && Token(s1.Finish(callback.nextRead), 1, 0)
            && Token((if s2.autoFrame then s2.(textMode := text) else s2).Finish(callback.nextRead), 1, 0)
  {
    hide State.Run, Appended;
    CallbackEffect(s, callback.calls);
  }

  lemma ExternalKeepsToken(s: State, c: Call, calls: nat, failures: nat)
    requires Token(s, calls, failures) && (if c.DoHandshake? then calls == 0 else IsSilent(c))
    ensures Token(s.Do(c), calls + if c.DoHandshake? then 1 else 0, failures)
  {
  }

  lemma WriteKeepsToken(s: State, which: nat, ok: bool, failures: nat)
    requires Token(s, 1, failures) && which < |s.pendingWrites|
    ensures var s1 := s.(pendingWrites := Without(s.pendingWrites, which));
            Token(s1.OnWrite(ok, s.pendingWrites[which]), 1, failures + if ok then 0 else 1)
  {
  }

  lemma StepKeepsToken(s: State, e: Event, calls: nat, failures: nat)
    requires Enabled(s, e) && IsOrderly(e) && Token(s, calls, failures)
    requires e == External(DoHandshake) ==> calls == 0
    ensures Token(Step(s, e), calls + if e == External(DoHandshake) then 1 else 0,
                  failures + if IsFailure(e) then 1 else 0)
  {
    hide State.Run, State.Do, State.Finish, State.OnWrite, AnswersOrReads;
    match e
    case External(c) => ExternalKeepsToken(s, c, calls, failures);
    case HandshakeDone(ok, callback) =>
      if ok { HandlerKeepsToken(s.(pendingHandshakes := 0, handshaked := true), callback, true); }
    case ReadDone(ok, data, text, callback) =>
      if ok {
        HandlerKeepsToken(s.(pendingReads := 0, readable := true, input := s.input + data), callback, text);
      }
    case WriteDone(which, ok) => WriteKeepsToken(s, which, ok, failures);
    case ControlFrame(cs) => SilentRun(s, cs);
  }

  /** Token preservation: with one handshake, and callbacks that do exactly one of writing output
      with `next_read` left true and reading, exactly one handshake, read or write is outstanding
      until one fails, and none after that. */
  lemma {:induction false} OneOutstandingUntilFailure(es: seq<Event>)
    requires IsRun(es) && HandshakeCalls(es) <= 1 && forall e :: e in es ==> IsOrderly(e)
    ensures Outstanding(After(es)) == if Some(es, IsFailure) then 0 else HandshakeCalls(es)
    ensures Token(After(es), HandshakeCalls(es), Failures(es))
    ensures Failures(es) > 0 <==> Some(es, IsFailure)
    decreases |es|
  {
    if es != [] {
      assert forall e :: e in Before(es) ==> e in es;
      assert Last(es) in es;
      OneOutstandingUntilFailure(Before(es));
      SomeOneMore(es, IsFailure);
      StepKeepsToken(After(Before(es)), Last(es), HandshakeCalls(Before(es)), Failures(Before(es)));
    }
  }

  // ---- a client that does not ask ----

  predicate NoReadIn(calls: seq<Call>) {
    DoRead !in calls && DoWrite(true) !in calls
  }

  /** Nobody calls do_read, and nobody lets a write be followed by a read. */
  ghost predicate AsksForNoRead(e: Event) {
    match e
    case External(c) => !c.DoRead? && c != DoWrite(true)
    case HandshakeDone(_, callback) => !callback.nextRead && NoReadIn(callback.calls)
    case ReadDone(_, _, _, callback) => !callback.nextRead && NoReadIn(callback.calls)
    case WriteDone(_, _) => true
    case ControlFrame(calls) => NoReadIn(calls)
  }

  ghost predicate ReadsNothing(s: State) {
    && s.pendingReads == 0
    && (forall op :: op in s.log ==> !op.Read?)
    && (forall w :: w in s.pendingWrites ==> !w)
  }

  lemma DoReadsNothing(s: State, c: Call)
    requires ReadsNothing(s) && !c.DoRead? && c != DoWrite(true)
    ensures ReadsNothing(s.Do(c))
  {
  }

  lemma {:induction false} RunReadsNothing(s: State, calls: seq<Call>)
    requires ReadsNothing(s) && NoReadIn(calls)
    ensures ReadsNothing(s.Run(calls))
    decreases |calls|
  {
    if calls != [] {
      var front, last := calls[..|calls| - 1], calls[|calls| - 1];
      assert last in calls && forall c :: c in front ==> c in calls;
      RunReadsNothing(s, front);
      DoReadsNothing(s.Run(front), last);
    }
  }

  lemma StepReadsNothing(s: State, e: Event)
    requires Enabled(s, e) && ReadsNothing(s) && AsksForNoRead(e)
    ensures ReadsNothing(Step(s, e))
  {
    hide State.Run, State.Do;
    match e
    case External(c) => DoReadsNothing(s, c);
    case HandshakeDone(ok, callback) =>
      RunReadsNothing(s.(pendingHandshakes := s.pendingHandshakes - 1, handshaked := true), callback.calls);
    case ReadDone(_, _, _, _) =>
    case WriteDone(which, ok) =>
      assert s.pendingWrites[which] in s.pendingWrites;
      assert forall w :: w in Without(s.pendingWrites, which) ==> w in s.pendingWrites;
    case ControlFrame(calls) => RunReadsNothing(s, calls);
  }

  /** A client reads only when asked: if nobody calls do_read and every write leaves `next_read`
      false, no read is ever started, neither after the handshake nor after any write. */
  lemma {:induction false} NeverReadsUnasked(es: seq<Event>)
    requires IsRun(es) && forall e :: e in es ==> AsksForNoRead(e)
    ensures ReadsNothing(After(es))
    decreases |es|
  {
    if es != [] {
      assert forall e :: e in Before(es) ==> e in es;
      assert Last(es) in es;
      NeverReadsUnasked(Before(es));
      StepReadsNothing(After(Before(es)), Last(es));
    }
  }

  predicate KeepsFrame(calls: seq<Call>) {
    forall c :: c in calls ==> !c.SetAutoFrame? && !c.SetTextFrame? && !c.SetBinaryFrame?
  }

  lemma {:induction false} RunKeepsFrame(s: State, calls: seq<Call>)
    requires KeepsFrame(calls)
    ensures s.Run(calls).autoFrame == s.autoFrame
    decreases |calls|
  {
    if calls != [] {
      assert calls[|calls| - 1] in calls;
      RunKeepsFrame(s, calls[..|calls| - 1]);
    }
  }

  /** A message handler whose callback writes output, with frame detection left on, ends by starting
      one write of all the output, in the frame type of the message just read and with the
      callback's wish to read on. */
  lemma ReplyInKind(s: State, e: Event)
    requires Enabled(s, e) && e.ReadDone? && e.ok && s.handshaked && Outstanding(s) == 1
    requires NeitherShakesNorWrites(e.callback.calls) && KeepsFrame(e.callback.calls) && s.autoFrame
    requires s.output + Appended(e.callback.calls) != ""
    ensures var s' := Step(s, e);
            && s'.log != [] && s'.pendingWrites == [e.callback.nextRead]
            && s'.log[|s'.log| - 1]
               == Op.Write(Server.Frame(s.output + Appended(e.callback.calls), e.text), e.callback.nextRead)
  {
    hide State.Run, Appended;
    var s1 := s.(pendingReads := s.pendingReads - 1, readable := true, input := s.input + e.data);
    CallbackEffect(s1, e.callback.calls);
    RunKeepsFrame(s1, e.callback.calls);
  }
}
