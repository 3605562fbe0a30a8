/** What a server session reads and writes, over every run. */
module ServerDelivery {
  import opened Traces
  import opened ServerSession

  // ---- what the trace of a run shows ----

  predicate IsFailedRead(e: Event) { e.ReadDone? && e.ec != NoError }

  predicate IsAccepted(e: Event) { e.AcceptDone? && e.ec == NoError }

  function ReadsStarted(log: seq<Entry>): nat {
    if log == [] then 0
    else ReadsStarted(log[..|log| - 1]) + (if log[|log| - 1].op.Read? then 1 else 0)
  }

  /** The messages handed to the stream, in order. */
  function Sent(log: seq<Entry>): seq<Frame> {
    if log == [] then []
    else
      var front := Sent(log[..|log| - 1]);
      var op := log[|log| - 1].op;
      if op.Write? then front + [op.frame] else front
  }

  function Data(frames: seq<Frame>): (ds: seq<string>)
    ensures |ds| == |frames|
  {
    seq(|frames|, i requires 0 <= i < |frames| => frames[i].data)
  }

  /** What one more entry in a log adds to the messages and to the reads. */
  lemma OneMore(log: seq<Entry>)
    ensures forall e: Entry ::
              && Sent(log + [e]) == (if e.op.Write? then Sent(log) + [e.op.frame] else Sent(log))
              && ReadsStarted(log + [e]) == ReadsStarted(log) + if e.op.Read? then 1 else 0
  {
    forall e: Entry
      ensures Sent(log + [e]) == (if e.op.Write? then Sent(log) + [e.op.frame] else Sent(log))
      ensures ReadsStarted(log + [e]) == ReadsStarted(log) + if e.op.Read? then 1 else 0
    {
      assert (log + [e])[..|log|] == log;
    }
  }

  // ---- single outstanding read, whatever the callbacks and the environment do ----

  ghost predicate ReadDiscipline(s: State, failed: bool) {
    && s.pendingReads <= 1
    && (s.readable <==> s.pendingReads == 0 && !failed)
    && (failed ==> s.pendingReads == 0)
  }

  /** Operations that only an accepted session may start. */
  predicate NeedsAccept(op: Op) {
    op.Read? || op.Write? || op.Ping? || op.Pong? || op.Close?
  }

  ghost predicate NothingBeforeAccept(s: State) {
    !s.accepted ==> forall e :: e in s.log ==> !NeedsAccept(e.op)
  }

  ghost predicate Kept(s: State, s': State, failed: bool) {
    && ReadDiscipline(s', failed) && NothingBeforeAccept(s') && s'.accepted == s.accepted
    && (failed ==> ReadsStarted(s'.log) == ReadsStarted(s.log))
  }

  lemma DoKeepsReads(s: State, c: Call, failed: bool)
    requires ReadDiscipline(s, failed) && NothingBeforeAccept(s)
    ensures Kept(s, s.Do(c), failed)
  {
    hide Sent, ReadsStarted;
    OneMore(s.log);
  }

  lemma {:induction false} RunKeepsReads(s: State, calls: seq<Call>, failed: bool)
    requires ReadDiscipline(s, failed) && NothingBeforeAccept(s)
    ensures Kept(s, s.Run(calls), failed)
    decreases |calls|
  {
    if calls != [] {
      var front := calls[..|calls| - 1];
      RunKeepsReads(s, front, failed);
      DoKeepsReads(s.Run(front), calls[|calls| - 1], failed);
    }
  }

  lemma ReadKeepsReads(s: State, failed: bool)
    requires ReadDiscipline(s, failed) && NothingBeforeAccept(s)
    ensures Kept(s, s.Read(), failed)
  {
    DoKeepsReads(s, DoRead, failed);
  }

  lemma ContinueKeepsReads(s: State, failed: bool)
    requires ReadDiscipline(s, failed) && NothingBeforeAccept(s)
    ensures Kept(s, s.Continue(), failed)
  {
    DoKeepsReads(s, DoWrite, failed);
    DoKeepsReads(s, DoRead, failed);
  }

  /** A handler that runs a callback and then continues. */
  lemma HandlerKeepsReads(s: State, callback: seq<Call>, text: bool, failed: bool)
    requires ReadDiscipline(s, failed) && NothingBeforeAccept(s)
    ensures var s1 := s.Run(callback);
            var s2 := s1.(input := "");
            && Kept(s, s1.Continue(), failed)
            && Kept(s, (if s2.autoFrame then s2.(textMode := text) else s2).Continue(), failed)
  {
    hide Sent, ReadsStarted, State.Run, State.Continue;
    RunKeepsReads(s, callback, failed);
    var s1 := s.Run(callback);
    var s2 := s1.(input := "");
    ContinueKeepsReads(s1, failed);
    ContinueKeepsReads(s2, failed);
    ContinueKeepsReads(s2.(textMode := text), failed);
  }

  lemma NoteKeepsReads(s: State, op: Op, failed: bool)
    requires ReadDiscipline(s, failed) && NothingBeforeAccept(s) && !NeedsAccept(op)
    ensures Kept(s, s.Note(op), failed)
  {
    OneMore(s.log);
  }

  lemma TimerKeepsReads(s: State, ec: Error, callback: seq<Call>, failed: bool)
    requires ReadDiscipline(s, failed) && NothingBeforeAccept(s)
    ensures Kept(s, s.OnTimer(ec, callback), failed)
  {
    hide State.Run, State.Note, ReadsStarted;
    if ec != NoError && ec != Aborted {
      NoteKeepsReads(s, Reported("timer"), failed);
    } else if s.deadline.Passed(s.now) {
      match s.timerCallback
      case Callback(id) =>
        NoteKeepsReads(s, Fired(id), failed);
        RunKeepsReads(s.Note(Fired(id)), callback, failed);
      case Unset =>
        NoteKeepsReads(s.ExpiresAfterTen(), TimedClose, failed);
    }
  }

  lemma OnAcceptKeepsReads(s: State, ec: Error, callback: seq<Call>, failed: bool)
    requires ReadDiscipline(s, failed) && NothingBeforeAccept(s)
    ensures var s' := s.OnAccept(ec, callback);
            && ReadDiscipline(s', failed) && NothingBeforeAccept(s')
            && (s'.accepted <==> s.accepted || ec == NoError)
            && (failed ==> ReadsStarted(s'.log) == ReadsStarted(s.log))
  {
    hide State.Run, State.Continue, State.Note, ReadsStarted;
    NoteKeepsReads(s, Reported("accept"), failed);
    HandlerKeepsReads(s.(accepted := true), callback, true, failed);
  }

  lemma OnReadKeepsReads(s: State, ec: Error, data: string, text: bool, callback: seq<Call>)
    requires s.pendingReads == 0 && !s.readable && NothingBeforeAccept(s)
    ensures var s' := s.OnRead(ec, data, text, callback);
            && ReadDiscipline(s', ec != NoError) && NothingBeforeAccept(s') && s'.accepted == s.accepted
  {
    hide State.Run, State.Continue, State.Note, ReadsStarted;
    if ec == NoError {
      HandlerKeepsReads(s.(readable := true, input := s.input + data), callback, text, false);
    } else {
      NoteKeepsReads(s, Reported("read"), true);
    }
  }

  lemma OnWriteKeepsReads(s: State, ec: Error, failed: bool)
    requires ReadDiscipline(s, failed) && NothingBeforeAccept(s)
    ensures Kept(s, s.OnWrite(ec), failed)
  {
    hide State.Read, State.Note, ReadsStarted;
    NoteKeepsReads(s, Reported("write"), failed);
    ReadKeepsReads(s.(output := ""), failed);
  }

  lemma StepKeepsReads(s: State, e: Event, failed: bool)
    requires Enabled(s, e) && ReadDiscipline(s, failed) && NothingBeforeAccept(s)
    ensures var s' := Step(s, e);
            && ReadDiscipline(s', failed || IsFailedRead(e)) && NothingBeforeAccept(s')
            && (s'.accepted <==> s.accepted || IsAccepted(e))
            && (failed ==> ReadsStarted(s'.log) == ReadsStarted(s.log))
  {
    hide State.Run, State.Do, State.OnAccept, State.OnRead, State.OnWrite, State.OnTimer, ReadsStarted;
    match e
    case External(c) => DoKeepsReads(s, c, failed);
    case AcceptDone(ec, callback) =>
      OnAcceptKeepsReads(s.(pendingAccepts := s.pendingAccepts - 1), ec, callback, failed);
    case ReadDone(ec, data, text, callback) =>
      OnReadKeepsReads(s.(pendingReads := s.pendingReads - 1), ec, data, text, callback);
    case WriteDone(ec) => OnWriteKeepsReads(s.(pendingWrites := s.pendingWrites - 1), ec, failed);
    case ControlFrame(callback) => RunKeepsReads(s, callback, failed);
    case TimerDone(ec, callback) => TimerKeepsReads(s.(waits := s.waits - 1), ec, callback, failed);
    case Elapse(_) =>
  }

  /** In every run, for any callbacks, outside calls and order of completions: at most one read is
      pending; a read may be started exactly when none is pending and none has failed; the session
      counts as accepted exactly when an accept succeeded, and before that no read, write, ping,
      pong or close was started. */
  lemma {:induction false} SingleOutstandingRead(t0: Time, es: seq<Event>)
    requires IsRun(t0, es)
    ensures var s := After(t0, es);
            && ReadDiscipline(s, Some(es, IsFailedRead)) && NothingBeforeAccept(s)
            && (s.accepted <==> Some(es, IsAccepted))
    decreases |es|
  {
    if es != [] {
      SingleOutstandingRead(t0, Before(es));
      SomeOneMore(es, IsFailedRead);
      SomeOneMore(es, IsAccepted);
      StepKeepsReads(After(t0, Before(es)), Last(es), Some(Before(es), IsFailedRead));
    }
  }

  /** Once a read has failed, no read is ever started again. */
  lemma {:induction false} NoReadAfterFailure(t0: Time, es: seq<Event>, n: nat)
    requires IsRun(t0, es) && n <= |es| && Some(es[..n], IsFailedRead)
    ensures IsRun(t0, es[..n])
    ensures ReadsStarted(After(t0, es).log) == ReadsStarted(After(t0, es[..n]).log)
    decreases |es|
  {
    RunPrefix(t0, es, n);
    if n < |es| {
      assert Before(es)[..n] == es[..n];
      NoReadAfterFailure(t0, Before(es), n);
      var i :| 0 <= i < n && IsFailedRead(es[..n][i]);
      assert IsFailedRead(Before(es)[i]);
      SingleOutstandingRead(t0, Before(es));
      StepKeepsReads(After(t0, Before(es)), Last(es), true);
    } else {
      assert es[..n] == es;
    }
  }

  // ---- what message callbacks are handed ----

  lemma DoKeepsInput(s: State, c: Call)
    ensures s.Do(c).input == s.input
  {
  }

  lemma {:induction false} RunKeepsInput(s: State, calls: seq<Call>)
    ensures s.Run(calls).input == s.input
    decreases |calls|
  {
    hide State.Do;
    if calls != [] {
      RunKeepsInput(s, calls[..|calls| - 1]);
      DoKeepsInput(s.Run(calls[..|calls| - 1]), calls[|calls| - 1]);
    }
  }

  lemma ContinueKeepsInput(s: State)
    ensures s.Continue().input == s.input
  {
  }

  lemma StepEmptiesInput(s: State, e: Event)
    requires Enabled(s, e) && s.input == ""
    ensures Step(s, e).input == ""
  {
    hide State.Run, State.Do, State.Continue;
    match e
    case External(c) => DoKeepsInput(s, c);
    case AcceptDone(_, callback) =>
      var s1 := s.(pendingAccepts := s.pendingAccepts - 1, accepted := true);
      RunKeepsInput(s1, callback);
      ContinueKeepsInput(s1.Run(callback));
    case ReadDone(_, data, text, callback) =>
      var s2 := s.(pendingReads := s.pendingReads - 1).Received(data).Run(callback).(input := "");
      ContinueKeepsInput(s2);
      ContinueKeepsInput(s2.(textMode := text));
    case WriteDone(_) =>
    case ControlFrame(callback) => RunKeepsInput(s, callback);
    case TimerDone(_, callback) =>
      if s.timerCallback.Callback? {
        RunKeepsInput(s.(waits := s.waits - 1).Note(Fired(s.timerCallback.id)), callback);
      }
    case Elapse(_) =>
  }

  function HandedIn(s: State, e: Event): seq<string> {
    if e.ReadDone? && e.ec == NoError then [s.Received(e.data).input] else []
  }

  /** The input buffers handed to the message callbacks of a run, in order. */
  function Handed(t0: Time, es: seq<Event>): seq<string>
    requires IsRun(t0, es)
  {
    if es == [] then [] else Handed(t0, Before(es)) + HandedIn(After(t0, Before(es)), Last(es))
  }

  /** The messages the stream delivered. */
  function MessagesRead(es: seq<Event>): seq<string> {
    if es == [] then []
    else MessagesRead(Before(es)) + if Last(es).ReadDone? && Last(es).ec == NoError then [Last(es).data] else []
  }

  /** In every run, for any callbacks and outside calls, the input buffer is empty between handlers, and
      the k-th message callback is handed exactly the k-th message. */
  lemma {:induction false} CallbacksSeeTheirMessage(t0: Time, es: seq<Event>)
    requires IsRun(t0, es)
    ensures After(t0, es).input == "" && Handed(t0, es) == MessagesRead(es)
    decreases |es|
  {
    hide Step;
    if es != [] {
      CallbacksSeeTheirMessage(t0, Before(es));
      StepEmptiesInput(After(t0, Before(es)), Last(es));
      if Last(es).ReadDone? { assert "" + Last(es).data == Last(es).data; }
    }
  }

  // ---- exactly-once delivery, when callbacks append output and leave reading and writing alone ----

  /** A call that neither reads, writes nor accepts. */
  predicate IsQuiet(c: Call) { !c.DoRead? && !c.DoWrite? && !c.DoAccept? }

  predicate IsSilent(c: Call) { IsQuiet(c) && !c.Append? }

  predicate Quiet(calls: seq<Call>) { forall c :: c in calls ==> IsQuiet(c) }

  predicate Silent(calls: seq<Call>) { forall c :: c in calls ==> IsSilent(c) }

  /** Only the accept and message callbacks append output; nobody else reads or writes. */
  predicate IsOrderly(e: Event) {
    match e
    case External(c) => c.DoAccept? || IsSilent(c)
    case AcceptDone(_, callback) => Quiet(callback)
    case ReadDone(_, _, _, callback) => Quiet(callback)
    case ControlFrame(callback) => Silent(callback)
    case TimerDone(_, callback) => Silent(callback)
    case _ => true
  }

  predicate Orderly(es: seq<Event>) { forall e :: e in es ==> IsOrderly(e) }

  function TextOf(c: Call): string {
    if c.Append? then c.text else ""
  }

  function Appended(calls: seq<Call>): string {
    if calls == [] then "" else Appended(calls[..|calls| - 1]) + TextOf(calls[|calls| - 1])
  }

  function NonEmpty(text: string): seq<string> {
    if text == "" then [] else [text]
  }

  function OutputOf(e: Event): seq<string> {
    match e
    case AcceptDone(NoError, callback) => NonEmpty(Appended(callback))
    case ReadDone(NoError, _, _, callback) => NonEmpty(Appended(callback))
    case _ => []
  }

  /** What the accept and message callbacks wrote, leaving out those that wrote nothing. */
  function Outputs(es: seq<Event>): seq<string> {
    if es == [] then [] else Outputs(Before(es)) + OutputOf(Last(es))
  }

  function AcceptCalls(es: seq<Event>): nat {
    if es == [] then 0
    else AcceptCalls(Before(es)) + if Last(es) == External(DoAccept) then 1 else 0
  }

  predicate IsFailure(e: Event) {
    (e.AcceptDone? || e.ReadDone? || e.WriteDone?) && e.ec != NoError
  }

  function Failures(es: seq<Event>): nat {
    if es == [] then 0 else Failures(Before(es)) + if IsFailure(Last(es)) then 1 else 0
  }

  /** Nothing but the output buffer, the frame mode and the timer differs. */
  ghost predicate SameTraffic(s: State, s': State) {
    && s'.accepted == s.accepted && s'.readable == s.readable && s'.input == s.input
    && s'.pendingAccepts == s.pendingAccepts && s'.pendingReads == s.pendingReads
    && s'.pendingWrites == s.pendingWrites && Sent(s'.log) == Sent(s.log)
  }

  lemma QuietDo(s: State, c: Call)
    requires IsQuiet(c)
    ensures SameTraffic(s, s.Do(c))
    ensures s.Do(c).output == s.output + TextOf(c)
  {
    hide Sent;
    OneMore(s.log);
  }

  lemma {:induction false} QuietRun(s: State, calls: seq<Call>)
    requires Quiet(calls)
    ensures SameTraffic(s, s.Run(calls))
    ensures s.Run(calls).output == s.output + Appended(calls)
    decreases |calls|
  {
    hide Sent, State.Do;
    assert s.output + "" == s.output;
    if calls != [] {
      var front := calls[..|calls| - 1];
      QuietRun(s, front);
      QuietDo(s.Run(front), calls[|calls| - 1]);
    }
  }

  lemma {:induction false} SilentAppendsNothing(calls: seq<Call>)
    requires Silent(calls)
    ensures Appended(calls) == ""
  {
    if calls != [] {
      assert calls[|calls| - 1] in calls;
      SilentAppendsNothing(calls[..|calls| - 1]);
    }
  }

  /** One token -- a pending accept, read or write -- passes from handler to handler until an
      operation fails. */
  ghost predicate OneToken(s: State, accepts: nat, failures: nat) {
    && accepts <= 1
    && s.pendingAccepts + s.pendingReads + s.pendingWrites + failures == accepts
    && (accepts == 0 || s.pendingAccepts == 1 ==> !s.accepted)
    && (s.pendingReads + s.pendingWrites == 1 ==> s.accepted)
    && (failures == 0 ==> (s.readable <==> s.pendingReads == 0))
  }

  /** ... and what a pending write carries is what the last callback wrote. */
  ghost predicate Token(s: State, accepts: nat, failures: nat, outputs: seq<string>) {
    && OneToken(s, accepts, failures)
    && (failures == 0 && s.pendingWrites == 0 ==> s.output == "")
    && (failures == 0 && s.pendingWrites == 1 ==> outputs != [] && s.output == outputs[|outputs| - 1])
    && s.input == ""
    && Data(Sent(s.log)) == outputs
  }

  /** How a handler that ran a quiet callback passes the token on. */
  lemma ContinueKeepsToken(s: State, text: string, outputs: seq<string>)
    requires s.accepted && s.readable && s.input == "" && s.output == text
    requires s.pendingAccepts == 0 && s.pendingReads == 0 && s.pendingWrites == 0
    requires Data(Sent(s.log)) == outputs
    ensures Token(s.Continue(), 1, 0, outputs + NonEmpty(text))
  {
    hide Sent;
    var s' := s.Continue();
    OneMore(s.log);
    if text != "" {
      assert Sent(s'.log) == Sent(s.log) + [Frame(text, s.textMode)];
      assert Data(Sent(s'.log)) == Data(Sent(s.log)) + [text];
    }
  }

  lemma ReadKeepsToken(s: State, e: Event, outputs: seq<string>)
    requires Enabled(s, e) && IsOrderly(e) && Token(s, 1, 0, outputs) && e.ReadDone? && e.ec == NoError
    ensures Token(Step(s, e), 1, 0, outputs + OutputOf(e))
  {
    hide Sent, Data, Appended, State.Run, State.Continue;
    var ReadDone(ec, data, text, callback) := e;
    var s1 := s.(pendingReads := 0, readable := true, input := s.input + data);
    QuietRun(s1, callback);
    var s2 := s1.Run(callback).(input := "");
    ContinueKeepsToken(if s2.autoFrame then s2.(textMode := text) else s2, Appended(callback), outputs);
  }

  lemma AcceptKeepsToken(s: State, e: Event, outputs: seq<string>)
    requires Enabled(s, e) && IsOrderly(e) && Token(s, 1, 0, outputs) && e.AcceptDone? && e.ec == NoError
    ensures Token(Step(s, e), 1, 0, outputs + OutputOf(e))
  {
    hide Sent, Data, Appended, State.Run, State.Continue;
    var s1 := s.(pendingAccepts := 0, accepted := true);
    QuietRun(s1, e.callback);
    ContinueKeepsToken(s1.Run(e.callback), Appended(e.callback), outputs);
  }

  lemma FiredKeepsTraffic(s: State, id: CallbackId)
    ensures SameTraffic(s, s.Note(Fired(id))) && s.Note(Fired(id)).output == s.output
  {
    OneMore(s.log);
  }

  /** The timer handler's own part; its callback runs on the state given. */
  lemma OnTimerKeepsTraffic(s: State, ec: Error, callback: seq<Call>)
    requires (s.TimerActs(ec) && s.timerCallback.Callback?) || callback == []
    ensures s.TimerActs(ec) && s.timerCallback.Callback? ==>
              s.OnTimer(ec, callback) == s.Note(Fired(s.timerCallback.id)).Run(callback)
    ensures !(s.TimerActs(ec) && s.timerCallback.Callback?) ==>
              SameTraffic(s, s.OnTimer(ec, callback)) && s.OnTimer(ec, callback).output == s.output
  {
    hide Sent, State.Run;
    OneMore(s.log);
  }

  lemma NothingAppended()
    ensures Appended([]) == ""
  {
  }

  lemma TimerAppends(s: State, ec: Error, callback: seq<Call>)
    requires (s.TimerActs(ec) && s.timerCallback.Callback?) || callback == []
    requires Quiet(callback)
    ensures SameTraffic(s, s.OnTimer(ec, callback)) && s.OnTimer(ec, callback).output == s.output + Appended(callback)
  {
    hide Sent, Appended, State.Run, State.OnTimer;
    OnTimerKeepsTraffic(s, ec, callback);
    if s.TimerActs(ec) && s.timerCallback.Callback? {
      FiredKeepsTraffic(s, s.timerCallback.id);
      QuietRun(s.Note(Fired(s.timerCallback.id)), callback);
    } else {
      NothingAppended();
    }
  }

  lemma TimerKeepsTraffic(s: State, e: Event)
    requires Enabled(s, e) && IsOrderly(e) && e.TimerDone?
    ensures SameTraffic(s, Step(s, e)) && Step(s, e).output == s.output
  {
    hide Sent, Appended, State.Run, State.OnTimer;
    SilentAppendsNothing(e.callback);
    TimerAppends(s.(waits := s.waits - 1), e.ec, e.callback);
  }

  lemma CallKeepsToken(s: State, c: Call, accepts: nat, failures: nat, outputs: seq<string>)
    requires Token(s, accepts, failures, outputs) && (if c.DoAccept? then accepts == 0 else IsSilent(c))
    ensures Token(s.Do(c), accepts + if c.DoAccept? then 1 else 0, failures, outputs)
  {
    hide Sent, Data;
    OneMore(s.log);
  }

  lemma WriteKeepsToken(s: State, outputs: seq<string>)
    requires Token(s, 1, 0, outputs) && s.pendingWrites == 1
    ensures Token(s.(pendingWrites := 0).OnWrite(NoError), 1, 0, outputs)
  {
    hide Sent, Data;
    OneMore(s.log);
  }

  lemma ReportKeepsTraffic(s: State, what: string)
    ensures SameTraffic(s, s.Note(Reported(what)))
  {
    OneMore(s.log);
  }

  lemma FailureKeepsToken(s: State, e: Event, outputs: seq<string>)
    requires Enabled(s, e) && IsFailure(e) && Token(s, 1, 0, outputs)
    ensures Token(Step(s, e), 1, 1, outputs)
  {
    hide Sent, Data, State.Run, State.Continue, State.Note;
    match e
    case AcceptDone(_, _) => ReportKeepsTraffic(s.(pendingAccepts := 0), "accept");
    case ReadDone(_, _, _, _) => ReportKeepsTraffic(s.(pendingReads := 0), "read");
    case WriteDone(_) => ReportKeepsTraffic(s.(pendingWrites := 0), "write");
  }

  lemma StepKeepsToken(s: State, e: Event, accepts: nat, failures: nat, outputs: seq<string>)
    requires Enabled(s, e) && IsOrderly(e)
    requires Token(s, accepts, failures, outputs)
    requires e == External(DoAccept) ==> accepts == 0
    ensures Token(Step(s, e), accepts + if e == External(DoAccept) then 1 else 0,
                  failures + if IsFailure(e) then 1 else 0, outputs + OutputOf(e))
  {
    hide Sent, Data, Appended, State.Run, State.Do, State.Continue, State.OnTimer;
    match e
    case External(c) => CallKeepsToken(s, c, accepts, failures, outputs);
    case AcceptDone(ec, _) =>
      if ec == NoError { AcceptKeepsToken(s, e, outputs); } else { FailureKeepsToken(s, e, outputs); }
    case ReadDone(ec, _, _, _) =>
      if ec == NoError { ReadKeepsToken(s, e, outputs); } else { FailureKeepsToken(s, e, outputs); }
    case WriteDone(ec) =>
      if ec == NoError { WriteKeepsToken(s, outputs); } else { FailureKeepsToken(s, e, outputs); }
    case ControlFrame(callback) =>
      SilentAppendsNothing(callback);
      QuietRun(s, callback);
    case TimerDone(ec, callback) => TimerKeepsTraffic(s, e);
    case Elapse(_) =>
  }

  lemma {:induction false} TokenInRuns(t0: Time, es: seq<Event>)
    requires IsRun(t0, es) && Orderly(es) && AcceptCalls(es) <= 1
    ensures Token(After(t0, es), AcceptCalls(es), Failures(es), Outputs(es))
    decreases |es|
  {
    if es != [] {
      assert forall e :: e in Before(es) ==> e in es;
      TokenInRuns(t0, Before(es));
      assert Last(es) in es;
      StepKeepsToken(After(t0, Before(es)), Last(es), AcceptCalls(Before(es)), Failures(Before(es)),
                     Outputs(Before(es)));
    }
  }

  lemma {:induction false} FailuresCounted(es: seq<Event>)
    ensures Failures(es) > 0 <==> Some(es, IsFailure)
  {
    if es != [] {
      FailuresCounted(Before(es));
      SomeOneMore(es, IsFailure);
    }
  }

  /** Exactly-once delivery: with one accept and callbacks that only append output, the messages
      written so far are exactly the non-empty outputs of the callbacks run so far, in order;
      exactly one accept, read or write is outstanding until one fails, and none after that. */
  lemma ExactlyOnce(t0: Time, es: seq<Event>)
    requires IsRun(t0, es) && Orderly(es) && AcceptCalls(es) == 1
    ensures var s := After(t0, es);
            && Data(Sent(s.log)) == Outputs(es)
            && s.pendingAccepts + s.pendingReads + s.pendingWrites
               == if Some(es, IsFailure) then 0 else 1
  {
    TokenInRuns(t0, es);
    FailuresCounted(es);
  }

  // ---- the echo server ----

  predicate SetsFrame(c: Call) { c.SetAutoFrame? || c.SetTextFrame? || c.SetBinaryFrame? }

  predicate KeepsFrame(calls: seq<Call>) { forall c :: c in calls ==> !SetsFrame(c) }

  /** The echo handlers: nothing on accept, the message itself on a message. */
  predicate IsEcho(e: Event) {
    && IsOrderly(e)
    && (match e
        case External(c) => !SetsFrame(c)
        case AcceptDone(_, callback) => callback == []
        case ReadDone(ec, data, _, callback) => ec == NoError ==> callback == [Append(data)]
        case ControlFrame(callback) => KeepsFrame(callback)
        case TimerDone(_, callback) => KeepsFrame(callback)
        case _ => true)
  }

  /** The non-empty messages received, each with its frame type. */
  function Received(es: seq<Event>): seq<Frame> {
    if es == [] then []
    else
      match Last(es)
      case ReadDone(NoError, data, text, _) =>
        Received(Before(es)) + if data == "" then [] else [Frame(data, text)]
      case _ => Received(Before(es))
  }

  lemma {:induction false} RunKeepsFrame(s: State, calls: seq<Call>)
    requires KeepsFrame(calls)
    ensures s.Run(calls).autoFrame == s.autoFrame
    decreases |calls|
  {
    if calls != [] {
      assert calls[|calls| - 1] in calls;
      RunKeepsFrame(s, calls[..|calls| - 1]);
    }
  }

  lemma EchoCall(s: State, c: Call)
    requires (c.DoAccept? || IsQuiet(c)) && !SetsFrame(c)
    ensures s.Do(c).autoFrame == s.autoFrame && Sent(s.Do(c).log) == Sent(s.log)
  {
    hide Sent;
    OneMore(s.log);
  }

  lemma NoCalls(s: State)
    ensures s.Run([]) == s
  {
  }

  lemma EchoRead(s: State, e: Event)
    requires Enabled(s, e) && e.ReadDone? && e.ec == NoError && e.callback == [Append(e.data)]
    requires s.autoFrame && s.accepted && s.output == ""
    ensures Step(s, e).autoFrame
    ensures Sent(Step(s, e).log) == Sent(s.log) + if e.data == "" then [] else [Frame(e.data, e.text)]
  {
    hide Sent;
    var s1 := s.(pendingReads := s.pendingReads - 1, readable := true, input := s.input + e.data);
    assert e.callback[..0] == [];
    assert s1.Run(e.callback) == s1.Run([]).Do(Append(e.data));
    assert "" + e.data == e.data;
    var s2 := s1.(output := e.data, input := "", textMode := e.text);
    assert Step(s, e) == s2.Continue() by { hide State.Continue; }
    OneMore(s.log);
  }

  lemma EchoAccept(s: State, e: Event)
    requires Enabled(s, e) && e.AcceptDone? && e.callback == [] && s.autoFrame && (e.ec == NoError ==> s.output == "")
    ensures Step(s, e).autoFrame && Sent(Step(s, e).log) == Sent(s.log)
  {
    hide Sent, State.Run;
    OneMore(s.log);
    NoCalls(s.(pendingAccepts := s.pendingAccepts - 1, accepted := true));
  }

  lemma EchoTimer(s: State, e: Event)
    requires Enabled(s, e) && e.TimerDone? && Silent(e.callback) && KeepsFrame(e.callback) && s.autoFrame
    ensures Step(s, e).autoFrame && Sent(Step(s, e).log) == Sent(s.log)
  {
    hide Sent, State.Run;
    TimerKeepsTraffic(s, e);
    if s.TimerActs(e.ec) && s.timerCallback.Callback? {
      RunKeepsFrame(s.(waits := s.waits - 1).Note(Fired(s.timerCallback.id)), e.callback);
    }
  }

  /** Nothing but a message read makes the echo server send. */
  lemma EchoElse(s: State, e: Event)
    requires Enabled(s, e) && IsEcho(e) && s.autoFrame && !(e.ReadDone? && e.ec == NoError)
    requires e.AcceptDone? && e.ec == NoError ==> s.output == ""
    ensures Step(s, e).autoFrame && Sent(Step(s, e).log) == Sent(s.log)
  {
    hide Sent, State.Run, State.Do, State.OnAccept, State.OnTimer;
    OneMore(s.log);
    match e
    case External(c) => EchoCall(s, c);
    case AcceptDone(_, _) => EchoAccept(s, e);
    case ControlFrame(callback) =>
      QuietRun(s, callback);
      RunKeepsFrame(s, callback);
    case TimerDone(_, _) => EchoTimer(s, e);
    case _ =>
  }

  /** What the token says about the buffer a handler starts with. */
  lemma TokenBuffer(s: State, e: Event, accepts: nat, failures: nat, outputs: seq<string>)
    requires Enabled(s, e) && Token(s, accepts, failures, outputs) && (e.AcceptDone? || e.ReadDone?)
    ensures s.output == "" && (e.ReadDone? ==> s.accepted)
  {
  }

  /** Echo: the messages sent back are the non-empty messages received, in the same order, with the
      same bytes and the same text or binary type. */
  lemma {:induction false} EchoFidelity(t0: Time, es: seq<Event>)
    requires IsRun(t0, es) && AcceptCalls(es) <= 1
    requires forall e :: e in es ==> IsEcho(e)
    ensures Sent(After(t0, es).log) == Received(es)
    ensures After(t0, es).autoFrame
    decreases |es|
  {
    hide Step, Token, Enabled;
    if es != [] {
      assert forall e :: e in Before(es) ==> e in es;
      assert forall e :: e in es ==> IsEcho(e) && IsOrderly(e);
      var e := Last(es);
      assert e in es;
      EchoFidelity(t0, Before(es));
      TokenInRuns(t0, Before(es));
      var s := After(t0, Before(es));
      if e.AcceptDone? || e.ReadDone? {
        TokenBuffer(s, e, AcceptCalls(Before(es)), Failures(Before(es)), Outputs(Before(es)));
      }
      if e.ReadDone? && e.ec == NoError { EchoRead(s, e); } else { EchoElse(s, e); }
    }
  }
}
