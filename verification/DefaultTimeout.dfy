/** The timer's default action: when it closes a session of its own, and that a session on which
    nobody launches the timer is never closed by it. */
module DefaultTimeout {
  import opened Traces
  import opened ServerSession
  import opened ServerTimer

  // ---- what a step adds to the log ----

  /** The log grows, by nothing the timer did. */
  ghost predicate AddsNoTimerAction(log: seq<Entry>, log': seq<Entry>) {
    log <= log' && forall k :: |log| <= k < |log'| ==> !TimerAction(log'[k].op)
  }

  predicate KeepsCallback(calls: seq<Call>) {
    forall c :: c in calls ==> !c.LaunchTimerWith?
  }

  ghost predicate Adds(s: State, s': State, keeps: bool) {
    AddsNoTimerAction(s.log, s'.log) && (keeps ==> s'.timerCallback == s.timerCallback)
  }

  lemma DoAdds(s: State, c: Call)
    ensures Adds(s, s.Do(c), !c.LaunchTimerWith?)
  {
  }

  lemma {:induction false} RunAdds(s: State, calls: seq<Call>)
    ensures Adds(s, s.Run(calls), KeepsCallback(calls))
    decreases |calls|
  {
    hide State.Do;
    if calls != [] {
      var front := calls[..|calls| - 1];
      assert calls[|calls| - 1] in calls;
      RunAdds(s, front);
      DoAdds(s.Run(front), calls[|calls| - 1]);
    }
  }

  lemma ContinueAdds(s: State)
    ensures Adds(s, s.Continue(), true)
  {
    DoAdds(s, DoWrite);
    DoAdds(s, DoRead);
  }

  lemma HandlerAdds(s: State, callback: seq<Call>, text: bool)
    ensures var s1 := s.Run(callback);
            var s2 := s1.(input := "");
            var s3 := if s2.autoFrame then s2.(textMode := text) else s2;
            && Adds(s, s1.Continue(), KeepsCallback(callback))
            && Adds(s, s3.Continue(), KeepsCallback(callback))
  {
    hide State.Run, State.Continue;
    RunAdds(s, callback);
    var s1 := s.Run(callback);
    ContinueAdds(s1);
    ContinueAdds(s1.(input := ""));
    ContinueAdds(s1.(input := "", textMode := text));
  }

  /** Nobody sets a timer callback. */
  predicate SetsNoCallback(e: Event) {
    match e
    case External(c) => !c.LaunchTimerWith?
    case AcceptDone(_, callback) => KeepsCallback(callback)
    case ReadDone(_, _, _, callback) => KeepsCallback(callback)
    case ControlFrame(callback) => KeepsCallback(callback)
    case TimerDone(_, callback) => KeepsCallback(callback)
    case _ => true
  }

  predicate TimerActsIn(s: State, e: Event) {
    e.TimerDone? && s.TimerActs(e.ec)
  }

  lemma ReadAdds(s: State)
    ensures Adds(s, s.Read(), true)
  {
  }

  lemma OnWriteAdds(s: State, ec: Error)
    ensures Adds(s, s.OnWrite(ec), true)
  {
    hide State.Read;
    ReadAdds(s.(output := ""));
  }

  lemma OnTimerAdds(s: State, ec: Error)
    requires !s.TimerActs(ec)
    ensures Adds(s, s.OnTimer(ec, []), true)
  {
  }

  lemma OnAcceptAdds(s: State, ec: Error, callback: seq<Call>)
    requires ec != NoError ==> callback == []
    ensures Adds(s, s.OnAccept(ec, callback), KeepsCallback(callback))
  {
    hide State.Run, State.Continue;
    HandlerAdds(s.(accepted := true), callback, true);
  }

  lemma OnReadAdds(s: State, ec: Error, data: string, text: bool, callback: seq<Call>)
    requires ec != NoError ==> callback == []
    ensures Adds(s, s.OnRead(ec, data, text, callback), KeepsCallback(callback))
  {
    hide State.Run, State.Continue;
    HandlerAdds(s.Received(data), callback, text);
  }

  /** Only a timer completion behind the deadline makes the timer act. */
  lemma StepAdds(s: State, e: Event)
    requires Enabled(s, e) && !TimerActsIn(s, e)
    ensures Adds(s, Step(s, e), SetsNoCallback(e))
  {
    hide State.Run, State.Do, State.OnAccept, State.OnRead, State.OnWrite, State.OnTimer, KeepsCallback;
    match e
    case External(c) => DoAdds(s, c);
    case AcceptDone(ec, callback) => OnAcceptAdds(s.(pendingAccepts := s.pendingAccepts - 1), ec, callback);
    case ReadDone(ec, data, text, callback) =>
      OnReadAdds(s.(pendingReads := s.pendingReads - 1), ec, data, text, callback);
    case WriteDone(ec) => OnWriteAdds(s.(pendingWrites := s.pendingWrites - 1), ec);
    case ControlFrame(callback) => RunAdds(s, callback);
    case TimerDone(ec, _) => OnTimerAdds(s.(waits := s.waits - 1), ec);
    case Elapse(_) =>
  }

  // ---- sessions that never launch the timer ----

  /** Whatever else is done to a session, the timer never acts on it unless user code launches it. */
  lemma {:induction false} NeverLaunchedNeverActs(t0: Time, es: seq<Event>)
    requires IsRun(t0, es) && Launches(es) == 0
    ensures After(t0, es).waits == 0
    ensures forall e :: e in After(t0, es).log ==> !TimerAction(e.op)
    decreases |es|
  {
    hide Step;
    WaitsConserved(t0, es);
    if es != [] {
      NeverLaunchedNeverActs(t0, Before(es));
      StepAdds(After(t0, Before(es)), Last(es));
    }
  }

  /** The failing input for the documented default: a session is accepted, its client sends nothing,
      and however much time passes nothing closes it, nor can any wait complete. */
  lemma SilentSessionStaysOpen(t0: Time, idle: Time)
    ensures var es := [External(DoAccept), AcceptDone(NoError, []), Elapse(idle)];
            && IsRun(t0, es)
            && var s := After(t0, es);
            && s.accepted && s.log == [Entry(Accept, t0), Entry(Read, t0)] && s.now == t0 + idle
            && s.deadline == At(t0 + 10_000_000_000)
            && (forall ec, callback :: !Enabled(s, TimerDone(ec, callback)))
  {
    var es1 := [] + [External(DoAccept)];
    var es2 := es1 + [AcceptDone(NoError, [])];
    assert es2 + [Elapse(idle)] == [External(DoAccept), AcceptDone(NoError, []), Elapse(idle)];
    OneMoreEvent(t0, [], External(DoAccept));
    OneMoreEvent(t0, es1, AcceptDone(NoError, []));
    OneMoreEvent(t0, es2, Elapse(idle));
  }

  // ---- sessions that launch it without a callback of their own ----

  lemma NothingFired()
    ensures Firings([]) == 0
  {
  }

  lemma {:induction false} FiringsAdded(log: seq<Entry>, log': seq<Entry>)
    requires AddsNoTimerAction(log, log')
    ensures Firings(log') == Firings(log)
    decreases |log'|
  {
    if |log'| > |log| {
      FiringsAdded(log, log'[..|log'| - 1]);
    } else {
      assert log' == log;
    }
  }

  lemma DefaultClose(s: State, e: Event)
    requires Enabled(s, e) && TimerActsIn(s, e) && s.timerCallback == Unset
    ensures Step(s, e).timerCallback == Unset && Step(s, e).waits == s.waits
    ensures Step(s, e).log == s.log + [Entry(TimedClose, s.now)]
    ensures Firings(Step(s, e).log) == Firings(s.log)
  {
    hide Firings;
    FiringsOneMore(s.log);
  }

  lemma {:induction false} NoCallbackInRuns(t0: Time, es: seq<Event>)
    requires IsRun(t0, es) && forall e :: e in es ==> SetsNoCallback(e)
    ensures After(t0, es).timerCallback == Unset && Firings(After(t0, es).log) == 0
    decreases |es|
  {
    hide Step, Firings;
    if es == [] {
      assert Firings([]) == 0 by { NothingFired(); }
    } else {
      assert forall e :: e in Before(es) ==> e in es;
      NoCallbackInRuns(t0, Before(es));
      assert Last(es) in es;
      var s := After(t0, Before(es));
      if TimerActsIn(s, Last(es)) {
        DefaultClose(s, Last(es));
      } else {
        StepAdds(s, Last(es));
        FiringsAdded(s.log, After(t0, es).log);
      }
    }
  }

  lemma {:induction false} DeadlineWithinTen(log: seq<Entry>, now: Time)
    requires TimesOrdered(log, now)
    ensures DeadlineOf(log).At? ==> DeadlineOf(log).time <= now + TEN_SECONDS
    decreases |log|
  {
    if log != [] && !Arms(log[|log| - 1].op) {
      DeadlineWithinTen(log[..|log| - 1], now);
    }
  }

  /** The exact condition under which letting time pass and completing a wait closes a session by
      default: user code has launched the timer more often than waits ended in errors, and the
      deadline of the latest start has passed -- which ten seconds always suffice for, once anything
      was started. */
  lemma DefaultCloseExactlyWhen(t0: Time, es: seq<Event>, idle: Time)
    requires IsRun(t0, es) && forall e :: e in es ==> SetsNoCallback(e)
    ensures var s := After(t0, es);
            var es' := es + [Elapse(idle)] + [TimerDone(NoError, [])];
            var closes := IsRun(t0, es') && After(t0, es').log == s.log + [Entry(TimedClose, s.now + idle)];
            && (closes <==> Launches(es) > TimerErrors(es) && DeadlineOf(s.log).Passed(s.now + idle))
            && (idle >= TEN_SECONDS ==> (closes <==> Launches(es) > TimerErrors(es) && DeadlineOf(s.log).At?))
  {
    hide IsRun, After, DeadlineOf, Launches, TimerErrors, Firings, SetsNoCallback;
    var s := After(t0, es);
    OneMoreEvent(t0, es, Elapse(idle));
    OneMoreEvent(t0, es + [Elapse(idle)], TimerDone(NoError, []));
    NoCallbackInRuns(t0, es);
    WaitsConserved(t0, es);
    IdleTimeoutSound(t0, es);
    DeadlineWithinTen(s.log, s.now);
  }
}
