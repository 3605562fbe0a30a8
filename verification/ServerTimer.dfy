/** The idle timer of a server session, over every run: where its deadline stands, when it acts and
    how many waits are pending, for any callbacks and any order of completions. */
module ServerTimer {
  import opened Traces
  import opened ServerSession

  // ---- the deadline ----

  /** Operations whose start moves the deadline; a write does not. */
  predicate Arms(op: Op) {
    op.Accept? || op.Read? || op.Ping? || op.Pong? || op.Close? || op.TimedClose?
  }

  /** What the timer does of its own: its default close, or invoking the timer callback. */
  predicate TimerAction(op: Op) {
    op.TimedClose? || op.Fired?
  }

  /** Ten seconds after the latest start that moves it. */
  function DeadlineOf(log: seq<Entry>): Deadline {
    if log == [] then Never
    else
      var e := log[|log| - 1];
      if Arms(e.op) then At(e.at + TEN_SECONDS) else DeadlineOf(log[..|log| - 1])
  }

  lemma DeadlineOneMore(log: seq<Entry>, e: Entry)
    ensures DeadlineOf(log + [e]) == if Arms(e.op) then At(e.at + TEN_SECONDS) else DeadlineOf(log)
  {
    assert (log + [e])[..|log|] == log;
  }

  ghost predicate TimesOrdered(log: seq<Entry>, now: Time) {
    && (forall i, j :: 0 <= i < j < |log| ==> log[i].at <= log[j].at)
    && (forall i :: 0 <= i < |log| ==> log[i].at <= now)
  }

  /** Every act of the timer comes at least ten seconds after every earlier start that arms it. */
  ghost predicate ActsOnlyWhenIdle(log: seq<Entry>) {
    forall i, j :: 0 <= i < j < |log| && Arms(log[i].op) && TimerAction(log[j].op) ==>
      log[i].at + TEN_SECONDS <= log[j].at
  }

  ghost predicate TimerSound(s: State) {
    && s.deadline == DeadlineOf(s.log)
    && TimesOrdered(s.log, s.now)
    && ActsOnlyWhenIdle(s.log)
  }

  lemma {:induction false} DeadlineCoversLog(log: seq<Entry>, now: Time, i: nat)
    requires TimesOrdered(log, now) && i < |log| && Arms(log[i].op)
    ensures DeadlineOf(log).At? && log[i].at + TEN_SECONDS <= DeadlineOf(log).time
    decreases |log|
  {
    var n := |log| - 1;
    if !Arms(log[n].op) {
      DeadlineCoversLog(log[..n], now, i);
    }
  }

  /** Noting an operation with the deadline it calls for. */
  lemma NoteIsSound(s: State, s': State, op: Op)
    requires TimerSound(s)
    requires s'.log == s.log + [Entry(op, s.now)] && s'.now == s.now
    requires s'.deadline == if Arms(op) then At(s.now + TEN_SECONDS) else s.deadline
    requires TimerAction(op) ==> s.deadline.Passed(s.now)
    ensures TimerSound(s')
  {
    DeadlineOneMore(s.log, Entry(op, s.now));
    forall i, j | 0 <= i < j < |s'.log| && Arms(s'.log[i].op) && TimerAction(s'.log[j].op)
      ensures s'.log[i].at + TEN_SECONDS <= s'.log[j].at
    {
      if j == |s.log| { DeadlineCoversLog(s.log, s.now, i); }
    }
  }

  lemma SameTimer(s: State, s': State)
    requires TimerSound(s) && s'.log == s.log && s'.deadline == s.deadline && s.now <= s'.now
    ensures TimerSound(s')
  {
  }

  /** The operation a call notes, if it has an effect on the log at all. */
  lemma DoIsSound(s: State, c: Call)
    requires TimerSound(s)
    ensures TimerSound(s.Do(c)) && s.Do(c).now == s.now
  {
    hide TimerSound, DeadlineOf;
    var s' := s.Do(c);
    match c
    case DoAccept => if !s.accepted { NoteIsSound(s, s', Accept); }
    case DoRead => if s.accepted && s.readable { NoteIsSound(s, s', Read); }
    case DoWrite => if s.accepted { NoteIsSound(s, s', Write(Frame(s.output, s.textMode))); }
    case DoPing => if s.accepted { NoteIsSound(s, s', Ping); }
    case DoPong => if s.accepted { NoteIsSound(s, s', Pong); }
    case DoClose => if s.accepted { NoteIsSound(s, s', Close); }
    case LaunchTimerWith(id) => NoteIsSound(s, s', Armed(id));
    case _ => SameTimer(s, s');
  }

  lemma {:induction false} RunIsSound(s: State, calls: seq<Call>)
    requires TimerSound(s)
    ensures TimerSound(s.Run(calls))
    decreases |calls|
  {
    hide TimerSound;
    if calls != [] {
      var front := calls[..|calls| - 1];
      RunIsSound(s, front);
      DoIsSound(s.Run(front), calls[|calls| - 1]);
    }
  }

  lemma ContinueIsSound(s: State)
    requires TimerSound(s)
    ensures TimerSound(s.Continue())
  {
    hide TimerSound;
    DoIsSound(s, DoWrite);
    DoIsSound(s, DoRead);
  }

  lemma OnTimerIsSound(s: State, ec: Error, callback: seq<Call>)
    requires TimerSound(s)
    ensures TimerSound(s.OnTimer(ec, callback))
  {
    hide TimerSound, DeadlineOf, State.Run;
    var s' := s.OnTimer(ec, callback);
    if ec != NoError && ec != Aborted {
      NoteIsSound(s, s', Reported("timer"));
    } else if !s.deadline.Passed(s.now) {
      SameTimer(s, s');
    } else {
      match s.timerCallback
      case Callback(id) =>
        NoteIsSound(s, s.Note(Fired(id)), Fired(id));
        RunIsSound(s.Note(Fired(id)), callback);
      case Unset => NoteIsSound(s, s', TimedClose);
    }
  }

  lemma OnReadIsSound(s: State, ec: Error, data: string, text: bool, callback: seq<Call>)
    requires TimerSound(s)
    ensures TimerSound(s.OnRead(ec, data, text, callback))
  {
    hide TimerSound, DeadlineOf, State.Run, State.Continue;
    if ec == NoError {
      var s1 := s.(readable := true, input := s.input + data);
      SameTimer(s, s1);
      RunIsSound(s1, callback);
      var s2 := s1.Run(callback).(input := "");
      var s3 := if s2.autoFrame then s2.(textMode := text) else s2;
      SameTimer(s1.Run(callback), s3);
      ContinueIsSound(s3);
    } else if ec == OtherError {
      NoteIsSound(s, s.OnRead(ec, data, text, callback), Reported("read"));
    }
  }

  lemma OnAcceptIsSound(s: State, ec: Error, callback: seq<Call>)
    requires TimerSound(s)
    ensures TimerSound(s.OnAccept(ec, callback))
  {
    hide TimerSound, DeadlineOf, State.Run, State.Continue;
    if ec == NoError {
      SameTimer(s, s.(accepted := true));
      RunIsSound(s.(accepted := true), callback);
      ContinueIsSound(s.(accepted := true).Run(callback));
    } else if ec != Aborted {
      NoteIsSound(s, s.OnAccept(ec, callback), Reported("accept"));
    }
  }

  lemma OnWriteIsSound(s: State, ec: Error)
    requires TimerSound(s)
    ensures TimerSound(s.OnWrite(ec))
  {
    hide TimerSound, DeadlineOf;
    if ec == NoError {
      SameTimer(s, s.(output := ""));
      DoIsSound(s.(output := ""), DoRead);
    } else if ec != Aborted {
      NoteIsSound(s, s.OnWrite(ec), Reported("write"));
    }
  }

  lemma StepIsSound(s: State, e: Event)
    requires Enabled(s, e) && TimerSound(s)
    ensures TimerSound(Step(s, e))
  {
    hide TimerSound, State.Run, State.Do, State.OnAccept, State.OnRead, State.OnWrite, State.OnTimer;
    match e
    case External(c) => DoIsSound(s, c);
    case AcceptDone(ec, callback) =>
      var s1 := s.(pendingAccepts := s.pendingAccepts - 1);
      SameTimer(s, s1);
      OnAcceptIsSound(s1, ec, callback);
    case ReadDone(ec, data, text, callback) =>
      var s1 := s.(pendingReads := s.pendingReads - 1);
      SameTimer(s, s1);
      OnReadIsSound(s1, ec, data, text, callback);
    case WriteDone(ec) =>
      var s1 := s.(pendingWrites := s.pendingWrites - 1);
      SameTimer(s, s1);
      OnWriteIsSound(s1, ec);
    case ControlFrame(callback) => RunIsSound(s, callback);
    case TimerDone(ec, callback) =>
      var s1 := s.(waits := s.waits - 1);
      SameTimer(s, s1);
      OnTimerIsSound(s1, ec, callback);
    case Elapse(d) => SameTimer(s, s.(now := s.now + d));
  }

  lemma EmptyLogSound(s: State)
    requires s.log == [] && s.deadline == Never
    ensures TimerSound(s)
  {
  }

  /** Idle-timeout soundness: in every run the deadline is ten seconds after the latest effective
      start of an accept, read, ping, pong or close, or close issued by the timer, and at the
      maximum time before any; the timer acts only at least ten seconds after all of these, so two
      closes it issues by default are at least ten seconds apart however many waits are pending. */
  lemma {:induction false} IdleTimeoutSound(t0: Time, es: seq<Event>)
    requires IsRun(t0, es)
    ensures TimerSound(After(t0, es))
    decreases |es|
  {
    hide TimerSound;
    if es == [] {
      assert TimerSound(Initial(t0)) by { EmptyLogSound(Initial(t0)); }
    } else {
      IdleTimeoutSound(t0, Before(es));
      StepIsSound(After(t0, Before(es)), Last(es));
    }
  }

  // ---- the clock ----

  lemma DoKeepsClock(s: State, c: Call)
    ensures s.Do(c).now == s.now
  {
  }

  lemma {:induction false} RunKeepsClock(s: State, calls: seq<Call>)
    ensures s.Run(calls).now == s.now
    decreases |calls|
  {
    hide State.Do;
    if calls != [] {
      RunKeepsClock(s, calls[..|calls| - 1]);
      DoKeepsClock(s.Run(calls[..|calls| - 1]), calls[|calls| - 1]);
    }
  }

  lemma ContinueKeepsClock(s: State)
    ensures s.Continue().now == s.now
  {
  }

  lemma OnTimerKeepsClock(s: State, ec: Error, callback: seq<Call>)
    ensures s.OnTimer(ec, callback).now == s.now
  {
    hide State.Run;
    if s.timerCallback.Callback? { RunKeepsClock(s.Note(Fired(s.timerCallback.id)), callback); }
  }

  lemma OnReadKeepsClock(s: State, ec: Error, data: string, text: bool, callback: seq<Call>)
    ensures s.OnRead(ec, data, text, callback).now == s.now
  {
    hide State.Run, State.Continue;
    var s1 := s.Received(data);
    RunKeepsClock(s1, callback);
    ContinueKeepsClock(s1.Run(callback).(input := ""));
    ContinueKeepsClock(s1.Run(callback).(input := "", textMode := text));
  }

  /** Only time passing moves the clock. */
  lemma StepKeepsClock(s: State, e: Event)
    requires Enabled(s, e)
    ensures Step(s, e).now == s.now + if e.Elapse? then e.duration else 0
  {
    hide State.Run, State.Do, State.Continue, State.OnRead, State.OnTimer;
    match e
    case External(c) => DoKeepsClock(s, c);
    case AcceptDone(_, callback) =>
      var s1 := s.(pendingAccepts := s.pendingAccepts - 1, accepted := true);
      RunKeepsClock(s1, callback);
      ContinueKeepsClock(s1.Run(callback));
    case ReadDone(ec, data, text, callback) =>
      OnReadKeepsClock(s.(pendingReads := s.pendingReads - 1), ec, data, text, callback);
    case WriteDone(_) =>
    case ControlFrame(callback) => RunKeepsClock(s, callback);
    case TimerDone(ec, callback) => OnTimerKeepsClock(s.(waits := s.waits - 1), ec, callback);
    case Elapse(_) =>
  }

  // ---- waits ----

  predicate IsLaunch(c: Call) { c.LaunchTimer? || c.LaunchTimerWith? }

  function LaunchesIn(calls: seq<Call>): nat {
    if calls == [] then 0
    else LaunchesIn(calls[..|calls| - 1]) + if IsLaunch(calls[|calls| - 1]) then 1 else 0
  }

  function LaunchesOf(e: Event): nat {
    match e
    case External(c) => if IsLaunch(c) then 1 else 0
    case AcceptDone(_, callback) => LaunchesIn(callback)
    case ReadDone(_, _, _, callback) => LaunchesIn(callback)
    case ControlFrame(callback) => LaunchesIn(callback)
    case TimerDone(_, callback) => LaunchesIn(callback)
    case _ => 0
  }

  /** Calls that launch the timer, made by user code in a run. */
  function Launches(es: seq<Event>): nat {
    if es == [] then 0 else Launches(Before(es)) + LaunchesOf(Last(es))
  }

  predicate IsTimerError(e: Event) {
    e.TimerDone? && e.ec != NoError && e.ec != Aborted
  }

  function TimerErrors(es: seq<Event>): nat {
    if es == [] then 0 else TimerErrors(Before(es)) + if IsTimerError(Last(es)) then 1 else 0
  }

  function Firings(log: seq<Entry>): nat {
    if log == [] then 0
    else Firings(log[..|log| - 1]) + if log[|log| - 1].op.Fired? then 1 else 0
  }

  lemma FiringsOneMore(log: seq<Entry>)
    ensures forall e: Entry :: Firings(log + [e]) == Firings(log) + if e.op.Fired? then 1 else 0
  {
    forall e: Entry
      ensures Firings(log + [e]) == Firings(log) + if e.op.Fired? then 1 else 0
    {
      assert (log + [e])[..|log|] == log;
    }
  }

  /** Pending waits and callback firings together. */
  function Spent(s: State): nat {
    s.waits + Firings(s.log)
  }

  lemma DoSpends(s: State, c: Call)
    ensures Spent(s.Do(c)) == Spent(s) + if IsLaunch(c) then 1 else 0
  {
    hide Firings;
    FiringsOneMore(s.log);
  }

  lemma {:induction false} RunSpends(s: State, calls: seq<Call>)
    ensures Spent(s.Run(calls)) == Spent(s) + LaunchesIn(calls)
    decreases |calls|
  {
    hide Spent;
    if calls != [] {
      var front := calls[..|calls| - 1];
      RunSpends(s, front);
      DoSpends(s.Run(front), calls[|calls| - 1]);
    }
  }

  lemma ContinueSpends(s: State)
    ensures Spent(s.Continue()) == Spent(s)
  {
    hide Spent;
    DoSpends(s, DoWrite);
    DoSpends(s, DoRead);
  }

  lemma HandlerSpends(s: State, callback: seq<Call>, text: bool)
    ensures Spent(s.Run(callback).Continue()) == Spent(s) + LaunchesIn(callback)
    ensures var s2 := s.Run(callback).(input := "");
            Spent((if s2.autoFrame then s2.(textMode := text) else s2).Continue())
            == Spent(s) + LaunchesIn(callback)
  {
    hide State.Run, State.Continue;
    RunSpends(s, callback);
    var s2 := s.Run(callback).(input := "");
    ContinueSpends(s.Run(callback));
    ContinueSpends(s2);
    ContinueSpends(s2.(textMode := text));
  }

  lemma NoteSpends(s: State, op: Op)
    ensures Spent(s.Note(op)) == Spent(s) + if op.Fired? then 1 else 0
  {
    FiringsOneMore(s.log);
  }

  lemma OnTimerSpends(s: State, ec: Error, callback: seq<Call>)
    requires !s.TimerActs(ec) || s.timerCallback == Unset ==> callback == []
    ensures Spent(s.OnTimer(ec, callback))
            == Spent(s) + LaunchesIn(callback) + if ec != NoError && ec != Aborted then 0 else 1
  {
    hide Firings, State.Run, State.Note;
    if ec != NoError && ec != Aborted {
      NoteSpends(s, Reported("timer"));
    } else if s.deadline.Passed(s.now) {
      match s.timerCallback
      case Callback(id) =>
        NoteSpends(s, Fired(id));
        RunSpends(s.Note(Fired(id)), callback);
      case Unset => NoteSpends(s.ExpiresAfterTen(), TimedClose);
    }
  }

  lemma OnWriteSpends(s: State, ec: Error)
    ensures Spent(s.OnWrite(ec)) == Spent(s)
  {
    hide Firings, State.Note;
    NoteSpends(s, Reported("write"));
    DoSpends(s.(output := ""), DoRead);
  }

  lemma OnAcceptSpends(s: State, ec: Error, callback: seq<Call>)
    requires ec != NoError ==> callback == []
    ensures Spent(s.OnAccept(ec, callback)) == Spent(s) + LaunchesIn(callback)
  {
    hide State.Run, State.Continue, State.Note, Firings;
    NoteSpends(s, Reported("accept"));
    HandlerSpends(s.(accepted := true), callback, true);
  }

  lemma OnReadSpends(s: State, ec: Error, data: string, text: bool, callback: seq<Call>)
    requires ec != NoError ==> callback == []
    ensures Spent(s.OnRead(ec, data, text, callback)) == Spent(s) + LaunchesIn(callback)
  {
    hide State.Run, State.Continue, State.Note, Firings;
    NoteSpends(s, Reported("read"));
    HandlerSpends(s.(readable := true, input := s.input + data), callback, text);
  }

  lemma StepSpends(s: State, e: Event)
    requires Enabled(s, e)
    ensures Spent(Step(s, e)) == Spent(s) + LaunchesOf(e) - if IsTimerError(e) then 1 else 0
  {
    hide Firings, LaunchesIn, State.Run, State.Do, State.OnAccept, State.OnRead, State.OnWrite, State.OnTimer;
    match e
    case External(c) => DoSpends(s, c);
    case AcceptDone(ec, callback) =>
      OnAcceptSpends(s.(pendingAccepts := s.pendingAccepts - 1), ec, callback);
    case ReadDone(ec, data, text, callback) =>
      OnReadSpends(s.(pendingReads := s.pendingReads - 1), ec, data, text, callback);
    case WriteDone(ec) => OnWriteSpends(s.(pendingWrites := s.pendingWrites - 1), ec);
    case ControlFrame(callback) => RunSpends(s, callback);
    case TimerDone(ec, callback) => OnTimerSpends(s.(waits := s.waits - 1), ec, callback);
    case Elapse(_) =>
  }

  /** Timer-wait conservation: after any run the pending waits are the user's launches, less the
      firings of the timer callback, less the timer's error completions. Moving the deadline
      neither gains nor loses a wait, and neither does the default close. */
  lemma {:induction false} WaitsConserved(t0: Time, es: seq<Event>)
    requires IsRun(t0, es)
    ensures After(t0, es).waits + Firings(After(t0, es).log) + TimerErrors(es) == Launches(es)
    decreases |es|
  {
    if es != [] {
      WaitsConserved(t0, Before(es));
      StepSpends(After(t0, Before(es)), Last(es));
    }
  }
}
