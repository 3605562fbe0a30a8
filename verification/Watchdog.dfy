/** The chat server's two-stage timer: after ten idle seconds it pings, and after ten more without
    a message or pong it closes. Each handled message or pong launches the timer anew, so any
    number of leftover waits may be pending. */
module Watchdog {
  import opened Traces
  import opened ServerSession
  import opened ServerTimer
  import opened DefaultTimeout

  /** The two timer callbacks: ping and wait for the second stage, and close. */
  const PING_STAGE: CallbackId := 1
  const CLOSE_STAGE: CallbackId := 2

  predicate LaunchesNothing(calls: seq<Call>) {
    forall c :: c in calls ==> !IsLaunch(c)
  }

  /** How a message or pong handler of the chat server ends. */
  predicate EndsByRearming(calls: seq<Call>) {
    && calls != [] && calls[|calls| - 1] == LaunchTimerWith(PING_STAGE)
    && LaunchesNothing(calls[..|calls| - 1])
  }

  /** What each stage of the timer callback does. */
  function StageCalls(id: CallbackId): seq<Call> {
    if id == PING_STAGE then [DoPing, LaunchTimerWith(CLOSE_STAGE)] else [DoClose]
  }

  /** What can happen to a chat session: its handlers make the calls the chat server's handlers
      make, broadcasts from other sessions arrive as outside calls, and no wait ends in an error. */
  predicate IsChatEvent(s: State, e: Event) {
    match e
    case External(c) => !IsLaunch(c)
    case AcceptDone(_, callback) => LaunchesNothing(callback)
    case ReadDone(ec, _, _, callback) => ec == NoError ==> EndsByRearming(callback)
    case ControlFrame(callback) => LaunchesNothing(callback) || EndsByRearming(callback)
    case TimerDone(ec, callback) =>
      && (ec == NoError || ec == Aborted)
      && (s.TimerActs(ec) && s.timerCallback.Callback? ==> callback == StageCalls(s.timerCallback.id))
    case _ => true
  }

  predicate IsChatRun(t0: Time, es: seq<Event>)
    requires IsRun(t0, es)
    decreases |es|
  {
    es == [] || (IsChatRun(t0, Before(es)) && IsChatEvent(After(t0, Before(es)), Last(es)))
  }

  predicate HandlesMessageOrPong(e: Event) {
    || (e.ReadDone? && e.ec == NoError)
    || (e.ControlFrame? && EndsByRearming(e.callback))
  }

  /** A wait completes behind the deadline and invokes the timer callback of the given stage. */
  predicate Fires(s: State, e: Event, stage: CallbackId) {
    TimerActsIn(s, e) && s.timerCallback == Callback(stage)
  }

  // ---- what every step keeps ----

  /** A read is pending only on an accepted session, and starting it moved the deadline. */
  predicate ReadsInTime(s: State) {
    s.pendingReads > 0 ==> s.accepted && s.deadline.At?
  }

  /** Which stage the watchdog is in. */
  ghost predicate Staged(s: State) {
    && ReadsInTime(s)
    && (s.deadline.At? ==> s.deadline.time <= s.now + TEN_SECONDS)
    && (s.timerCallback.Unset? ==> s.waits == 0)
    && (s.timerCallback.Callback? ==>
          && s.accepted && s.deadline.At?
          && (s.timerCallback.id == PING_STAGE || s.timerCallback.id == CLOSE_STAGE))
  }

  predicate Unrelated(op: Op) { !op.Armed? && !TimerAction(op) }

  /** The watchdog is left alone; the deadline moves at most outwards. */
  ghost predicate Calm(s: State, s': State) {
    && s'.timerCallback == s.timerCallback && s'.waits == s.waits && s.now <= s'.now
    && (s.accepted ==> s'.accepted)
    && ReadsInTime(s')
    && (s'.deadline == s.deadline || s'.deadline == At(s'.now + TEN_SECONDS))
    && s.log <= s'.log
    && forall k :: |s.log| <= k < |s'.log| ==> Unrelated(s'.log[k].op)
  }

  lemma DoIsCalm(s: State, c: Call)
    requires !IsLaunch(c) && ReadsInTime(s)
    ensures Calm(s, s.Do(c)) && s.Do(c).now == s.now
  {
  }

  lemma CalmOn(a: State, b: State, c: State)
    requires Calm(a, b) && Calm(b, c) && b.now == c.now
    ensures Calm(a, c)
  {
  }

  lemma {:induction false} RunIsCalm(s: State, calls: seq<Call>)
    requires LaunchesNothing(calls) && ReadsInTime(s)
    ensures Calm(s, s.Run(calls)) && s.Run(calls).now == s.now
    decreases |calls|
  {
    hide State.Do;
    if calls != [] {
      var front := calls[..|calls| - 1];
      assert calls[|calls| - 1] in calls;
      RunIsCalm(s, front);
      DoIsCalm(s.Run(front), calls[|calls| - 1]);
    }
  }

  lemma ContinueIsCalm(s: State)
    requires ReadsInTime(s)
    ensures Calm(s, s.Continue()) && s.Continue().now == s.now
  {
    DoIsCalm(s, DoWrite);
    DoIsCalm(s, DoRead);
  }

  /** The ping stage is armed, with one wait more. */
  ghost predicate Rearmed(s: State, s': State) {
    && s'.timerCallback == Callback(PING_STAGE) && s'.waits == s.waits + 1
    && AddsNoTimerAction(s.log, s'.log)
  }

  lemma RearmingRun(s: State, calls: seq<Call>)
    requires Staged(s) && s.accepted && s.deadline.At? && EndsByRearming(calls)
    ensures Rearmed(s, s.Run(calls)) && Staged(s.Run(calls)) && s.Run(calls).now == s.now
  {
    RunIsCalm(s, calls[..|calls| - 1]);
    RunLast(s, calls);
    hide State.Run;
  }

  lemma RunTwo(s: State, a: Call, b: Call)
    ensures s.Run([a]) == s.Do(a) && s.Run([a, b]) == s.Do(a).Do(b)
  {
    assert [a][..0] == [] && [a, b][..1] == [a];
    assert s.Run([]) == s;
  }

  /** What the two stages do. */
  ghost predicate Pings(s: State, s': State) {
    && s'.timerCallback == Callback(CLOSE_STAGE) && s'.waits == s.waits
    && s'.deadline == At(s.now + TEN_SECONDS) && s'.now == s.now
    && s'.log == s.log + [Entry(Fired(PING_STAGE), s.now), Entry(Ping, s.now), Entry(Armed(CLOSE_STAGE), s.now)]
  }

  ghost predicate Closes(s: State, s': State) {
    && s'.timerCallback == s.timerCallback && s'.deadline == At(s.now + TEN_SECONDS) && s'.now == s.now
    && s'.log == s.log + [Entry(Fired(CLOSE_STAGE), s.now), Entry(Close, s.now)]
  }

  /** What an event does to the watchdog. */
  ghost predicate Turns(s: State, e: Event, s': State) {
    && Staged(s') && s.now <= s'.now
    && if HandlesMessageOrPong(e) then Rearmed(s, s')
       else if Fires(s, e, PING_STAGE) then Pings(s, s')
       else if Fires(s, e, CLOSE_STAGE) then Closes(s, s')
       else Calm(s, s')
  }

  lemma TimerTurns(s: State, e: Event)
    requires Enabled(s, e) && IsChatEvent(s, e) && Staged(s) && e.TimerDone?
    ensures Turns(s, e, Step(s, e))
  {
    hide State.Run;
    if Fires(s, e, PING_STAGE) {
      var s1 := s.(waits := s.waits - 1).Note(Fired(PING_STAGE));
      RunTwo(s1, DoPing, LaunchTimerWith(CLOSE_STAGE));
      assert Step(s, e) == s1.Control(Ping).LaunchWith(CLOSE_STAGE);
    } else if Fires(s, e, CLOSE_STAGE) {
      var s1 := s.(waits := s.waits - 1).Note(Fired(CLOSE_STAGE));
      RunTwo(s1, DoClose, DoClose);
      assert Step(s, e) == s1.Control(Close);
    }
  }

  /** A completion handler that ran a callback and then continues. */
  lemma HandlerIsCalm(s: State, callback: seq<Call>)
    requires Staged(s) && s.accepted && LaunchesNothing(callback)
    ensures Calm(s, s.Run(callback).Continue())
  {
    hide State.Run, State.Continue;
    RunIsCalm(s, callback);
    ContinueIsCalm(s.Run(callback));
    CalmOn(s, s.Run(callback), s.Run(callback).Continue());
  }

  lemma AcceptTurns(s: State, e: Event)
    requires Enabled(s, e) && IsChatEvent(s, e) && Staged(s) && e.AcceptDone?
    ensures Turns(s, e, Step(s, e))
  {
    hide State.Run, State.Continue;
    if e.ec == NoError {
      HandlerIsCalm(s.(pendingAccepts := s.pendingAccepts - 1, accepted := true), e.callback);
    }
  }

  lemma ReadTurns(s: State, e: Event)
    requires Enabled(s, e) && IsChatEvent(s, e) && Staged(s) && e.ReadDone?
    ensures Turns(s, e, Step(s, e))
  {
    hide State.Run, State.Continue, EndsByRearming;
    if e.ec == NoError {
      var s1 := s.(pendingReads := s.pendingReads - 1, readable := true, input := s.input + e.data);
      RearmingRun(s1, e.callback);
      var s2 := s1.Run(e.callback).(input := "");
      var s3 := if s2.autoFrame then s2.(textMode := e.text) else s2;
      ContinueIsCalm(s3);
    }
  }

  lemma ControlTurns(s: State, e: Event)
    requires Enabled(s, e) && IsChatEvent(s, e) && Staged(s) && e.ControlFrame?
    ensures Turns(s, e, Step(s, e))
  {
    hide State.Run;
    if EndsByRearming(e.callback) { RearmingRun(s, e.callback); } else { RunIsCalm(s, e.callback); }
  }

  lemma ReadIsCalm(s: State)
    requires ReadsInTime(s)
    ensures Calm(s, s.Read())
  {
  }

  lemma OnWriteIsCalm(s: State, ec: Error)
    requires ReadsInTime(s)
    ensures Calm(s, s.OnWrite(ec))
  {
    hide State.Read;
    ReadIsCalm(s.(output := ""));
  }

  lemma WriteTurns(s: State, e: Event)
    requires Enabled(s, e) && Staged(s) && e.WriteDone?
    ensures Turns(s, e, Step(s, e))
  {
    hide State.OnWrite, State.OnAccept, State.OnRead, State.OnTimer, State.Run, Rearmed;
    OnWriteIsCalm(s.(pendingWrites := s.pendingWrites - 1), e.ec);
  }

  lemma StepTurns(s: State, e: Event)
    requires Enabled(s, e) && IsChatEvent(s, e) && Staged(s)
    ensures Turns(s, e, Step(s, e))
  {
    match e
    case External(c) => DoIsCalm(s, c);
    case AcceptDone(_, _) => AcceptTurns(s, e);
    case ReadDone(_, _, _, _) => ReadTurns(s, e);
    case WriteDone(_) => WriteTurns(s, e);
    case ControlFrame(_) => ControlTurns(s, e);
    case TimerDone(_, _) => TimerTurns(s, e);
    case Elapse(_) =>
  }

  // ---- the watchdog over whole runs ----

  /** Event `i` is the watchdog's timer callback of the given stage. */
  ghost predicate FiresAt(t0: Time, es: seq<Event>, i: int, stage: CallbackId) {
    0 <= i < |es| && IsRun(t0, es[..i]) && Fires(After(t0, es[..i]), es[i], stage)
  }

  /** No message or pong was handled after event `i` and before event `j`. */
  ghost predicate NothingHandled(es: seq<Event>, i: int, j: int)
    requires j <= |es|
  {
    forall k :: 0 <= k && i < k < j ==> !HandlesMessageOrPong(es[k])
  }

  /** Event `i` is a watchdog ping ten seconds or more before `t`, with nothing handled from then
      until event `j`. */
  ghost predicate PingedAt(t0: Time, es: seq<Event>, i: int, j: int, t: Time)
    requires j <= |es|
  {
    FiresAt(t0, es, i, PING_STAGE) && i < j && After(t0, es[..i]).now + TEN_SECONDS <= t && NothingHandled(es, i, j)
  }

  ghost predicate Pinged(t0: Time, es: seq<Event>, j: int, t: Time)
    requires j <= |es|
  {
    exists i :: PingedAt(t0, es, i, j, t)
  }

  /** Every watchdog close follows a watchdog ping ten seconds or more before, and between the two no
      message or pong was handled. */
  ghost predicate Escalates(t0: Time, es: seq<Event>) {
    forall j :: FiresAt(t0, es, j, CLOSE_STAGE) ==> Pinged(t0, es, j, After(t0, es[..j]).now)
  }

  /** A watchdog close has fired since the last message or pong. */
  ghost predicate HungUp(t0: Time, es: seq<Event>) {
    exists j :: FiresAt(t0, es, j, CLOSE_STAGE) && NothingHandled(es, j, |es|)
  }

  ghost predicate Watched(t0: Time, es: seq<Event>)
    requires IsRun(t0, es)
  {
    var s := After(t0, es);
    && Staged(s) && Escalates(t0, es)
    && (s.timerCallback.Callback? <==> Some(es, HandlesMessageOrPong))
    && (s.timerCallback == Callback(PING_STAGE) ==> s.waits >= 1)
    && (s.timerCallback == Callback(CLOSE_STAGE) ==> s.waits >= 1 || HungUp(t0, es))
    && (s.timerCallback == Callback(CLOSE_STAGE) ==> Pinged(t0, es, |es|, s.deadline.time))
  }

  lemma FiresAtOneMore(t0: Time, es: seq<Event>)
    requires es != [] && IsRun(t0, es)
    ensures forall i, stage :: FiresAt(t0, es, i, stage) <==>
              || (i < |es| - 1 && FiresAt(t0, Before(es), i, stage))
              || (i == |es| - 1 && Fires(After(t0, Before(es)), Last(es), stage))
    ensures forall i, stage :: FiresAt(t0, Before(es), i, stage) ==> 0 <= i < |es| - 1
    ensures forall i :: 0 <= i < |es| ==> es[..i] == Before(es)[..i]
  {
    hide Fires, After;
    assert forall i :: 0 <= i < |es| - 1 ==> es[i] == Before(es)[i];
    assert forall i :: 0 <= i < |es| ==> es[..i] == Before(es)[..i];
    assert es[..|es| - 1] == Before(es);
  }

  /** What was said of an earlier event still stands. */
  lemma PingedStill(t0: Time, es: seq<Event>, i: int, j: int, t: Time, t': Time)
    requires es != [] && IsRun(t0, es) && j <= |es| - 1 && t <= t'
    requires PingedAt(t0, Before(es), i, j, t)
    ensures PingedAt(t0, es, i, j, t')
    ensures j == |es| - 1 && !HandlesMessageOrPong(Last(es)) ==> PingedAt(t0, es, i, |es|, t')
  {
    hide HandlesMessageOrPong, IsRun, After;
    FiresAtOneMore(t0, es);
  }

  lemma PingedLater(t0: Time, es: seq<Event>, i: int, j: int, t: Time, t': Time)
    requires j <= |es| && t <= t' && PingedAt(t0, es, i, j, t)
    ensures PingedAt(t0, es, i, j, t')
  {
  }

  lemma JustPinged(t0: Time, es: seq<Event>)
    requires es != [] && IsRun(t0, es) && Fires(After(t0, Before(es)), Last(es), PING_STAGE)
    ensures PingedAt(t0, es, |es| - 1, |es|, After(t0, Before(es)).now + TEN_SECONDS)
  {
    hide IsRun, After, Fires;
    RunPrefix(t0, es, |es| - 1);
    FiresAtOneMore(t0, es);
    assert es[..|es| - 1] == Before(es);
  }

  lemma EscalatesOneMore(t0: Time, es: seq<Event>)
    requires es != [] && IsRun(t0, es) && Escalates(t0, Before(es))
    requires var s := After(t0, Before(es));
             Fires(s, Last(es), CLOSE_STAGE) ==> Pinged(t0, Before(es), |es| - 1, s.now)
    ensures Escalates(t0, es)
  {
    hide PingedAt, IsRun, After, Fires;
    RunPrefix(t0, es, |es| - 1);
    FiresAtOneMore(t0, es);
    forall j | FiresAt(t0, es, j, CLOSE_STAGE)
      ensures Pinged(t0, es, j, After(t0, es[..j]).now)
    {
      var t := After(t0, es[..j]).now;
      assert es[..|es| - 1] == Before(es);
      var i :| PingedAt(t0, Before(es), i, j, t);
      PingedStill(t0, es, i, j, t, t);
    }
  }

  lemma HungUpStill(t0: Time, es: seq<Event>)
    requires es != [] && IsRun(t0, es) && !HandlesMessageOrPong(Last(es))
    requires HungUp(t0, Before(es)) || Fires(After(t0, Before(es)), Last(es), CLOSE_STAGE)
    ensures HungUp(t0, es)
  {
    hide HandlesMessageOrPong, IsRun, After, Fires;
    FiresAtOneMore(t0, es);
    if HungUp(t0, Before(es)) {
      var j :| FiresAt(t0, Before(es), j, CLOSE_STAGE) && NothingHandled(Before(es), j, |es| - 1);
      assert FiresAt(t0, es, j, CLOSE_STAGE) && NothingHandled(es, j, |es|);
    } else {
      assert FiresAt(t0, es, |es| - 1, CLOSE_STAGE) && NothingHandled(es, |es| - 1, |es|);
    }
  }

  lemma FiringHandlesNothing(s: State, e: Event)
    ensures TimerActsIn(s, e) ==> !HandlesMessageOrPong(e)
  {
  }

  lemma WatchedOneMore(t0: Time, es: seq<Event>)
    requires es != [] && IsRun(t0, es) && Watched(t0, Before(es))
    requires Turns(After(t0, Before(es)), Last(es), After(t0, es))
    ensures Watched(t0, es)
  {
    hide IsRun, After, HandlesMessageOrPong, Escalates, HungUp, PingedAt;
    RunPrefix(t0, es, |es| - 1);
    SomeOneMore(es, HandlesMessageOrPong);
    var s, s' := After(t0, Before(es)), After(t0, es);
    if s.timerCallback == Callback(CLOSE_STAGE) && !HandlesMessageOrPong(Last(es)) {
      assert Pinged(t0, es, |es|, s'.deadline.time) by {
        var i :| PingedAt(t0, Before(es), i, |es| - 1, s.deadline.time);
        PingedStill(t0, es, i, |es| - 1, s.deadline.time, s'.deadline.time);
      }
    }
    if Fires(s, Last(es), PING_STAGE) {
      FiringHandlesNothing(s, Last(es));
      assert PingedAt(t0, es, |es| - 1, |es|, s'.deadline.time) by { JustPinged(t0, es); }
    }
    if Fires(s, Last(es), CLOSE_STAGE) {
      assert Pinged(t0, Before(es), |es| - 1, s.now) by {
        var i :| PingedAt(t0, Before(es), i, |es| - 1, s.deadline.time);
        PingedLater(t0, Before(es), i, |es| - 1, s.deadline.time, s.now);
      }
    }
    EscalatesOneMore(t0, es);
    if !HandlesMessageOrPong(Last(es)) && (HungUp(t0, Before(es)) || Fires(s, Last(es), CLOSE_STAGE)) {
      HungUpStill(t0, es);
    }
  }

  lemma {:induction false} WatchedInRuns(t0: Time, es: seq<Event>)
    requires IsRun(t0, es) && IsChatRun(t0, es)
    ensures Watched(t0, es)
    ensures es != [] ==> Turns(After(t0, Before(es)), Last(es), After(t0, es))
    decreases |es|
  {
    if es != [] {
      WatchedInRuns(t0, Before(es));
      StepTurns(After(t0, Before(es)), Last(es));
      WatchedOneMore(t0, es);
    }
  }

  /** Watchdog escalation, in every chat-server run with any number of leftover waits: a watchdog
      close follows a watchdog ping at least ten seconds before, with no message or pong handled in
      between; a timer callback is set exactly when a message or pong has been handled; and from
      then on a wait is pending unless a watchdog close has fired since the last one. */
  lemma WatchdogEscalation(t0: Time, es: seq<Event>)
    requires IsRun(t0, es) && IsChatRun(t0, es)
    ensures var s := After(t0, es);
            && Escalates(t0, es)
            && (s.timerCallback.Callback? <==> Some(es, HandlesMessageOrPong))
            && (Some(es, HandlesMessageOrPong) ==> s.waits >= 1 || HungUp(t0, es))
  {
    hide IsRun, After, Escalates, HungUp, Pinged, HandlesMessageOrPong;
    WatchedInRuns(t0, es);
  }

  /** A chat client of which no message or pong was ever handled is never timed out: no wait is
      pending and the timer has done nothing. The default close never happens at all. */
  lemma {:induction false} SilentClientIsNeverTimedOut(t0: Time, es: seq<Event>)
    requires IsRun(t0, es) && IsChatRun(t0, es)
    ensures !Some(es, HandlesMessageOrPong) ==>
              After(t0, es).waits == 0 && forall e :: e in After(t0, es).log ==> !TimerAction(e.op)
    ensures forall e :: e in After(t0, es).log ==> !e.op.TimedClose?
    decreases |es|
  {
    hide Step, Escalates, HungUp, Pinged, HandlesMessageOrPong;
    WatchedInRuns(t0, es);
    if es != [] {
      SilentClientIsNeverTimedOut(t0, Before(es));
      WatchedInRuns(t0, Before(es));
      SomeOneMore(es, HandlesMessageOrPong);
    }
  }

  /** Ten seconds in which nothing happens, and then one wait that completes. */
  function TenIdleSeconds(stage: CallbackId): seq<Event> {
    [Elapse(TEN_SECONDS), TimerDone(NoError, StageCalls(stage))]
  }

  lemma ChatOneMoreEvent(t0: Time, es: seq<Event>, e: Event)
    requires IsRun(t0, es) && IsChatRun(t0, es) && Enabled(After(t0, es), e) && IsChatEvent(After(t0, es), e)
    ensures IsRun(t0, es + [e]) && IsChatRun(t0, es + [e]) && After(t0, es + [e]) == Step(After(t0, es), e)
  {
    assert Before(es + [e]) == es;
  }

  /** The stage that is set fires in ten idle seconds. */
  ghost predicate FiresIdle(s: State, stage: CallbackId, s': State) {
    var s1 := s.(now := s.now + TEN_SECONDS);
    var e := TimerDone(NoError, StageCalls(stage));
    Fires(s1, e, stage) && Turns(s1, e, s')
  }

  lemma IdleWaitCompletes(s: State, stage: CallbackId)
    requires Staged(s) && s.timerCallback == Callback(stage) && s.waits >= 1
    ensures var idle := Elapse(TEN_SECONDS);
            var e := TimerDone(NoError, StageCalls(stage));
            && Enabled(s, idle) && IsChatEvent(s, idle)
            && Enabled(Step(s, idle), e) && IsChatEvent(Step(s, idle), e)
            && FiresIdle(s, stage, Step(Step(s, idle), e))
  {
    hide StageCalls;
    StepTurns(s.(now := s.now + TEN_SECONDS), TimerDone(NoError, StageCalls(stage)));
  }

  lemma IdleStageFires(t0: Time, es: seq<Event>, stage: CallbackId)
    requires IsRun(t0, es) && IsChatRun(t0, es)
    requires After(t0, es).timerCallback == Callback(stage) && After(t0, es).waits >= 1
    ensures var es' := es + TenIdleSeconds(stage);
            IsRun(t0, es') && IsChatRun(t0, es') && FiresIdle(After(t0, es), stage, After(t0, es'))
  {
    hide IsRun, After, Step, StageCalls, FiresIdle, Enabled, IsChatEvent, IsChatRun;
    var idle, e := Elapse(TEN_SECONDS), TimerDone(NoError, StageCalls(stage));
    WatchedInRuns(t0, es);
    IdleWaitCompletes(After(t0, es), stage);
    ChatOneMoreEvent(t0, es, idle);
    ChatOneMoreEvent(t0, es + [idle], e);
    assert es + TenIdleSeconds(stage) == es + [idle] + [e];
  }

  /** An idle client is closed: from any point of a chat run at which a message or pong was handled
      and no watchdog close has fired since, ten idle seconds in the second stage, or ten in the first
      and ten more in the second, end with a close. */
  lemma IdleClientIsClosed(t0: Time, es: seq<Event>)
    requires IsRun(t0, es) && IsChatRun(t0, es) && Some(es, HandlesMessageOrPong) && !HungUp(t0, es)
    ensures var s := After(t0, es);
            var pinged := s.timerCallback == Callback(CLOSE_STAGE);
            var es' := es + (if pinged then [] else TenIdleSeconds(PING_STAGE)) + TenIdleSeconds(CLOSE_STAGE);
            && IsRun(t0, es') && IsChatRun(t0, es')
            && var log := After(t0, es').log;
            log != [] && log[|log| - 1] == Entry(Close, s.now + (if pinged then 1 else 2) * TEN_SECONDS)
  {
    hide IsRun, After, Step, HungUp, StageCalls, TenIdleSeconds;
    WatchedInRuns(t0, es);
    assert es + [] == es;
    if After(t0, es).timerCallback == Callback(PING_STAGE) {
      IdleStageFires(t0, es, PING_STAGE);
      IdleStageFires(t0, es + TenIdleSeconds(PING_STAGE), CLOSE_STAGE);
    } else {
      IdleStageFires(t0, es, CLOSE_STAGE);
    }
  }
}
