/** The watchdog of each session of the chat server, over the server's own events: who is heard of is
    kept, and who is closed was pinged before. */
module ChatWatch {
  import opened Traces
  import opened Numerals
  import opened ChatMessage
  import Session = ServerSession
  import Chat = ChatRoom
  import Timer = ServerTimer
  import opened Watchdog
  import opened ChatServer

  /** A message or pong is handled at session `c`. */
  predicate Heard(e: Event, c: Chat.SessionId) {
    e.At? && e.id == c && (e.what.PongFrame? || (e.what.ReadDone? && e.what.ec == Session.NoError))
  }

  /** A wait of session `c` completes behind the deadline while its timer callback is the given one. */
  predicate FiresIn(v: Server, e: Event, c: Chat.SessionId, stage: Session.CallbackId) {
    && e.At? && e.id == c && c in v.sessions && e.what.TimerDone?
    && v.sessions[c].TimerActs(e.what.ec) && v.sessions[c].timerCallback == Session.Callback(stage)
  }

  ghost predicate SessionTurns(v: Server, e: Event, c: Chat.SessionId, v': Server)
    requires c in v.sessions
  {
    && c in v'.sessions && Staged(v'.sessions[c])
    && if Heard(e, c) then Rearmed(v.sessions[c], v'.sessions[c])
       else if FiresIn(v, e, c, PING_STAGE) then Pings(v.sessions[c], v'.sessions[c])
       else if FiresIn(v, e, c, CLOSE_STAGE) then Closes(v.sessions[c], v'.sessions[c])
       else Calm(v.sessions[c], v'.sessions[c])
  }

  /** The pong and message handlers, and no others, launch the ping stage. */
  lemma OwnEventHeard(room: Chat.Room, s: Session.State, id: Chat.SessionId, what: Happening, wild: Wild)
    requires Reply(room, s, id, what, wild).Makes?
    ensures HandlesMessageOrPong(OwnEvent(what, Reply(room, s, id, what, wild).calls)) <==> Heard(At(id, what), id)
  {
    hide ParseBatch, SerializeBatch, Chat.Room.OnMessage;
    assert Chat.REARM[..0] == [];
  }

  lemma ActorTurns(v: Server, id: Chat.SessionId, what: Happening, wild: Wild)
    requires Enabled(v, At(id, what), wild) && Staged(v.sessions[id])
    ensures SessionTurns(v, At(id, what), id, Step(v, At(id, what), wild))
  {
    hide Chat.Step, Session.Step, Told, Broadcast, Staged, Rearmed, Pings, Closes, Calm, HandlesMessageOrPong;
    var s := v.sessions[id];
    var e := OwnEvent(what, Reply(v.room, s, id, what, wild).calls);
    OwnEventIsChat(v.room, s, id, what, Reply(v.room, s, id, what, wild).calls, wild);
    OwnEventHeard(v.room, s, id, what, wild);
    StepTurns(s, e);
  }

  lemma HearIsCalm(s: Session.State, chunk: string)
    requires Staged(s)
    ensures Calm(s, Hear(s, chunk)) && Staged(Hear(s, chunk))
  {
    hide Session.State.Do;
    var s1 := s.Do(Session.Append(chunk));
    DoIsCalm(s, Session.Append(chunk));
    DoIsCalm(s1, Session.DoWrite);
    CalmOn(s, s1, Hear(s, chunk));
  }

  lemma OtherTurns(v: Server, e: Event, c: Chat.SessionId, wild: Wild)
    requires Enabled(v, e, wild) && c in v.sessions && Staged(v.sessions[c]) && (e.At? ==> e.id != c)
    ensures SessionTurns(v, e, c, Step(v, e, wild))
  {
    hide Chat.Step, Session.Step, Told, Broadcast, Hear;
    if e.At? && RoomEvent(v.sessions[e.id], e.id, e.what).Some? {
      HearIsCalm(v.sessions[c], Broadcast(v.room, RoomEvent(v.sessions[e.id], e.id, e.what).value));
    }
  }

  lemma SessionIsStaged(t0: Session.Time, es: seq<Event>, c: Chat.SessionId, wild: Wild)
    requires IsRun(t0, es, wild) && c in After(t0, es, wild).sessions
    ensures Staged(After(t0, es, wild).sessions[c])
  {
    hide IsRun, After, Session.IsRun, Session.After, Born, Trace, Joined, Staged, Escalates, HungUp, Pinged;
    SessionsRunAlone(t0, es, c, wild);
    WatchedInRuns(Born(t0, es, c, wild), Trace(t0, es, c, wild));
  }

  /** In every run, a pong or a message read at a session launches its ping stage with one wait more. */
  lemma MessagesAndPongsRearm(t0: Session.Time, es: seq<Event>, e: Event, c: Chat.SessionId, wild: Wild)
    requires IsRun(t0, es + [e], wild) && Heard(e, c)
    ensures IsRun(t0, es, wild)
    ensures var before, after := After(t0, es, wild).sessions, After(t0, es + [e], wild).sessions;
            && c in before && c in after
            && after[c].timerCallback == Session.Callback(PING_STAGE) && after[c].waits == before[c].waits + 1
  {
    hide IsRun, After, Staged, Step;
    OneMoreHappening(t0, es, e, wild);
    SessionIsStaged(t0, es, c, wild);
    ActorTurns(After(t0, es, wild), c, e.what, wild);
  }

  // ---- the watchdog of each session, over the server's own events ----

  /** What an event means to a session's watchdog, and when. */
  datatype Mark = Nothing | Handled | PingFired(at: Session.Time) | CloseFired(at: Session.Time)

  function MarkOf(v: Server, e: Event, c: Chat.SessionId): Mark {
    if Heard(e, c) then Handled
    else if FiresIn(v, e, c, PING_STAGE) then PingFired(v.now)
    else if FiresIn(v, e, c, CLOSE_STAGE) then CloseFired(v.now)
    else Nothing
  }

  function Marks(t0: Session.Time, es: seq<Event>, c: Chat.SessionId, wild: Wild): seq<Mark>
    requires IsRun(t0, es, wild)
  {
    if es == [] then [] else Marks(t0, Before(es), c, wild) + [MarkOf(After(t0, Before(es), wild), Last(es), c)]
  }

  /** Mark `k` is a ping ten seconds or more before `t`, with nothing handled between it and mark `j`. */
  ghost predicate PingedBefore(ms: seq<Mark>, k: int, j: int, t: Session.Time) {
    && 0 <= k < j <= |ms| && ms[k].PingFired? && ms[k].at + Session.TEN_SECONDS <= t
    && forall m :: k < m < j ==> ms[m] != Handled
  }

  ghost predicate EveryCloseWarned(ms: seq<Mark>) {
    forall j :: 0 <= j < |ms| && ms[j].CloseFired? ==> exists k :: PingedBefore(ms, k, j, ms[j].at)
  }

  ghost predicate Warned(v: Server, ms: seq<Mark>, c: Chat.SessionId) {
    c in v.sessions && v.sessions[c].timerCallback == Session.Callback(CLOSE_STAGE) ==>
      v.sessions[c].deadline.At? && exists k :: PingedBefore(ms, k, |ms|, v.sessions[c].deadline.time)
  }

  ghost predicate SameClock(v: Server) {
    forall c :: c in v.sessions ==> v.sessions[c].now == v.now
  }

  lemma HearKeepsClock(s: Session.State, chunk: string)
    ensures Hear(s, chunk).now == s.now
  {
  }

  lemma StepKeepsSameClock(v: Server, e: Event, wild: Wild)
    requires Enabled(v, e, wild) && SameClock(v)
    ensures SameClock(Step(v, e, wild))
  {
    hide Chat.Step, Session.Step, Told, Broadcast, Hear;
    if e.At? {
      var s := v.sessions[e.id];
      Timer.StepKeepsClock(s, OwnEvent(e.what, Reply(v.room, s, e.id, e.what, wild).calls));
      forall c, chunk | c in v.sessions ensures Hear(v.sessions[c], chunk).now == v.now {
        HearKeepsClock(v.sessions[c], chunk);
      }
    }
  }

  lemma CloseIsWarned(ms: seq<Mark>, m: Mark)
    requires EveryCloseWarned(ms)
    requires m.CloseFired? ==> exists k :: PingedBefore(ms, k, |ms|, m.at)
    ensures EveryCloseWarned(ms + [m])
  {
    var ms' := ms + [m];
    forall j | 0 <= j < |ms'| && ms'[j].CloseFired?
      ensures exists k :: PingedBefore(ms', k, j, ms'[j].at)
    {
      var k :| PingedBefore(ms, k, j, ms'[j].at);
      assert PingedBefore(ms', k, j, ms'[j].at);
    }
  }

  lemma WarnedOneMore(v: Server, e: Event, c: Chat.SessionId, ms: seq<Mark>, wild: Wild)
    requires Enabled(v, e, wild) && SameClock(v) && Warned(v, ms, c) && EveryCloseWarned(ms)
    requires c in v.sessions ==> Staged(v.sessions[c]) && SessionTurns(v, e, c, Step(v, e, wild))
    requires c !in v.sessions && c in Step(v, e, wild).sessions ==>
               Step(v, e, wild).sessions[c].timerCallback == Session.Unset
    ensures Warned(Step(v, e, wild), ms + [MarkOf(v, e, c)], c) && EveryCloseWarned(ms + [MarkOf(v, e, c)])
  {
    hide Step, Enabled;
    var m, v' := MarkOf(v, e, c), Step(v, e, wild);
    var ms' := ms + [m];
    if c in v.sessions && v.sessions[c].timerCallback == Session.Callback(CLOSE_STAGE) {
      var k :| PingedBefore(ms, k, |ms|, v.sessions[c].deadline.time);
      if m.CloseFired? { assert PingedBefore(ms, k, |ms|, m.at); }
      if m != Handled && !m.PingFired? { assert PingedBefore(ms', k, |ms'|, v'.sessions[c].deadline.time); }
    }
    if m.PingFired? { assert PingedBefore(ms', |ms|, |ms'|, v'.sessions[c].deadline.time); }
    CloseIsWarned(ms, m);
  }

  lemma NewIsUnset(v: Server, e: Event, c: Chat.SessionId, wild: Wild)
    requires Enabled(v, e, wild) && c !in v.sessions && c in Step(v, e, wild).sessions
    ensures Step(v, e, wild).sessions[c].timerCallback == Session.Unset
  {
  }

  lemma NothingWarned(t0: Session.Time, c: Chat.SessionId)
    ensures EveryCloseWarned([]) && Warned(Empty(t0), [], c) && SameClock(Empty(t0))
  {
  }

  /** In every run of the server, every watchdog close of a session comes ten seconds or more after a
      watchdog ping of it, and between the two the session handled no message and no pong: a client that
      answers the ping is not closed for it. The sessions and the server have one clock. */
  lemma {:induction false} AnsweringClientIsKept(t0: Session.Time, es: seq<Event>, c: Chat.SessionId, wild: Wild)
    requires IsRun(t0, es, wild)
    ensures |Marks(t0, es, c, wild)| == |es| && EveryCloseWarned(Marks(t0, es, c, wild))
    ensures Warned(After(t0, es, wild), Marks(t0, es, c, wild), c)
    ensures SameClock(After(t0, es, wild))
    decreases |es|
  {
    hide Step, Enabled, MarkOf, EveryCloseWarned, Warned, SessionTurns, SameClock, Staged;
    if es == [] {
      NothingWarned(t0, c);
    } else {
      var v, e := After(t0, Before(es), wild), Last(es);
      AnsweringClientIsKept(t0, Before(es), c, wild);
      StepKeepsSameClock(v, e, wild);
      if c in v.sessions {
        SessionIsStaged(t0, Before(es), c, wild);
        if e.At? && e.id == c { ActorTurns(v, c, e.what, wild); } else { OtherTurns(v, e, c, wild); }
      } else if c in After(t0, es, wild).sessions {
        NewIsUnset(v, e, c, wild);
      }
      WarnedOneMore(v, e, c, Marks(t0, Before(es), c, wild), wild);
    }
  }

  /** The watchdog of every session of the server escalates as a single chat session's does. */
  lemma EverySessionIsWatched(t0: Session.Time, es: seq<Event>, c: Chat.SessionId, wild: Wild)
    requires IsRun(t0, es, wild) && c in After(t0, es, wild).sessions
    ensures var s, t, trace := After(t0, es, wild).sessions[c], Born(t0, es, c, wild), Trace(t0, es, c, wild);
            && Escalates(t, trace)
            && (s.timerCallback.Callback? <==> Traces.Some(trace, HandlesMessageOrPong))
            && (Traces.Some(trace, HandlesMessageOrPong) ==> s.waits >= 1 || HungUp(t, trace))
  {
    hide IsRun, After, Born, Trace, Session.IsRun, Session.After, Escalates, HungUp, Joined;
    SessionsRunAlone(t0, es, c, wild);
    WatchdogEscalation(Born(t0, es, c, wild), Trace(t0, es, c, wild));
  }
}
