/** From the chunks the chat room records for a session to the bytes its writes deliver. */
module ChatDelivery {
  import opened Traces
  import opened Numerals
  import opened ChatMessage
  import Session = ServerSession
  import Chat = ChatRoom
  import Delivery = ServerDelivery
  import Loss = ServerLoss
  import opened Watchdog
  import opened ChatServer

  lemma {:induction false} AllBehind(accepted: bool, calls: seq<Session.Call>)
    ensures Loss.BehindIn(true, accepted, calls) == Delivery.Appended(calls)
  {
    if calls != [] { AllBehind(accepted, calls[..|calls| - 1]); }
  }

  lemma {:induction false} NoneBehind(accepted: bool, calls: seq<Session.Call>)
    requires NothingBehindAWrite(calls)
    ensures Loss.BehindIn(false, accepted, calls) == ""
  {
    if calls != [] {
      var n := |calls| - 1;
      NoneBehind(accepted, calls[..n]);
      if Session.DoWrite in calls[..n] {
        var i :| 0 <= i < n && calls[..n][i] == Session.DoWrite;
        assert calls[i].DoWrite? && !calls[n].Append?;
      }
    }
  }

  lemma DoOutput(s: Session.State, c: Session.Call)
    ensures s.Do(c).output == s.output + Delivery.TextOf(c)
  {
  }

  lemma {:induction false} RunOutput(s: Session.State, calls: seq<Session.Call>)
    ensures s.Run(calls).output == s.output + Delivery.Appended(calls)
    decreases |calls|
  {
    hide Session.State.Do;
    assert s.output + "" == s.output;
    if calls != [] {
      var front, last := calls[..|calls| - 1], calls[|calls| - 1];
      RunOutput(s, front);
      DoOutput(s.Run(front), last);
    }
  }

  /** A handler that appends while a write is pending starts a second one. */
  lemma HandlerOverlaps(s: Session.State, callback: seq<Session.Call>, text: bool)
    requires s.accepted && s.pendingWrites > 0 && Delivery.Appended(callback) != ""
    ensures var s1 := s.Run(callback);
            var s2 := s1.(input := "");
            && s1.Continue().pendingWrites > 1
            && (if s2.autoFrame then s2.(textMode := text) else s2).Continue().pendingWrites > 1
  {
    hide Session.State.Run;
    RunOutput(s, callback);
    Loss.RunPending(s, callback);
  }

  lemma ReplyWritesLast(room: Chat.Room, s: Session.State, id: Chat.SessionId, what: Happening, wild: Wild)
    requires Reply(room, s, id, what, wild).Makes?
    ensures NothingBehindAWrite(Reply(room, s, id, what, wild).calls)
  {
    hide ParseBatch, SerializeBatch, Chat.Room.OnMessage;
    if what.ReadDone? && what.ec == Session.NoError {
      MessageHandlersRearm(room, id, s.Received(what.data).input, wild);
    }
  }

  lemma OnlyHandlersAppend(room: Chat.Room, s: Session.State, id: Chat.SessionId, what: Happening, wild: Wild)
    requires Reply(room, s, id, what, wild).Makes?
    ensures var calls := Reply(room, s, id, what, wild).calls;
            Delivery.Appended(calls) != "" ==> what.AcceptDone? || what.ReadDone?
  {
    hide ParseBatch, SerializeBatch, Chat.Room.OnMessage, Delivery.Appended;
    AppendedOne(Chat.REARM[0]);
    AppendedNothing();
    AppendedTwo(Session.DoPing, Session.LaunchTimerWith(CLOSE_STAGE));
    AppendedOne(Session.DoClose);
  }

  /** What a session's own handler appends does not stand behind a write, unless two overlap. */
  lemma OwnEventNotBehind(room: Chat.Room, s: Session.State, id: Chat.SessionId, what: Happening, wild: Wild)
    requires var reply := Reply(room, s, id, what, wild);
             && reply.Makes? && Session.Enabled(s, OwnEvent(what, reply.calls))
             && Session.Step(s, OwnEvent(what, reply.calls)).pendingWrites <= 1
    requires s.pendingWrites > 0 ==> s.accepted
    ensures Loss.BehindOf(s, OwnEvent(what, Reply(room, s, id, what, wild).calls)) == ""
  {
    hide Chat.Step, Session.State.Run, Session.State.Continue, Delivery.Appended, Loss.BehindIn, Session.State.OnTimer;
    var calls := Reply(room, s, id, what, wild).calls;
    var e := OwnEvent(what, calls);
    if s.pendingWrites == 0 {
      assert NothingBehindAWrite(calls) by { ReplyWritesLast(room, s, id, what, wild); }
      NoneBehind(true, calls);
      NoneBehind(s.accepted, calls);
    } else {
      AllBehind(true, calls);
      if Delivery.Appended(calls) != "" {
        assert e.AcceptDone? || e.ReadDone? by { OnlyHandlersAppend(room, s, id, what, wild); }
        if e.AcceptDone? && e.ec == Session.NoError {
          HandlerOverlaps(s.(pendingAccepts := s.pendingAccepts - 1, accepted := true), calls, true);
        } else if e.ReadDone? && e.ec == Session.NoError {
          HandlerOverlaps(s.(pendingReads := s.pendingReads - 1, readable := true, input := s.input + e.data), calls,
                          e.text);
        } else {
          AppendedNothing();
        }
      }
    }
  }

  /** Nothing in a trace was appended behind a write. */
  ghost predicate NeverBehind(t: Session.Time, trace: seq<Session.Event>) {
    forall i: nat :: !Loss.AppendsBehind(t, trace, i)
  }

  lemma NeverBehindOneMore(t: Session.Time, trace: seq<Session.Event>, e: Session.Event)
    requires Session.IsRun(t, trace) && NeverBehind(t, trace)
    requires Session.IsRun(t, trace + [e]) && Loss.BehindOf(Session.After(t, trace), e) == ""
    ensures NeverBehind(t, trace + [e])
  {
    hide Loss.AppendsBehind, Loss.BehindOf, Session.IsRun, Session.After, Loss.NoWriteDone;
    assert Before(trace + [e]) == trace;
    Loss.AppendsBehindOneMore(t, trace + [e]);
  }

  lemma OneWriteBefore(t: Session.Time, trace: seq<Session.Event>, e: Session.Event)
    requires Session.IsRun(t, trace + [e]) && Loss.OneWriteAtATime(t, trace + [e])
    ensures Session.IsRun(t, trace) && Loss.OneWriteAtATime(t, trace)
    ensures Session.Enabled(Session.After(t, trace), e) && Session.Step(Session.After(t, trace), e).pendingWrites <= 1
  {
    hide Session.Step, Session.Enabled;
    assert Before(trace + [e]) == trace;
  }

  /** A broadcast meets no pending write, unless two overlap. */
  lemma HearsNotBehind(t: Session.Time, trace: seq<Session.Event>, chunk: string)
    requires var a, w := Session.External(Session.Append(chunk)), Session.External(Session.DoWrite);
             && Session.IsRun(t, trace + [a] + [w]) && Loss.OneWriteAtATime(t, trace + [a] + [w])
             && Session.IsRun(t, trace) && NeverBehind(t, trace)
    ensures NeverBehind(t, trace + [Session.External(Session.Append(chunk))] + [Session.External(Session.DoWrite)])
  {
    hide NeverBehind, Session.IsRun, Session.After, Loss.OneWriteAtATime;
    var a, w := Session.External(Session.Append(chunk)), Session.External(Session.DoWrite);
    OneWriteBefore(t, trace + [a], w);
    OneWriteBefore(t, trace, a);
    var s := Session.After(t, trace);
    Session.OneMoreEvent(t, trace, a);
    if s.pendingWrites > 0 { Loss.PendingNeedsAccept(t, trace); }
    NeverBehindOneMore(t, trace, a);
    NeverBehindOneMore(t, trace + [a], w);
  }

  /** A session's part in a step is nothing, one event or a broadcast. */
  lemma SeenShape(v: Server, e: Event, c: Chat.SessionId, wild: Wild)
    requires Enabled(v, e, wild)
    ensures var seen := Seen(v, e, c, wild);
            || |seen| <= 1
            || (exists chunk :: seen == [Session.External(Session.Append(chunk)), Session.External(Session.DoWrite)])
  {
    hide Told, Broadcast, Chat.Step;
    if e.At? && c != e.id {
      match RoomEvent(v.sessions[e.id], e.id, e.what)
      case None =>
      case Some(r) =>
        var chunk := Broadcast(v.room, r);
        assert Seen(v, e, c, wild) != [] ==>
            Seen(v, e, c, wild) == [Session.External(Session.Append(chunk)), Session.External(Session.DoWrite)];
    }
  }

  lemma OneWriteBeforeStep(v: Server, e: Event, c: Chat.SessionId, t: Session.Time, trace: seq<Session.Event>,
                           wild: Wild)
    requires Enabled(v, e, wild)
    requires var trace' := trace + Seen(v, e, c, wild); Session.IsRun(t, trace') && Loss.OneWriteAtATime(t, trace')
    ensures Session.IsRun(t, trace) && Loss.OneWriteAtATime(t, trace)
  {
    hide Seen, Enabled, Session.IsRun, Session.After, Loss.OneWriteAtATime, Session.Step, Session.Enabled;
    SeenShape(v, e, c, wild);
    var seen := Seen(v, e, c, wild);
    if seen == [] {
      assert trace + seen == trace;
    } else if |seen| == 1 {
      assert seen == [seen[0]];
      OneWriteBefore(t, trace, seen[0]);
    } else {
      assert trace + seen == trace + [seen[0]] + [seen[1]];
      OneWriteBefore(t, trace + [seen[0]], seen[1]);
      OneWriteBefore(t, trace, seen[0]);
    }
  }

  lemma ElapseNotBehind(s: Session.State, e: Session.Event)
    ensures e.Elapse? || e == Session.External(Session.DoAccept) ==> Loss.BehindOf(s, e) == ""
  {
  }

  lemma OneSeenNotBehind(v: Server, e: Event, c: Chat.SessionId, t: Session.Time, trace: seq<Session.Event>,
                         wild: Wild)
    requires Enabled(v, e, wild) && c in v.sessions && InStep(v, t, trace, c) && NeverBehind(t, trace)
    requires |Seen(v, e, c, wild)| == 1
    requires var trace' := trace + Seen(v, e, c, wild); Session.IsRun(t, trace') && Loss.OneWriteAtATime(t, trace')
    ensures NeverBehind(t, trace + Seen(v, e, c, wild))
  {
    hide NeverBehind, Session.IsRun, Session.After, Loss.OneWriteAtATime, Session.Step, Session.Enabled, IsChatRun;
    hide Told, Broadcast, Chat.Step, Joined, Loss.AppendedBy, Loss.BehindOf;
    var seen := Seen(v, e, c, wild);
    assert seen == [seen[0]];
    OneWriteBefore(t, trace, seen[0]);
    if v.sessions[c].pendingWrites > 0 { Loss.PendingNeedsAccept(t, trace); }
    if e.At? {
      OwnEventNotBehind(v.room, v.sessions[c], c, e.what, wild);
    } else {
      ElapseNotBehind(v.sessions[c], seen[0]);
    }
    NeverBehindOneMore(t, trace, seen[0]);
  }

  lemma SeenNotBehind(v: Server, e: Event, c: Chat.SessionId, t: Session.Time, trace: seq<Session.Event>, wild: Wild)
    requires Enabled(v, e, wild) && c in v.sessions && InStep(v, t, trace, c) && NeverBehind(t, trace)
    requires var trace' := trace + Seen(v, e, c, wild); Session.IsRun(t, trace') && Loss.OneWriteAtATime(t, trace')
    ensures NeverBehind(t, trace + Seen(v, e, c, wild))
  {
    hide NeverBehind, Seen, Enabled, InStep, Session.IsRun, Loss.OneWriteAtATime;
    SeenShape(v, e, c, wild);
    OneWriteBeforeStep(v, e, c, t, trace, wild);
    var seen := Seen(v, e, c, wild);
    if seen == [] {
      assert trace + seen == trace;
    } else if |seen| == 1 {
      OneSeenNotBehind(v, e, c, t, trace, wild);
    } else {
      var chunk :| seen == [Session.External(Session.Append(chunk)), Session.External(Session.DoWrite)];
      assert trace + seen == trace + [seen[0]] + [seen[1]];
      HearsNotBehind(t, trace, chunk);
    }
  }

  lemma NewNotBehind(t: Session.Time)
    requires Session.IsRun(t, [Session.External(Session.DoAccept)])
    ensures NeverBehind(t, [Session.External(Session.DoAccept)])
  {
    assert [Session.External(Session.DoAccept)][..0] == [];
  }

  lemma WhoIsThere(v: Server, e: Event, c: Chat.SessionId, wild: Wild)
    requires Enabled(v, e, wild) && c in Step(v, e, wild).sessions
    ensures c in v.sessions || e == Connect(c)
  {
  }

  lemma JustConnected(v: Server, c: Chat.SessionId, t: Session.Time, trace: seq<Session.Event>, wild: Wild)
    requires Enabled(v, Connect(c), wild) && InStep(v, t, trace, c)
    ensures trace == [] && Seen(v, Connect(c), c, wild) == [Session.External(Session.DoAccept)]
  {
  }

  lemma {:induction false} NothingAppendedBehind(t0: Session.Time, es: seq<Event>, c: Chat.SessionId, wild: Wild)
    requires IsRun(t0, es, wild) && c in After(t0, es, wild).sessions
    requires var t, trace := Born(t0, es, c, wild), Trace(t0, es, c, wild);
             Session.IsRun(t, trace) && Loss.OneWriteAtATime(t, trace)
    ensures NeverBehind(Born(t0, es, c, wild), Trace(t0, es, c, wild))
    decreases |es|
  {
    hide NeverBehind, Session.IsRun, Loss.OneWriteAtATime, Seen, Step, InStep;
    if es != [] {
      var v, trace := After(t0, Before(es), wild), Trace(t0, Before(es), c, wild);
      SessionsRunAlone(t0, Before(es), c, wild);
      assert c in v.sessions || Last(es) == Connect(c) by { WhoIsThere(v, Last(es), c, wild); }
      if Last(es) == Connect(c) {
        assert trace == [] && Seen(v, Last(es), c, wild) == [Session.External(Session.DoAccept)] by {
          JustConnected(v, c, Born(t0, Before(es), c, wild), trace, wild);
        }
        assert Trace(t0, es, c, wild) == [Session.External(Session.DoAccept)];
        NewNotBehind(v.now);
      } else {
        var t := Born(t0, Before(es), c, wild);
        OneWriteBeforeStep(v, Last(es), c, t, trace, wild);
        NothingAppendedBehind(t0, Before(es), c, wild);
        SeenNotBehind(v, Last(es), c, t, trace, wild);
      }
    }
  }

  lemma HearStarts(s: Session.State, chunk: string)
    ensures var s1 := Session.Step(s, Session.External(Session.Append(chunk)));
            && s1.pendingWrites == s.pendingWrites
            && Session.Step(s1, Session.External(Session.DoWrite)) == Hear(s, chunk)
            && Hear(s, chunk).pendingWrites == s.pendingWrites + if s.accepted then 1 else 0
  {
  }

  /** A broadcast keeps one write at a time on a session if and only if it finds none pending there. */
  lemma BroadcastOverlapsExactlyWhen(t: Session.Time, trace: seq<Session.Event>, chunk: string)
    requires Session.IsRun(t, trace) && Loss.OneWriteAtATime(t, trace)
    ensures var trace' := trace + [Session.External(Session.Append(chunk))] + [Session.External(Session.DoWrite)];
            && Session.IsRun(t, trace') && Session.After(t, trace') == Hear(Session.After(t, trace), chunk)
            && (Loss.OneWriteAtATime(t, trace') <==> Session.After(t, trace).pendingWrites == 0)
  {
    hide Session.IsRun, Session.After, Session.Step, Hear;
    HearStarts(Session.After(t, trace), chunk);
    var a, w := Session.External(Session.Append(chunk)), Session.External(Session.DoWrite);
    Session.OneMoreEvent(t, trace, a);
    Session.OneMoreEvent(t, trace + [a], w);
    assert Before(trace + [a]) == trace && Before(trace + [a] + [w]) == trace + [a];
    if Session.After(t, trace).pendingWrites > 0 { Loss.PendingNeedsAccept(t, trace); }
  }

  lemma NeverBehindLosesNothing(t: Session.Time, trace: seq<Session.Event>)
    requires NeverBehind(t, trace)
    ensures !Loss.LosesAnAppend(t, trace)
  {
  }

  /** End to end: as long as no write is started on a session while another one is pending, nothing the
      room sends it is lost -- its chunks are what its successful writes delivered, followed by what its
      output buffer holds. */
  lemma ChunksAreDelivered(t0: Session.Time, es: seq<Event>, c: Chat.SessionId, wild: Wild)
    requires IsRun(t0, es, wild) && c in After(t0, es, wild).sessions
    ensures var v, t, trace := After(t0, es, wild), Born(t0, es, c, wild), Trace(t0, es, c, wild);
            && Session.IsRun(t, trace)
            && (Loss.OneWriteAtATime(t, trace) ==>
                  Joined(v.room.Chunks(c)) == Loss.Delivered(Loss.Completions(t, trace)) + v.sessions[c].output)
  {
    hide IsRun, After, Born, Trace, Session.IsRun, Session.After, Loss.OneWriteAtATime, Joined, NeverBehind;
    var t, trace := Born(t0, es, c, wild), Trace(t0, es, c, wild);
    SessionsRunAlone(t0, es, c, wild);
    if Loss.OneWriteAtATime(t, trace) {
      NothingAppendedBehind(t0, es, c, wild);
      Loss.NothingLostExactlyWhen(t, trace);
      assert !Loss.LosesAnAppend(t, trace) by { NeverBehindLosesNothing(t, trace); }
    }
  }
}
