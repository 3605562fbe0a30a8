/** The event loops: each feeds a run to an object, one handler at a time, and states what the run
    theorems mean for the object's own fields. */
module Drivers {
  import opened Traces
  import Server = ServerSession
  import ServerDelivery
  import ServerLoss
  import ServerTimer
  import Client = ClientSession
  import ClientReads
  import Https = HttpsSession
  import HttpsFlow
  import Chat = ChatRoom
  import ChatView
  import ChatExact

  method Serve(session: Server.Session, t0: Server.Time, es: seq<Server.Event>)
    requires session.Value() == Server.Initial(t0) && Server.IsRun(t0, es)
    modifies session
    ensures session.Value() == Server.After(t0, es)
    ensures session.readable <==> session.pendingReads == 0 && !Some(es, ServerDelivery.IsFailedRead)
    ensures session.pendingReads <= 1
    ensures session.input == "" && ServerDelivery.Handed(t0, es) == ServerDelivery.MessagesRead(es)
    ensures session.deadline == ServerTimer.DeadlineOf(session.log) && ServerTimer.ActsOnlyWhenIdle(session.log)
    ensures session.waits + ServerTimer.Firings(session.log) + ServerTimer.TimerErrors(es) == ServerTimer.Launches(es)
    ensures ServerDelivery.Orderly(es) && ServerDelivery.AcceptCalls(es) == 1 ==>
              && ServerDelivery.Data(ServerDelivery.Sent(session.log)) == ServerDelivery.Outputs(es)
              && session.pendingAccepts + session.pendingReads + session.pendingWrites
                 == if Some(es, ServerDelivery.IsFailure) then 0 else 1
    ensures ServerLoss.OneWriteAtATime(t0, es) ==>
              var cs := ServerLoss.Completions(t0, es);
              && ServerLoss.AppendedBy(es) == ServerLoss.Discarded(cs) + session.output
              && (ServerLoss.AppendedBy(es) == ServerLoss.Delivered(cs) + session.output
                  <==> !ServerLoss.LosesAnAppend(t0, es))
  {
    hide Server.Step;
    for i := 0 to |es|
      invariant Server.IsRun(t0, es[..i]) && session.Value() == Server.After(t0, es[..i])
    {
      Server.RunPrefix(t0, es, i + 1);
      assert Before(es[..i + 1]) == es[..i];
      session.Handle(es[i]);
    }
    assert es[..|es|] == es;
    ServerDelivery.SingleOutstandingRead(t0, es);
    ServerDelivery.CallbacksSeeTheirMessage(t0, es);
    ServerTimer.IdleTimeoutSound(t0, es);
    ServerTimer.WaitsConserved(t0, es);
    if ServerDelivery.Orderly(es) && ServerDelivery.AcceptCalls(es) == 1 {
      ServerDelivery.ExactlyOnce(t0, es);
    }
    if ServerLoss.OneWriteAtATime(t0, es) {
      ServerLoss.AppendedIsSentKeptOrLost(t0, es);
      ServerLoss.NothingLostExactlyWhen(t0, es);
    }
  }

  method Talk(session: Client.Session, es: seq<Client.Event>)
    requires session.Value() == Client.INITIAL && Client.IsRun(es)
    modifies session
    ensures session.Value() == Client.After(es)
    ensures session.readable <==> session.pendingReads == 0 && !Some(es, ClientReads.IsFailedRead)
    ensures session.pendingReads <= 1
    ensures session.input == "" && ClientReads.Handed(es) == ClientReads.MessagesRead(es)
    ensures ClientReads.HandshakeCalls(es) == 1 && (forall e :: e in es ==> ClientReads.IsOrderly(e)) ==>
              session.pendingHandshakes + session.pendingReads + |session.pendingWrites|
              == if Some(es, ClientReads.IsFailure) then 0 else 1
    ensures (forall e :: e in es ==> ClientReads.AsksForNoRead(e)) ==> forall op :: op in session.log ==> !op.Read?
  {
    hide Client.Step;
    for i := 0 to |es|
      invariant Client.IsRun(es[..i]) && session.Value() == Client.After(es[..i])
    {
      Client.RunPrefix(es, i + 1);
      assert Before(es[..i + 1]) == es[..i];
      session.Handle(es[i]);
    }
    assert es[..|es|] == es;
    ClientReads.SingleOutstandingRead(es);
    ClientReads.CallbacksSeeTheirMessage(es);
    if ClientReads.HandshakeCalls(es) == 1 && forall e :: e in es ==> ClientReads.IsOrderly(e) {
      ClientReads.OneOutstandingUntilFailure(es);
    }
    if forall e :: e in es ==> ClientReads.AsksForNoRead(e) {
      ClientReads.NeverReadsUnasked(es);
    }
  }

  method Answer(session: Https.Session, es: seq<Https.Event>)
    requires session.Value() == Https.INITIAL && Https.IsRun(es)
    modifies session, session.queue
    ensures session.Value() == Https.After(es)
    ensures !session.queue.assertionFailed && session.queue.started <= session.queue.pushed
    ensures session.queue.pendingWrites
            == if session.queue.items == [] || HttpsFlow.Halted(es) then [] else [session.queue.items[0]]
    ensures session.shutdowns == HttpsFlow.Closings(es)
    ensures session.handshake <==> Some(es, HttpsFlow.IsHandshaked)
    ensures HttpsFlow.HandshakeCalls(es) <= 1 && (forall e :: e in es ==> HttpsFlow.IsWellBehaved(e)) ==>
              && |session.queue.items| <= Https.LIMIT
              && session.pendingReads
                 == if session.handshake && |session.queue.items| < Https.LIMIT && !Some(es, HttpsFlow.StopsReading)
                    then 1 else 0
    ensures HttpsFlow.IsPairedRun(es) ==>
              && (forall k :: 0 <= k < |session.queue.started| ==> session.queue.started[k].answers == k)
              && session.requests == session.queue.removed + |session.queue.items|
  {
    hide Https.Step;
    for i := 0 to |es|
      invariant Https.IsRun(es[..i]) && session.Value() == Https.After(es[..i])
    {
      Https.RunPrefix(es, i + 1);
      assert Before(es[..i + 1]) == es[..i];
      session.Handle(es[i]);
    }
    assert es[..|es|] == es;
    HttpsFlow.QueueRefinesPushes(es);
    HttpsFlow.ShutdownsCounted(es);
    HttpsFlow.NothingBeforeHandshake(es);
    if HttpsFlow.HandshakeCalls(es) <= 1 && forall e :: e in es ==> HttpsFlow.IsWellBehaved(e) {
      HttpsFlow.FlowControl(es);
    }
    if HttpsFlow.IsPairedRun(es) {
      HttpsFlow.ResponsesAnswerInOrder(es);
    }
  }

  method Host(room: Chat.ChatRoom, es: seq<Chat.Event>)
    requires room.Value() == Chat.EMPTY_ROOM
    modifies room
    ensures room.Value() == Chat.After(es, room.wild)
    ensures ChatView.IsPoliteRun(es, room.wild) ==>
              forall id :: id in room.clients && id in room.open && id !in ChatView.Left(es) ==>
                && id in room.joinedAt && room.joinedAt[id] <= |room.Value().Chunks(id)|
                && ChatView.SeesLog(room.Value(), id, room.wild)
    ensures ChatExact.JoinsOnceRun(es, room.wild) ==>
              forall id :: id in room.clients && id in room.open && id !in ChatView.Left(es) ==>
                && ChatExact.Registered(room.Value(), id)
                && (ChatView.SeesLog(room.Value(), id, room.wild) <==> id in ChatExact.Informed(es, room.wild))
  {
    hide Chat.Step;
    for i := 0 to |es|
      invariant room.Value() == Chat.After(es[..i], room.wild)
    {
      assert Before(es[..i + 1]) == es[..i];
      var _ := room.Handle(es[i]);
    }
    assert es[..|es|] == es;
    if ChatView.IsPoliteRun(es, room.wild) {
      ChatView.ClientsSeeTheLog(es, room.wild);
    }
    if ChatExact.JoinsOnceRun(es, room.wild) {
      forall id | id in room.clients && id in room.open && id !in ChatView.Left(es)
        ensures ChatExact.Registered(room.Value(), id)
        ensures ChatView.SeesLog(room.Value(), id, room.wild) <==> id in ChatExact.Informed(es, room.wild)
      {
        ChatExact.ClientSeesLogExactlyWhen(es, id, room.wild);
      }
    }
  }
}
