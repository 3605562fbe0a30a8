/** The chat server as a whole: the room's handlers running on its sessions. Each session keeps its own
    stream and timer; a handler's broadcast appends to other sessions' output and starts their writes.

    The module ties the results about the room to those about a single session: what happens to each
    session is a run of that session, its calls are the chat server's, and what is appended to it is
    what the room recorded for it. */
module ChatServer {
  import opened Traces
  import opened Numerals
  import opened ChatMessage
  import opened ChatCodec
  import Objects = ChatObjects
  import Session = ServerSession
  import Chat = ChatRoom
  import Effects = ChatEffects
  import Delivery = ServerDelivery
  import Loss = ServerLoss
  import opened Watchdog

  // ---- what one handler of the room does to the sessions ----

  function Joined(texts: seq<string>): string {
    if texts == [] then "" else Joined(texts[..|texts| - 1]) + texts[|texts| - 1]
  }

  lemma JoinedOneMore(texts: seq<string>, text: string)
    ensures Joined(texts + [text]) == Joined(texts) + text
  {
    assert (texts + [text])[..|texts|] == texts;
  }

  /** The other sessions to whose output a handler appends. */
  function Told(room: Chat.Room, e: Chat.Event, wild: Wild): set<Chat.SessionId> {
    match e
    case Incoming(id, text) =>
      if Chat.NAME_PREFIX <= text then room.Recipients(false, {id})
      else if Succeeds(ParseBatch(text, Success, wild)) then room.Recipients(true, {id})
      else {}
    case CloseFrame(id) => if id in room.open && id in room.clients then room.Recipients(true, {id}) else {}
    case _ => {}
  }

  /** What it appends to them. */
  function Broadcast(room: Chat.Room, e: Chat.Event): string {
    match e
    case Incoming(id, text) =>
      if Chat.NAME_PREFIX <= text then SerializeBatch([Chat.JoinMessage(text[|Chat.NAME_PREFIX|..])]) else text
    case CloseFrame(id) =>
      if id in room.clients then SerializeBatch([Chat.LeaveMessage(room.clients[id])]) else ""
    case _ => ""
  }

  lemma OthersAreTold(room: Chat.Room, e: Chat.Event, wild: Wild, c: Chat.SessionId)
    requires Chat.Step(room, e, wild).1.Makes? && c != e.id
    ensures Chat.Step(room, e, wild).0.Chunks(c)
            == room.Chunks(c) + if c in Told(room, e, wild) then [Broadcast(room, e)] else []
  {
    hide ParseBatch, SerializeBatch, Chat.Room.Join;
    if e.Incoming? && Chat.NAME_PREFIX <= e.text {
      Effects.JoinTellsOthers(room, e.id, e.text[|Chat.NAME_PREFIX|..], c);
    }
  }

  lemma {:induction false} AppendedConcat(a: seq<Session.Call>, b: seq<Session.Call>)
    ensures Delivery.Appended(a + b) == Delivery.Appended(a) + Delivery.Appended(b)
  {
    if b == [] {
      assert a + b == a;
    } else {
      var front := b[..|b| - 1];
      assert (a + b)[..|a + b| - 1] == a + front;
      AppendedConcat(a, front);
    }
  }

  lemma AppendedNothing()
    ensures Delivery.Appended([]) == ""
  {
  }

  lemma AppendedOne(c: Session.Call)
    ensures Delivery.Appended([c]) == Delivery.TextOf(c)
  {
    assert [c][..0] == [];
  }

  lemma AppendedTwo(a: Session.Call, b: Session.Call)
    ensures Delivery.Appended([a, b]) == Delivery.TextOf(a) + Delivery.TextOf(b)
  {
    hide Delivery.Appended;
    assert [a, b] == [a] + [b];
    AppendedConcat([a], [b]);
    AppendedOne(a);
    AppendedOne(b);
  }

  lemma JoinCallsAppend(hello: string, log: string, entry: string, again: bool)
    ensures var more := if again then [Session.Append(entry), Session.DoWrite] else [];
            Delivery.Appended([Session.Append(hello), Session.Append(log)] + more + Chat.REARM)
            == hello + log + if again then entry else ""
  {
    hide Delivery.Appended;
    var a, b, c, d := Session.Append(hello), Session.Append(log), Session.Append(entry), Session.DoWrite;
    var more := if again then [c, d] else [];
    AppendedConcat([a, b] + more, Chat.REARM);
    AppendedConcat([a, b], more);
    AppendedTwo(a, b);
    AppendedTwo(c, d);
    AppendedOne(Chat.REARM[0]);
    AppendedNothing();
    assert hello + log + entry + "" == hello + log + entry && hello + log + "" + "" == hello + log + "";
  }

  lemma JoinAppends(room: Chat.Room, id: Chat.SessionId, name: string)
    requires |room.messages| + 1 < Objects.UINT32_MAX
    ensures var (room', reply) := room.Join(id, name);
            Joined(room'.Chunks(id)) == Joined(room.Chunks(id)) + Delivery.Appended(reply.calls)
  {
    hide SerializeBatch, Delivery.Appended, Chat.Room.Post, Joined;
    var log := SerializeBatch(room.messages + [Chat.JoinMessage(name)]);
    var entry := SerializeBatch([Chat.JoinMessage(name)]);
    var greeting := Chat.HELLO + name + log;
    JoinCallsAppend(Chat.HELLO + name, log, entry, id in room.clients);
    Effects.JoinTellsItself(room, id, name);
    JoinedOneMore(room.Chunks(id), greeting);
    JoinedOneMore(room.Chunks(id) + [greeting], entry);
    assert Joined(room.Chunks(id)) + (greeting + entry) == Joined(room.Chunks(id)) + greeting + entry;
    assert room.Chunks(id) + [greeting] + [] == room.Chunks(id) + [greeting] && greeting + "" == greeting;
  }

  lemma ReceiveAppends(room: Chat.Room, id: Chat.SessionId, text: string, wild: Wild)
    requires room.Receive(id, text, wild).1.Makes?
    ensures var (room', reply) := room.Receive(id, text, wild);
            Joined(room'.Chunks(id)) == Joined(room.Chunks(id)) + Delivery.Appended(reply.calls)
  {
    hide ParseBatch, Delivery.Appended, Joined;
    var (room', reply) := room.Receive(id, text, wild);
    if Succeeds(ParseBatch(text, Success, wild)) {
      assert room'.Chunks(id) == room.Chunks(id) + [text];
      assert reply.calls == [Session.Append(text), Chat.REARM[0]];
      AppendedTwo(Session.Append(text), Chat.REARM[0]);
      JoinedOneMore(room.Chunks(id), text);
      assert text + "" == text;
    } else {
      AppendedTwo(Session.DoRead, Chat.REARM[0]);
      assert room' == room && reply.calls == [Session.DoRead, Chat.REARM[0]];
      assert Joined(room.Chunks(id)) + ("" + "") == Joined(room.Chunks(id));
    }
  }

  lemma JoinFits(room: Chat.Room, id: Chat.SessionId, name: string)
    requires room.Join(id, name).1.Makes?
    ensures |room.messages| + 1 < Objects.UINT32_MAX
  {
  }

  /** What a handler appends to its own session's output is exactly what the room records for it. */
  lemma OwnTextIsAppended(room: Chat.Room, e: Chat.Event, wild: Wild)
    requires Chat.Step(room, e, wild).1.Makes?
    ensures var (room', reply) := Chat.Step(room, e, wild);
            Joined(room'.Chunks(e.id)) == Joined(room.Chunks(e.id)) + Delivery.Appended(reply.calls)
  {
    hide Joined, Delivery.Appended, Chat.Room.Join, Chat.Room.Receive, SerializeBatch;
    AppendedNothing();
    assert Joined(room.Chunks(e.id)) + "" == Joined(room.Chunks(e.id));
    match e
    case Connect(_) =>
    case Disconnect(_) =>
    case Accepted(id) =>
      AppendedOne(Session.Append(Chat.PROMPT));
      JoinedOneMore(room.Chunks(id), Chat.PROMPT);
    case Incoming(id, text) =>
      if Chat.NAME_PREFIX <= text {
        var name := text[|Chat.NAME_PREFIX|..];
        assert |room.messages| + 1 < Objects.UINT32_MAX by { JoinFits(room, id, name); }
        JoinAppends(room, id, name);
      } else {
        ReceiveAppends(room, id, text, wild);
      }
    case CloseFrame(id) =>
      assert Chat.Step(room, e, wild).0.Chunks(id) == room.Chunks(id);
  }

  /** No call appends behind one that writes. */
  predicate NothingBehindAWrite(calls: seq<Session.Call>) {
    forall i, j :: 0 <= i < j < |calls| && calls[i].DoWrite? ==> !calls[j].Append?
  }

  lemma JoinCallsRearm(hello: string, log: string, entry: string, again: bool)
    ensures var more := if again then [Session.Append(entry), Session.DoWrite] else [];
            var calls := [Session.Append(hello), Session.Append(log)] + more + Chat.REARM;
            EndsByRearming(calls) && NothingBehindAWrite(calls)
  {
  }

  lemma OneCallRearms(c: Session.Call)
    requires c.Append? || c.DoRead?
    ensures EndsByRearming([c] + Chat.REARM) && NothingBehindAWrite([c] + Chat.REARM)
  {
    assert ([c] + Chat.REARM)[..1] == [c];
  }

  /** Every message handler that does not throw ends by launching the ping stage of the watchdog. */
  lemma MessageHandlersRearm(room: Chat.Room, id: Chat.SessionId, text: string, wild: Wild)
    requires room.OnMessage(id, text, wild).1.Makes?
    ensures EndsByRearming(room.OnMessage(id, text, wild).1.calls)
    ensures NothingBehindAWrite(room.OnMessage(id, text, wild).1.calls)
  {
    hide ParseBatch, SerializeBatch, Chat.Room.Post, Chat.Room.Recipients, Chat.Room.Greeting;
    hide EndsByRearming, NothingBehindAWrite;
    if Chat.NAME_PREFIX <= text {
      var name := text[|Chat.NAME_PREFIX|..];
      JoinCallsRearm(Chat.HELLO + name, SerializeBatch(room.messages + [Chat.JoinMessage(name)]),
                     SerializeBatch([Chat.JoinMessage(name)]), id in room.clients);
    } else {
      OneCallRearms(Session.DoRead);
      OneCallRearms(Session.Append(text));
    }
  }

  // ---- the server ----

  /** What can happen at one session. The data of a read is what the stream put into its buffer. */
  datatype Happening =
    | AcceptDone(ec: Session.Error)
    | ReadDone(ec: Session.Error, data: string, text: bool)
    | WriteDone(ec: Session.Error)
    | TimerDone(ec: Session.Error)
    | PingFrame | PongFrame | CloseFrame

  /** Events of the server. `Connect` is a new session on which the upgrade request's handler calls
      do_accept, `Disconnect` its socket closing. */
  datatype Event =
    | Connect(id: Chat.SessionId)
    | Disconnect(id: Chat.SessionId)
    | At(id: Chat.SessionId, what: Happening)
    | Elapse(duration: Session.Time)

  datatype Server = Server(
    now: Session.Time,
    room: Chat.Room,
    sessions: map<Chat.SessionId, Session.State>)

  function Empty(t0: Session.Time): Server {
    Server(t0, Chat.EMPTY_ROOM, map[])
  }

  datatype Option<T> = None | Some(value: T)

  /** The room's part in what happens at a session. */
  function RoomEvent(s: Session.State, id: Chat.SessionId, what: Happening): Option<Chat.Event> {
    match what
    case AcceptDone(NoError) => Option.Some(Chat.Accepted(id))
    case ReadDone(NoError, data, _) => Option.Some(Chat.Incoming(id, s.Received(data).input))
    case CloseFrame => Option.Some(Chat.CloseFrame(id))
    case _ => None
  }

  /** What the callback that is run, if any, does to its own session. */
  function Reply(room: Chat.Room, s: Session.State, id: Chat.SessionId, what: Happening, wild: Wild): Chat.Reply {
    match RoomEvent(s, id, what)
    case Some(e) => Chat.Step(room, e, wild).1
    case None =>
      if what.PongFrame? then Chat.Makes(Chat.REARM)
      else if what.TimerDone? && s.TimerActs(what.ec) && s.timerCallback.Callback? then
        Chat.Makes(StageCalls(s.timerCallback.id))
      else Chat.Makes([])
  }

  /** The event at the session itself. */
  function OwnEvent(what: Happening, calls: seq<Session.Call>): Session.Event {
    match what
    case AcceptDone(ec) => Session.AcceptDone(ec, calls)
    case ReadDone(ec, data, text) => Session.ReadDone(ec, data, text, calls)
    case WriteDone(ec) => Session.WriteDone(ec)
    case TimerDone(ec) => Session.TimerDone(ec, calls)
    case _ => Session.ControlFrame(calls)
  }

  /** An event is possible if it is at its session, if no wait ends in an error, and if its handler
      does not throw: an exception leaves the event loop. */
  predicate Enabled(v: Server, e: Event, wild: Wild) {
    match e
    case Connect(id) => id !in v.sessions
    case Disconnect(id) => id in v.sessions
    case At(id, what) =>
      && id in v.sessions
      && var reply := Reply(v.room, v.sessions[id], id, what, wild);
      && reply.Makes?
      && Session.Enabled(v.sessions[id], OwnEvent(what, reply.calls))
      && (what.TimerDone? ==> what.ec == Session.NoError || what.ec == Session.Aborted)
    case Elapse(_) => true
  }

  /** The broadcast to one session. */
  function Hear(s: Session.State, chunk: string): Session.State {
    s.Do(Session.Append(chunk)).Do(Session.DoWrite)
  }

  function StepAt(v: Server, id: Chat.SessionId, what: Happening, wild: Wild): Server
    requires Enabled(v, At(id, what), wild)
  {
    var s := v.sessions[id];
    var s' := Session.Step(s, OwnEvent(what, Reply(v.room, s, id, what, wild).calls));
    match RoomEvent(s, id, what)
    case None => v.(sessions := v.sessions[id := s'])
    case Some(e) =>
      var told := Told(v.room, e, wild);
      var chunk := Broadcast(v.room, e);
      v.(room := Chat.Step(v.room, e, wild).0,
         sessions := map c | c in v.sessions ::
           if c == id then s' else if c in told then Hear(v.sessions[c], chunk) else v.sessions[c])
  }

  function Step(v: Server, e: Event, wild: Wild): Server
    requires Enabled(v, e, wild)
  {
    match e
    case Connect(id) =>
      v.(room := Chat.Step(v.room, Chat.Connect(id), wild).0,
         sessions := v.sessions[id := Session.Initial(v.now).Do(Session.DoAccept)])
    case Disconnect(id) => v.(room := Chat.Step(v.room, Chat.Disconnect(id), wild).0)
    case At(id, what) => StepAt(v, id, what, wild)
    case Elapse(d) =>
      v.(now := v.now + d,
         sessions := map c | c in v.sessions :: v.sessions[c].(now := v.sessions[c].now + d))
  }

  predicate IsRun(t0: Session.Time, es: seq<Event>, wild: Wild)
    decreases |es|, 0
  {
    es == [] || (IsRun(t0, Before(es), wild) && Enabled(After(t0, Before(es), wild), Last(es), wild))
  }

  function After(t0: Session.Time, es: seq<Event>, wild: Wild): Server
    requires IsRun(t0, es, wild)
    decreases |es|, 1
  {
    if es == [] then Empty(t0) else Step(After(t0, Before(es), wild), Last(es), wild)
  }

  // ---- what happens to one session ----

  /** The events of one session in a step of the server. */
  function Seen(v: Server, e: Event, c: Chat.SessionId, wild: Wild): seq<Session.Event>
    requires Enabled(v, e, wild)
  {
    match e
    case Connect(id) => if c == id then [Session.External(Session.DoAccept)] else []
    case Disconnect(_) => []
    case Elapse(d) => if c in v.sessions then [Session.Elapse(d)] else []
    case At(id, what) =>
      var s := v.sessions[id];
      if c == id then [OwnEvent(what, Reply(v.room, s, id, what, wild).calls)]
      else
        match RoomEvent(s, id, what)
        case Some(r) =>
          if c in v.sessions && c in Told(v.room, r, wild) then
            [Session.External(Session.Append(Broadcast(v.room, r))), Session.External(Session.DoWrite)]
          else []
        case None => []
  }

  /** A session's own run within a run of the server. */
  function Trace(t0: Session.Time, es: seq<Event>, c: Chat.SessionId, wild: Wild): seq<Session.Event>
    requires IsRun(t0, es, wild)
  {
    if es == [] then []
    else Trace(t0, Before(es), c, wild) + Seen(After(t0, Before(es), wild), Last(es), c, wild)
  }

  /** When the session was made. */
  function Born(t0: Session.Time, es: seq<Event>, c: Chat.SessionId, wild: Wild): Session.Time
    requires IsRun(t0, es, wild)
  {
    if es == [] then t0
    else if Last(es) == Connect(c) then After(t0, Before(es), wild).now
    else Born(t0, Before(es), c, wild)
  }

  /** A session and its trace: the trace is a run of the session and one of a chat session, it ends in
      the session's state, and what it appended is what the room recorded. */
  ghost predicate Linked(s: Session.State, chunks: seq<string>, t: Session.Time, trace: seq<Session.Event>) {
    && Session.IsRun(t, trace) && Session.After(t, trace) == s
    && IsChatRun(t, trace)
    && Loss.AppendedBy(trace) == Joined(chunks)
  }

  lemma LinkedOneMore(s: Session.State, chunks: seq<string>, chunks': seq<string>, t: Session.Time,
                      trace: seq<Session.Event>, e: Session.Event)
    requires Linked(s, chunks, t, trace) && Session.Enabled(s, e) && IsChatEvent(s, e)
    requires Joined(chunks') == Joined(chunks) + Loss.AppendedIn(e)
    ensures Linked(Session.Step(s, e), chunks', t, trace + [e])
  {
    hide Session.IsRun, Session.After, Session.Step, Session.Enabled, IsChatRun, IsChatEvent, Loss.AppendedBy, Joined;
    ChatOneMoreEvent(t, trace, e);
    Loss.OneMoreCounted(trace, e);
  }

  lemma LinkedHears(s: Session.State, chunks: seq<string>, t: Session.Time, trace: seq<Session.Event>, chunk: string)
    requires Linked(s, chunks, t, trace)
    ensures Linked(Hear(s, chunk), chunks + [chunk], t,
                   trace + [Session.External(Session.Append(chunk)), Session.External(Session.DoWrite)])
  {
    hide Linked, Joined, Session.State.Do;
    var a, w := Session.External(Session.Append(chunk)), Session.External(Session.DoWrite);
    var chunks' := chunks + [chunk];
    JoinedOneMore(chunks, chunk);
    LinkedOneMore(s, chunks, chunks', t, trace, a);
    assert Joined(chunks') + "" == Joined(chunks');
    LinkedOneMore(s.Do(Session.Append(chunk)), chunks', chunks', t, trace + [a], w);
    assert trace + [a, w] == trace + [a] + [w];
  }

  /** The session's own event is one a chat session can see. */
  lemma OwnEventIsChat(room: Chat.Room, s: Session.State, id: Chat.SessionId, what: Happening,
                       calls: seq<Session.Call>, wild: Wild)
    requires Reply(room, s, id, what, wild) == Chat.Makes(calls) && Session.Enabled(s, OwnEvent(what, calls))
    requires what.TimerDone? ==> what.ec == Session.NoError || what.ec == Session.Aborted
    ensures IsChatEvent(s, OwnEvent(what, calls))
  {
    hide ParseBatch, SerializeBatch, Chat.Room.OnMessage;
    if what.ReadDone? && what.ec == Session.NoError {
      MessageHandlersRearm(room, id, s.Received(what.data).input, wild);
    }
  }

  /** The room as one of the session's own events leaves it. */
  function RoomAfter(room: Chat.Room, s: Session.State, id: Chat.SessionId, what: Happening, wild: Wild): Chat.Room {
    match RoomEvent(s, id, what)
    case Some(e) => Chat.Step(room, e, wild).0
    case None => room
  }

  lemma OwnEventAppends(room: Chat.Room, s: Session.State, id: Chat.SessionId, what: Happening, wild: Wild)
    requires Reply(room, s, id, what, wild).Makes?
    ensures Joined(RoomAfter(room, s, id, what, wild).Chunks(id))
            == Joined(room.Chunks(id)) + Loss.AppendedIn(OwnEvent(what, Reply(room, s, id, what, wild).calls))
  {
    hide Chat.Step, Joined, Delivery.Appended;
    match RoomEvent(s, id, what) {
      case Some(e) => OwnTextIsAppended(room, e, wild);
      case None =>
        AppendedOne(Chat.REARM[0]);
        AppendedNothing();
        AppendedTwo(Session.DoPing, Session.LaunchTimerWith(CLOSE_STAGE));
        AppendedOne(Session.DoClose);
        assert Joined(room.Chunks(id)) + "" == Joined(room.Chunks(id));
    }
  }

  /** Sessions that do not exist have no trace, no chunks and no entry in the table. */
  ghost predicate Unknown(v: Server, c: Chat.SessionId, trace: seq<Session.Event>) {
    trace == [] && v.room.Chunks(c) == [] && c !in v.room.clients
  }

  ghost predicate InStep(v: Server, t: Session.Time, trace: seq<Session.Event>, c: Chat.SessionId) {
    if c in v.sessions then Linked(v.sessions[c], v.room.Chunks(c), t, trace) else Unknown(v, c, trace)
  }

  lemma ElapsedInStep(v: Server, d: Session.Time, t: Session.Time, trace: seq<Session.Event>, c: Chat.SessionId,
                      wild: Wild)
    requires InStep(v, t, trace, c)
    ensures InStep(Step(v, Elapse(d), wild), t, trace + Seen(v, Elapse(d), c, wild), c)
  {
    hide Linked, Joined;
    assert trace + [] == trace;
    if c in v.sessions {
      assert Joined(v.room.Chunks(c)) + "" == Joined(v.room.Chunks(c));
      LinkedOneMore(v.sessions[c], v.room.Chunks(c), v.room.Chunks(c), t, trace, Session.Elapse(d));
    }
  }

  lemma NewIsLinked(t: Session.Time)
    ensures Linked(Session.Initial(t), [], t, [])
  {
  }

  lemma ConnectedInStep(v: Server, id: Chat.SessionId, trace: seq<Session.Event>, wild: Wild)
    requires id !in v.sessions && InStep(v, v.now, trace, id)
    ensures InStep(Step(v, Connect(id), wild), v.now, trace + Seen(v, Connect(id), id, wild), id)
  {
    hide Linked, Joined;
    assert Linked(Session.Initial(v.now), [], v.now, []) by { NewIsLinked(v.now); }
    assert Joined([]) + "" == Joined([]);
    LinkedOneMore(Session.Initial(v.now), [], [], v.now, [], Session.External(Session.DoAccept));
  }

  lemma ActorInStep(v: Server, id: Chat.SessionId, what: Happening, t: Session.Time, trace: seq<Session.Event>,
                    wild: Wild)
    requires Enabled(v, At(id, what), wild) && InStep(v, t, trace, id)
    ensures InStep(Step(v, At(id, what), wild), t, trace + Seen(v, At(id, what), id, wild), id)
  {
    hide Linked, Joined, Session.Step, Chat.Step, Told, Broadcast;
    var s := v.sessions[id];
    OwnEventIsChat(v.room, s, id, what, Reply(v.room, s, id, what, wild).calls, wild);
    OwnEventAppends(v.room, s, id, what, wild);
    LinkedOneMore(s, v.room.Chunks(id), RoomAfter(v.room, s, id, what, wild).Chunks(id), t, trace,
                  OwnEvent(what, Reply(v.room, s, id, what, wild).calls));
  }

  /** Who joins is the session at which it happens. */
  lemma OnlyActorJoins(room: Chat.Room, e: Chat.Event, wild: Wild)
    ensures Chat.Step(room, e, wild).0.clients.Keys <= room.clients.Keys + {e.id}
    ensures Told(room, e, wild) <= room.clients.Keys
  {
    hide ParseBatch, SerializeBatch;
  }

  lemma OtherInStep(v: Server, id: Chat.SessionId, what: Happening, t: Session.Time, trace: seq<Session.Event>,
                    c: Chat.SessionId, wild: Wild)
    requires Enabled(v, At(id, what), wild) && InStep(v, t, trace, c) && c != id
    ensures InStep(Step(v, At(id, what), wild), t, trace + Seen(v, At(id, what), c, wild), c)
  {
    hide Linked, Session.Step, Chat.Step, Told, Broadcast, Hear;
    assert trace + [] == trace;
    match RoomEvent(v.sessions[id], id, what)
    case None =>
    case Some(e) =>
      OthersAreTold(v.room, e, wild, c);
      OnlyActorJoins(v.room, e, wild);
      if c in v.sessions && c in Told(v.room, e, wild) {
        LinkedHears(v.sessions[c], v.room.Chunks(c), t, trace, Broadcast(v.room, e));
      } else {
        assert v.room.Chunks(c) + [] == v.room.Chunks(c);
      }
  }

  lemma EmptyInStep(t0: Session.Time, c: Chat.SessionId)
    ensures InStep(Empty(t0), t0, [], c)
  {
  }

  lemma UnknownAnyTime(v: Server, t: Session.Time, t': Session.Time, trace: seq<Session.Event>, c: Chat.SessionId)
    requires InStep(v, t, trace, c) && c !in v.sessions
    ensures InStep(v, t', trace, c)
  {
  }

  lemma SocketInStep(v: Server, e: Event, t: Session.Time, trace: seq<Session.Event>, c: Chat.SessionId, wild: Wild)
    requires Enabled(v, e, wild) && InStep(v, t, trace, c) && (e.Disconnect? || (e.Connect? && e.id != c))
    ensures InStep(Step(v, e, wild), t, trace + Seen(v, e, c, wild), c)
  {
    assert trace + [] == trace;
  }

  /** The composition, in every run of the server: what happens at each session is a run of that
      session and a run of a chat session, it ends in the state the server holds for it, and what was
      appended to its output, by its own handlers or by broadcasts, is the chunks the room recorded. */
  lemma {:induction false} SessionsRunAlone(t0: Session.Time, es: seq<Event>, c: Chat.SessionId, wild: Wild)
    requires IsRun(t0, es, wild)
    ensures InStep(After(t0, es, wild), Born(t0, es, c, wild), Trace(t0, es, c, wild), c)
    decreases |es|
  {
    hide InStep, Step, Seen;
    if es == [] {
      assert InStep(Empty(t0), t0, [], c) by { EmptyInStep(t0, c); }
    } else {
      SessionsRunAlone(t0, Before(es), c, wild);
      var v, trace, t := After(t0, Before(es), wild), Trace(t0, Before(es), c, wild), Born(t0, Before(es), c, wild);
      match Last(es)
      case Connect(id) =>
        if id == c { UnknownAnyTime(v, t, v.now, trace, c); ConnectedInStep(v, c, trace, wild); }
        else { SocketInStep(v, Last(es), t, trace, c, wild); }
      case Disconnect(_) => SocketInStep(v, Last(es), t, trace, c, wild);
      case Elapse(d) => ElapsedInStep(v, d, t, trace, c, wild);
      case At(id, what) =>
        if id == c { ActorInStep(v, id, what, t, trace, wild); } else { OtherInStep(v, id, what, t, trace, c, wild); }
    }
  }

  // ---- the room's part ----

  function RoomEventsOf(v: Server, e: Event): seq<Chat.Event> {
    match e
    case Connect(id) => [Chat.Connect(id)]
    case Disconnect(id) => [Chat.Disconnect(id)]
    case Elapse(_) => []
    case At(id, what) =>
      if id in v.sessions then
        match RoomEvent(v.sessions[id], id, what)
        case Some(r) => [r]
        case None => []
      else []
  }

  /** The room's own events within a run of the server. */
  function RoomEvents(t0: Session.Time, es: seq<Event>, wild: Wild): seq<Chat.Event>
    requires IsRun(t0, es, wild)
  {
    if es == [] then []
    else RoomEvents(t0, Before(es), wild) + RoomEventsOf(After(t0, Before(es), wild), Last(es))
  }

  /** The server's room goes through a run of the room alone. */
  lemma {:induction false} RoomRunsAlone(t0: Session.Time, es: seq<Event>, wild: Wild)
    requires IsRun(t0, es, wild)
    ensures After(t0, es, wild).room == Chat.After(RoomEvents(t0, es, wild), wild)
    decreases |es|
  {
    hide Chat.Step;
    if es != [] {
      RoomRunsAlone(t0, Before(es), wild);
      var before, more := RoomEvents(t0, Before(es), wild), RoomEventsOf(After(t0, Before(es), wild), Last(es));
      if more != [] {
        assert Before(before + more) == before;
      } else {
        assert before + more == before;
      }
    }
  }

  lemma OneMoreHappening(t0: Session.Time, es: seq<Event>, e: Event, wild: Wild)
    requires IsRun(t0, es + [e], wild)
    ensures IsRun(t0, es, wild) && Enabled(After(t0, es, wild), e, wild)
    ensures After(t0, es + [e], wild) == Step(After(t0, es, wild), e, wild)
  {
    assert Before(es + [e]) == es;
  }

  lemma InputIsEmpty(t0: Session.Time, es: seq<Event>, c: Chat.SessionId, wild: Wild)
    requires IsRun(t0, es, wild) && c in After(t0, es, wild).sessions
    ensures After(t0, es, wild).sessions[c].input == ""
  {
    hide IsRun, After, Session.IsRun, Session.After, Born, Trace, Joined;
    SessionsRunAlone(t0, es, c, wild);
    Delivery.CallbacksSeeTheirMessage(Born(t0, es, c, wild), Trace(t0, es, c, wild));
  }

  /** In every run, an accept reaches the room as an accepted session, a read as exactly the message
      read, and a close frame as a leave; nothing else that happens at a session changes the room. */
  lemma RoomFollows(t0: Session.Time, es: seq<Event>, c: Chat.SessionId, what: Happening, wild: Wild)
    requires IsRun(t0, es + [At(c, what)], wild)
    ensures IsRun(t0, es, wild)
    ensures var room, room' := After(t0, es, wild).room, After(t0, es + [At(c, what)], wild).room;
            if what == AcceptDone(Session.NoError) then room' == Chat.Step(room, Chat.Accepted(c), wild).0
            else if what.ReadDone? && what.ec == Session.NoError then
              room' == Chat.Step(room, Chat.Incoming(c, what.data), wild).0
            else if what.CloseFrame? then room' == Chat.Step(room, Chat.CloseFrame(c), wild).0
            else room' == room
  {
    hide IsRun, After, Chat.Step, Session.Step, Told, Broadcast;
    OneMoreHappening(t0, es, At(c, what), wild);
    InputIsEmpty(t0, es, c, wild);
    if what.ReadDone? { assert "" + what.data == what.data; }
  }

  lemma Prompted(s: Session.State)
    requires s.pendingAccepts == 1 && s.output == ""
    ensures var calls := [Session.Append("What is your name?")];
            var s' := Session.Step(s, Session.AcceptDone(Session.NoError, calls));
            && s'.pendingWrites == s.pendingWrites + 1 && s'.pendingReads == s.pendingReads
            && s'.log == s.log
                         + [Session.Entry(Session.Op.Write(Session.Frame("What is your name?", s.textMode)), s.now)]
  {
    var calls := [Session.Append("What is your name?")];
    var s1 := s.(pendingAccepts := 0, accepted := true);
    assert calls[..0] == [];
    assert s1.Run(calls) == s1.Run([]).Do(calls[0]) == s1.(output := "What is your name?");
  }

  /** The first contact: a new session starts an accept, and once accepted asks for the client's name. */
  lemma FirstContact(t0: Session.Time, wild: Wild)
    ensures var es := [Connect(1), At(1, AcceptDone(Session.NoError))];
            && IsRun(t0, es, wild)
            && var v := After(t0, es, wild);
            && 1 in v.sessions && v.room.open == {1} && v.room.Chunks(1) == ["What is your name?"]
            && v.sessions[1].log
               == [Session.Entry(Session.Accept, t0),
                   Session.Entry(Session.Op.Write(Session.Frame("What is your name?", true)), t0)]
            && v.sessions[1].pendingWrites == 1 && v.sessions[1].pendingReads == 0
  {
    var es1 := [] + [Connect(1)];
    var what := AcceptDone(Session.NoError);
    assert [Connect(1), At(1, what)] == es1 + [At(1, what)];
    assert Before(es1) == [] && Before(es1 + [At(1, what)]) == es1;
    var v1 := After(t0, es1, wild);
    assert v1.sessions[1] == Session.Initial(t0).Do(Session.DoAccept);
    Prompted(v1.sessions[1]);
    Effects.PromptExactly(v1.room, 1, wild);
  }
}
