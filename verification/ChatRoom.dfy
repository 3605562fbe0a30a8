/** The chat server's handlers over its client table and message log.

    A chunk is what one handler appends to a session's output buffer. `Room` is what the server
    holds between handlers, and `ChatRoom` the same in place. The mutex the handlers hold makes
    each of them one step. */
module ChatRoom {
  import opened Traces
  import opened Numerals
  import opened ChatMessage
  import opened ChatCodec
  import Objects = ChatObjects
  import Session = ServerSession
  import Watchdog

  type SessionId = nat

  const PROMPT := "What is your name?"
  const NAME_PREFIX := "My name is "
  const HELLO := "Hello "

  /** The log entries the server writes itself; the payload comes first. */
  function JoinMessage(name: string): Message { Message(name, "Input to chat room!") }

  function LeaveMessage(name: string): Message { Message("is leaving", name) }

  /** What a handler does to its own session, or that it throws. */
  datatype Reply = Makes(calls: seq<Session.Call>) | Throws

  const REARM: seq<Session.Call> := [Session.LaunchTimerWith(Watchdog.PING_STAGE)]

  datatype Room = Room(
    clients: map<SessionId, string>,          // who joined, and under which name
    messages: seq<Message>,                   // the log
    open: set<SessionId>,                     // sessions whose socket is open
    outbox: map<SessionId, seq<string>>,      // every chunk appended to a session's output
    joinedAt: map<SessionId, nat>)            // where in its outbox a client's greeting stands
  {
    function Chunks(id: SessionId): seq<string> {
      if id in outbox then outbox[id] else []
    }

    /** Appends a chunk to the output of each of the given sessions. */
    function Post(to: set<SessionId>, chunk: string): Room {
      this.(outbox := map id | id in outbox.Keys + to ::
                        if id in to then Chunks(id) + [chunk] else Chunks(id))
    }

    /** The clients outside `except`, or only those of them whose socket is open. */
    function Recipients(openOnly: bool, except: set<SessionId>): set<SessionId> {
      set c | c in clients && c !in except && (openOnly ==> c in open)
    }

    function Greeting(name: string, log: seq<Message>): string {
      HELLO + name + SerializeBatch(log)
    }

    function OnAccept(id: SessionId): (Room, Reply) {
      (Post({id}, PROMPT), Makes([Session.Append(PROMPT)]))
    }

    function Join(id: SessionId, name: string): (Room, Reply) {
      var m := JoinMessage(name);
      var log := messages + [m];
      if |log| >= Objects.UINT32_MAX then
        (this.(messages := log).Post({id}, HELLO + name), Throws)
      else
        var entry := SerializeBatch([m]);
        var room := this.(messages := log)
                    .Post({id}, Greeting(name, log))
                    .Post(Recipients(false, {}), entry);
        var again := if id in clients then [Session.Append(entry), Session.DoWrite] else [];
        (if id in clients then room
         else room.(clients := clients[id := name], joinedAt := joinedAt[id := |Chunks(id)|]),
         Makes([Session.Append(HELLO + name), Session.Append(SerializeBatch(log))] + again + REARM))
    }

    function Receive(id: SessionId, text: string, wild: Wild): (Room, Reply) {
      var b := ParseBatch(text, Success, wild);
      if b.outcome.OutOfRange? then (this, Throws)
      else if !Succeeds(b) then (this, Makes([Session.DoRead] + REARM))
      else
        (this.(messages := messages + b.messages).Post({id}, text).Post(Recipients(true, {id}), text),
         Makes([Session.Append(text)] + REARM))
    }

    function OnMessage(id: SessionId, text: string, wild: Wild): (Room, Reply) {
      if NAME_PREFIX <= text then Join(id, text[|NAME_PREFIX|..]) else Receive(id, text, wild)
    }

    function OnClose(id: SessionId): (Room, Reply) {
      if id !in open then (this, Makes([]))
      else if id !in clients then (this, Throws)
      else
        var m := LeaveMessage(clients[id]);
        (this.(messages := messages + [m]).Post(Recipients(true, {id}), SerializeBatch([m])), Makes([]))
    }
  }

  const EMPTY_ROOM := Room(map[], [], {}, map[], map[])

  // ---- runs ----

  datatype Event =
    | Connect(id: SessionId)
    | Disconnect(id: SessionId)
    | Accepted(id: SessionId)
    | Incoming(id: SessionId, text: string)
    | CloseFrame(id: SessionId)

  function Step(room: Room, e: Event, wild: Wild): (Room, Reply) {
    match e
    case Connect(id) => (room.(open := room.open + {id}), Makes([]))
    case Disconnect(id) => (room.(open := room.open - {id}), Makes([]))
    case Accepted(id) => room.OnAccept(id)
    case Incoming(id, text) => room.OnMessage(id, text, wild)
    case CloseFrame(id) => room.OnClose(id)
  }

  function After(es: seq<Event>, wild: Wild): Room {
    if es == [] then EMPTY_ROOM else Step(After(Before(es), wild), Last(es), wild).0
  }

  // ---- the object ----

  lemma PostedNobody(room: Room, chunk: string)
    ensures room.Post({}, chunk) == room
  {
    assert room.Post({}, chunk).outbox == room.outbox;
  }

  lemma PostedOneMore(room: Room, to: set<SessionId>, c: SessionId, chunk: string)
    requires c !in to
    ensures var part := room.Post(to, chunk);
            room.Post(to + {c}, chunk) == part.(outbox := part.outbox[c := part.Chunks(c) + [chunk]])
  {
    var part := room.Post(to, chunk);
    assert room.Post(to + {c}, chunk).outbox == part.outbox[c := part.Chunks(c) + [chunk]];
  }

  lemma NoRecipients(room: Room, openOnly: bool, except: set<SessionId>)
    ensures room.Recipients(openOnly, except + room.clients.Keys) == {}
  {
  }

  lemma OneMoreRecipient(room: Room, openOnly: bool, except: set<SessionId>, todo: set<SessionId>, c: SessionId)
    requires c in todo && todo <= room.clients.Keys
    ensures c !in room.Recipients(openOnly, except + todo)
    ensures room.Recipients(openOnly, except + (todo - {c}))
            == room.Recipients(openOnly, except + todo)
               + if c !in except && (openOnly ==> c in room.open) then {c} else {}
  {
  }

  class ChatRoom {
    const wild: Wild
    var clients: map<SessionId, string>
    var messages: seq<Message>
    var open: set<SessionId>
    var outbox: map<SessionId, seq<string>>
    ghost var joinedAt: map<SessionId, nat>

    ghost function Value(): Room
      reads this
    {
      Room(clients, messages, open, outbox, joinedAt)
    }

    constructor (wild: Wild)
      ensures Value() == EMPTY_ROOM && this.wild == wild
    {
      clients, messages, open, outbox, joinedAt := map[], [], {}, map[], map[];
      this.wild := wild;
    }

    method PostTo(id: SessionId, chunk: string)
      modifies this`outbox
      ensures Value() == old(Value()).Post({id}, chunk)
    {
      PostedNobody(Value(), chunk);
      PostedOneMore(Value(), {}, id, chunk);
      assert {} + {id} == {id};
      outbox := outbox[id := (if id in outbox then outbox[id] else []) + [chunk]];
    }

    /** The broadcast loops: the table's order is unspecified, and a session may be skipped. */
    method Broadcast(chunk: string, openOnly: bool, except: set<SessionId>)
      modifies this`outbox
      ensures Value() == old(Value()).Post(old(Value()).Recipients(openOnly, except), chunk)
    {
      hide Room.Post, Room.Recipients;
      ghost var start := Value();
      ghost var posted: set<SessionId> := {};
      var todo := clients.Keys;
      PostedNobody(start, chunk);
      NoRecipients(start, openOnly, except);
      while todo != {}
        invariant todo <= clients.Keys
        invariant posted == start.Recipients(openOnly, except + todo)
        invariant Value() == start.Post(posted, chunk)
        decreases |todo|
      {
        var c :| c in todo;
        OneMoreRecipient(start, openOnly, except, todo, c);
        todo := todo - {c};
        if c !in except && (openOnly ==> c in open) {
          PostedOneMore(start, posted, c, chunk);
          outbox := outbox[c := (if c in outbox then outbox[c] else []) + [chunk]];
          posted := posted + {c};
        }
      }
      assert except + {} == except;
    }

    method Serialized(ms: seq<Message>) returns (text: string, ok: bool)
      ensures ok <==> |ms| < Objects.UINT32_MAX
      ensures ok ==> text == SerializeBatch(ms)
    {
      var s := new Objects.Serializer("");
      var r := s.Advance(ms);
      text, ok := s.out, r.Wrote?;
    }

    method OnAccept(id: SessionId) returns (r: Reply)
      modifies this
      ensures (Value(), r) == old(Value()).OnAccept(id)
    {
      PostTo(id, PROMPT);
      r := Makes([Session.Append(PROMPT)]);
    }

    method OnMessage(id: SessionId, text: string) returns (r: Reply)
      modifies this
      ensures (Value(), r) == old(Value()).OnMessage(id, text, wild)
    {
      if NAME_PREFIX <= text {
        r := OnName(id, text[|NAME_PREFIX|..]);
      } else {
        r := OnText(id, text);
      }
    }

    method OnName(id: SessionId, name: string) returns (r: Reply)
      modifies this
      ensures (Value(), r) == old(Value()).Join(id, name)
    {
      var output := HELLO + name;
      messages := messages + [JoinMessage(name)];
      var log, ok := Serialized(messages);
      if !ok {
        PostTo(id, output);
        return Throws;
      }
      output := output + log;
      ghost var at := |Value().Chunks(id)|;
      PostTo(id, output);

      var last, ok' := Serialized([messages[|messages| - 1]]);
      Broadcast(last, false, {});

      var again: seq<Session.Call> := [];
      if id in clients {
        again := [Session.Append(last), Session.DoWrite];
      } else {
        clients := clients[id := name];
        joinedAt := joinedAt[id := at];
      }
      r := Makes([Session.Append(HELLO + name), Session.Append(log)] + again + REARM);
    }

    method OnText(id: SessionId, text: string) returns (r: Reply)
      modifies this
      ensures (Value(), r) == old(Value()).Receive(id, text, wild)
    {
      var p := new Objects.Parser([], wild);
      var outcome := p.Advance(text, Success);
      if outcome.OutOfRange? {
        return Throws;
      }
      if outcome.ec != Success {
        return Makes([Session.DoRead] + REARM);
      }
      messages := messages + p.messages;
      PostTo(id, text);
      Broadcast(text, true, {id});
      r := Makes([Session.Append(text)] + REARM);
    }

    method OnClose(id: SessionId) returns (r: Reply)
      modifies this
      ensures (Value(), r) == old(Value()).OnClose(id)
    {
      r := Makes([]);
      if id in open {
        if id !in clients {
          return Throws;
        }
        messages := messages + [LeaveMessage(clients[id])];
        var last, ok := Serialized([messages[|messages| - 1]]);
        Broadcast(last, true, {id});
      }
    }

    /** One turn of the event loop. */
    method Handle(e: Event) returns (r: Reply)
      modifies this
      ensures (Value(), r) == Step(old(Value()), e, wild)
    {
      r := Makes([]);
      match e
      case Connect(id) => open := open + {id};
      case Disconnect(id) => open := open - {id};
      case Accepted(id) => r := OnAccept(id);
      case Incoming(id, text) => r := OnMessage(id, text);
      case CloseFrame(id) => r := OnClose(id);
    }
  }
}
