/** What each handler of the chat room does, said in texts rather than through the room's own
    functions: what is logged, and what every session is sent. */
module ChatEffects {
  import opened Numerals
  import opened ChatMessage
  import opened ChatCodec
  import opened ChatRoom
  import Objects = ChatObjects
  import Session = ServerSession
  import Watchdog

  lemma SmallNumbers()
    ensures ToString(1) == "1" && ToString(3) == "3" && ToString(10) == "10"
  {
  }

  lemma MessageText(m: Message)
    ensures SerializeMessage(m) == "message:" + ToString(|m.payload|) + ":" + m.nickname + ":" + m.payload
  {
  }

  /** One record, and a batch of one. */
  lemma OneMessageText(m: Message)
    ensures SerializeMessage(m) == "message:" + ToString(|m.payload|) + ":" + m.nickname + ":" + m.payload
    ensures SerializeBatch([m]) == "inv:1:" + SerializeMessage(m)
  {
    hide ToString, SerializeMessage;
    assert SerializeRecords([m]) == SerializeMessage(m) + "";
    assert ToString(1) == "1" by { SmallNumbers(); }
    assert SerializeInv(1) == "inv:1:";
    assert SerializeMessage(m) == "message:" + ToString(|m.payload|) + ":" + m.nickname + ":" + m.payload by {
      MessageText(m);
    }
  }

  /** Every session but those told is sent nothing, and those told are sent one chunk. */
  ghost predicate Sends(room: Room, room': Room, told: SessionId -> bool, chunk: string) {
    forall c :: room'.Chunks(c) == room.Chunks(c) + if told(c) then [chunk] else []
  }

  ghost predicate SameTable(room: Room, room': Room) {
    room'.clients == room.clients && room'.open == room.open
  }

  /** An accepted session is asked for its name. */
  lemma PromptExactly(room: Room, id: SessionId, wild: Wild)
    ensures var (room', reply) := Step(room, Event.Accepted(id), wild);
            && reply == Makes([Session.Append("What is your name?")])
            && SameTable(room, room') && room'.messages == room.messages
            && Sends(room, room', c => c == id, "What is your name?")
  {
  }

  lemma JoinTellsItself(room: Room, id: SessionId, name: string)
    requires |room.messages| + 1 < Objects.UINT32_MAX
    ensures room.Join(id, name).0.Chunks(id)
            == room.Chunks(id) + [room.Greeting(name, room.messages + [JoinMessage(name)])]
               + if id in room.clients then [SerializeBatch([JoinMessage(name)])] else []
  {
    hide SerializeBatch;
  }

  lemma JoinTellsOthers(room: Room, id: SessionId, name: string, c: SessionId)
    requires room.Join(id, name).1.Makes? && c != id
    ensures room.Join(id, name).0.Chunks(c)
            == room.Chunks(c) + if c in room.clients then [SerializeBatch([JoinMessage(name)])] else []
  {
    hide SerializeBatch;
  }

  lemma JoinRegisters(room: Room, id: SessionId, name: string)
    ensures var (room', reply) := room.Join(id, name);
            && room'.messages == room.messages + [Message(name, "Input to chat room!")] && room'.open == room.open
            && (reply.Throws? <==> |room.messages| + 1 >= 0xFFFF_FFFF)
            && (reply.Makes? ==>
                  && room'.clients == (if id in room.clients then room.clients else room.clients[id := name])
                  && reply.calls
                     == [Session.Append("Hello " + name), Session.Append(SerializeBatch(room'.messages))]
                        + (if id in room.clients
                           then [Session.Append(SerializeBatch([JoinMessage(name)])), Session.DoWrite] else [])
                        + [Session.LaunchTimerWith(Watchdog.PING_STAGE)])
  {
    hide SerializeBatch;
  }

  lemma Regroup(a: string, b: string, n: string, c: string, d: string, f: string, g: string)
    ensures a + (b + n + c + d + f + g) == (a + b) + n + (c + d + f) + g
  {
  }

  lemma EntryPieces()
    ensures "inv:1:" + "message:" == "inv:1:message:"
    ensures ":" + "Input to chat room!" + ":" == ":Input to chat room!:"
    ensures ":" + "is leaving" == ":is leaving"
    ensures "inv:1:message:" + "10" + ":" == "inv:1:message:10:"
  {
  }

  lemma JoinEntryText(name: string)
    ensures SerializeBatch([JoinMessage(name)]) == "inv:1:message:" + ToString(|name|) + ":Input to chat room!:" + name
  {
    hide SerializeBatch, SerializeMessage, ToString;
    var inv, message, colon, said := "inv:1:", "message:", ":", "Input to chat room!";
    OneMessageText(JoinMessage(name));
    Regroup(inv, message, ToString(|name|), colon, said, colon, name);
    EntryPieces();
  }

  lemma RegroupLeave(a: string, b: string, n: string, c: string, name: string, d: string)
    ensures a + (b + n + c + name + c + d) == ((a + b) + n + c) + name + (c + d)
  {
  }

  lemma LeaveEntryText(name: string)
    ensures SerializeBatch([LeaveMessage(name)]) == "inv:1:message:10:" + name + ":is leaving"
  {
    hide SerializeBatch, SerializeMessage, ToString;
    OneMessageText(LeaveMessage(name));
    SmallNumbers();
    EntryPieces();
    RegroupLeave("inv:1:", "message:", "10", ":", name, "is leaving");
  }

  /** A join is logged with the name as payload, greeted with the whole log and told to every client
      in the table; it throws if and only if the log cannot be serialized any more. */
  lemma JoinExactly(room: Room, id: SessionId, name: string, wild: Wild)
    ensures var (room', reply) := Step(room, Incoming(id, "My name is " + name), wild);
            var log := room.messages + [Message(name, "Input to chat room!")];
            var entry := "inv:1:message:" + ToString(|name|) + ":Input to chat room!:" + name;
            && Message(name, "Input to chat room!").payload == name
            && room'.messages == log && room'.open == room.open
            && (reply.Throws? <==> |log| >= 0xFFFF_FFFF)
            && (reply.Makes? ==>
                  && room'.clients == (if id in room.clients then room.clients else room.clients[id := name])
                  && reply.calls
                     == [Session.Append("Hello " + name), Session.Append(SerializeBatch(log))]
                        + (if id in room.clients then [Session.Append(entry), Session.DoWrite] else [])
                        + [Session.LaunchTimerWith(Watchdog.PING_STAGE)]
                  && room'.Chunks(id) == room.Chunks(id) + ["Hello " + name + SerializeBatch(log)]
                                         + (if id in room.clients then [entry] else [])
                  && forall c :: c != id ==>
                       room'.Chunks(c) == room.Chunks(c) + if c in room.clients then [entry] else [])
  {
    hide SerializeBatch, ToString, Room.Join, Room.Chunks;
    var text := "My name is " + name;
    assert NAME_PREFIX <= text && text[|NAME_PREFIX|..] == name;
    JoinRegisters(room, id, name);
    JoinEntryText(name);
    if room.Join(id, name).1.Makes? {
      JoinTellsItself(room, id, name);
      forall c | c != id
        ensures room.Join(id, name).0.Chunks(c)
                == room.Chunks(c) + if c in room.clients then [SerializeBatch([JoinMessage(name)])] else []
      {
        JoinTellsOthers(room, id, name, c);
      }
    }
  }

  /** A text handler throws if and only if the text's header and fewer records than it declares parse
      and the last of these runs past the end; then nothing has changed. Otherwise an invalid text is
      ignored, and a valid one is logged and sent as it is to its sender and to every other open
      client. */
  lemma TextExactly(room: Room, id: SessionId, text: string, wild: Wild)
    requires !("My name is " <= text)
    ensures var (room', reply) := Step(room, Incoming(id, text), wild);
            var h := ParseInv(text, wild);
            var b := ParseBatch(text, Success, wild);
            && SameTable(room, room')
            && (reply.Throws? <==>
                  h.Accepted? && exists k: nat :: 0 < k < h.value && Overshoots(text, h.read, k, wild))
            && (reply.Throws? || !Succeeds(b) ==> room' == room)
            && (reply.Makes? && !Succeeds(b) ==>
                  reply.calls == [Session.DoRead, Session.LaunchTimerWith(Watchdog.PING_STAGE)])
            && (Succeeds(b) ==>
                  && reply == Makes([Session.Append(text), Session.LaunchTimerWith(Watchdog.PING_STAGE)])
                  && room'.messages == room.messages + b.messages
                  && Sends(room, room', c => c == id || (c in room.clients && c in room.open), text))
  {
    hide ParseBatch, ParseInv, Overshoots;
    ThrowsExactlyWhen(text, wild);
  }

  /** A leave of a joined, open session is logged with its name as nickname and told to the other open
      clients; one of an open session that never joined throws; any other does nothing. */
  lemma LeaveExactly(room: Room, id: SessionId, wild: Wild)
    ensures var (room', reply) := Step(room, CloseFrame(id), wild);
            && SameTable(room, room')
            && (reply.Throws? <==> id in room.open && id !in room.clients)
            && (reply.Makes? ==> reply.calls == [])
            && (id !in room.open || id !in room.clients ==> room' == room)
            && (id in room.open && id in room.clients ==>
                  var name := room.clients[id];
                  && room'.messages == room.messages + [Message("is leaving", name)]
                  && Message("is leaving", name).nickname == name
                  && Sends(room, room', c => c != id && c in room.clients && c in room.open,
                           "inv:1:message:10:" + name + ":is leaving"))
  {
    hide SerializeBatch, ToString;
    if id in room.open && id in room.clients { LeaveEntryText(room.clients[id]); }
  }

  /** Sockets open and close without a word to anybody. */
  lemma SocketsExactly(room: Room, id: SessionId, wild: Wild)
    ensures Step(room, Connect(id), wild) == (room.(open := room.open + {id}), Makes([]))
    ensures Step(room, Disconnect(id), wild) == (room.(open := room.open - {id}), Makes([]))
  {
  }

  lemma BobsPieces()
    ensures "inv:1:message:" + "3" + ":Input to chat room!:" + "bob" == "inv:1:message:3:Input to chat room!:bob"
  {
  }

  lemma BobsEntry()
    ensures SerializeBatch([Message("bob", "Input to chat room!")]) == "inv:1:message:3:Input to chat room!:bob"
  {
    hide SerializeBatch, ToString;
    JoinEntryText("bob");
    SmallNumbers();
    BobsPieces();
  }

  lemma BobsName()
    ensures "My name is " + "bob" == "My name is bob" && "Hello " + "bob" == "Hello bob"
  {
  }

  /** The join of "bob" in an empty room. */
  lemma FirstJoin(wild: Wild)
    ensures var room := Step(EMPTY_ROOM, Incoming(1, "My name is bob"), wild).0;
            && room.messages == [Message("bob", "Input to chat room!")]
            && room.Chunks(1) == ["Hello bob" + "inv:1:message:3:Input to chat room!:bob"]
  {
    hide SerializeBatch, Step, ToString;
    BobsName();
    JoinExactly(EMPTY_ROOM, 1, "bob", wild);
    BobsEntry();
  }
}
