/** What the chat's clients see, over every run of the room. */
module ChatView {
  import opened Traces
  import opened Numerals
  import opened ChatMessage
  import opened ChatCodec
  import opened ChatRoom

  // ---- the client's side ----

  /** The messages a client shows, or that it cannot make out some chunk. */
  datatype View = Sees(messages: seq<Message>) | Broken

  /** How the client reads one chunk: its greeting is stripped, anything else is parsed as it is. */
  function ClientReads(name: string, chunk: string, wild: Wild): View {
    var text := if HELLO + name <= chunk then chunk[|HELLO + name|..] else chunk;
    var b := ParseBatch(text, Success, wild);
    if Succeeds(b) then Sees(b.messages) else Broken
  }

  function And(a: View, b: View): View {
    if a.Sees? && b.Sees? then Sees(a.messages + b.messages) else Broken
  }

  function ViewOf(name: string, chunks: seq<string>, wild: Wild): View {
    if chunks == [] then Sees([])
    else And(ViewOf(name, chunks[..|chunks| - 1], wild), ClientReads(name, chunks[|chunks| - 1], wild))
  }

  lemma ViewOneMore(name: string, chunks: seq<string>, chunk: string, wild: Wild)
    ensures ViewOf(name, chunks + [chunk], wild) == And(ViewOf(name, chunks, wild), ClientReads(name, chunk, wild))
  {
    assert (chunks + [chunk])[..|chunks|] == chunks;
  }

  // ---- single chunks ----

  /** A chunk that parses is not mistaken for a greeting. */
  lemma ParsedChunk(name: string, chunk: string, wild: Wild)
    requires Succeeds(ParseBatch(chunk, Success, wild))
    ensures ClientReads(name, chunk, wild) == Sees(ParseBatch(chunk, Success, wild).messages)
  {
    hide ParseRecords;
    PrefixShape(INV_PREFIX, chunk, wild);
    assert chunk[0] == 'i';
    assert (HELLO + name)[0] == 'H';
  }

  lemma ServerChunk(name: string, m: Message, wild: Wild)
    requires ValidMessage(m)
    ensures ClientReads(name, SerializeBatch([m]), wild) == Sees([m])
  {
    hide ParseBatch, SerializeBatch;
    var s := SerializeBatch([m]);
    BatchRoundTrip([m], "", wild);
    assert s + "" == s;
    ParsedChunk(name, s, wild);
  }

  /** A greeting shows the joining client the whole log if and only if the log lies in the codec's
      round-trip domain. */
  lemma GreetingShowsLogExactlyWhen(room: Room, name: string, log: seq<Message>, wild: Wild)
    requires IntSized(log)
    ensures ClientReads(name, room.Greeting(name, log), wild) == Sees(log) <==> ValidBatch(log)
  {
    hide ParseBatch, SerializeBatch, ValidBatch, IntSized;
    var s := SerializeBatch(log);
    RoundTripExactlyOnDomain(log, "", wild);
    assert s + "" == s;
    assert room.Greeting(name, log)[|HELLO + name|..] == s;
  }

  // ---- the room's invariant ----

  ghost predicate ValidName(name: string) {
    0 < |name| < INT_LIMIT && ':' !in name
  }

  ghost predicate SeesLog(room: Room, id: SessionId, wild: Wild)
    requires id in room.clients && id in room.joinedAt && room.joinedAt[id] <= |room.Chunks(id)|
  {
    ViewOf(room.clients[id], room.Chunks(id)[room.joinedAt[id]..], wild) == Sees(room.messages)
  }

  ghost predicate Consistent(room: Room, left: set<SessionId>, wild: Wild) {
    && ValidMessages(room.messages)
    && (forall id :: id in room.clients ==>
          && ValidName(room.clients[id])
          && id in room.joinedAt && room.joinedAt[id] <= |room.Chunks(id)|)
    && (forall id :: id in room.clients && id in room.open && id !in left ==> SeesLog(room, id, wild))
  }

  /** Each session is a new one and joins once, with a name that is not empty and holds no ':';
      accepted payloads are not empty; and no text makes the batch parser throw. Sizes stay within
      what `atoi` holds. */
  ghost predicate IsPolite(room: Room, e: Event, wild: Wild) {
    match e
    case Connect(id) => id !in room.clients
    case Disconnect(_) => true
    case Accepted(id) => id !in room.clients
    case Incoming(id, text) =>
      if NAME_PREFIX <= text then
        id !in room.clients && ValidName(text[|NAME_PREFIX|..]) && |room.messages| + 1 < INT_LIMIT
      else
        var b := ParseBatch(text, Success, wild);
        && |text| < INT_LIMIT && b.outcome.Returned?
        && (Succeeds(b) ==> forall m :: m in b.messages ==> m.payload != "")
    case CloseFrame(id) => id in room.open ==> id in room.clients
  }

  ghost predicate IsPoliteRun(es: seq<Event>, wild: Wild) {
    es == [] || (IsPoliteRun(Before(es), wild) && IsPolite(After(Before(es), wild), Last(es), wild))
  }

  function Leaves(e: Event): set<SessionId> {
    if e.CloseFrame? then {e.id} else {}
  }

  function Left(es: seq<Event>): set<SessionId> {
    if es == [] then {} else Left(Before(es)) + Leaves(Last(es))
  }

  // ---- steps ----

  /** A client that is sent a chunk it reads as `ms`, while the log grows by `ms`, keeps seeing the log. */
  lemma HeardKeepsView(room: Room, room': Room, id: SessionId, chunk: string, ms: seq<Message>, wild: Wild)
    requires id in room.clients && id in room.joinedAt && room.joinedAt[id] <= |room.Chunks(id)|
    requires SeesLog(room, id, wild)
    requires id in room'.clients && room'.clients[id] == room.clients[id]
    requires id in room'.joinedAt && room'.joinedAt[id] == room.joinedAt[id]
    requires room'.Chunks(id) == room.Chunks(id) + [chunk]
    requires room'.messages == room.messages + ms
    requires ClientReads(room.clients[id], chunk, wild) == Sees(ms)
    ensures SeesLog(room', id, wild)
  {
    var at := room.joinedAt[id];
    assert room'.Chunks(id)[at..] == room.Chunks(id)[at..] + [chunk];
    ViewOneMore(room.clients[id], room.Chunks(id)[at..], chunk, wild);
  }

  /** Which chunks a join appends, and to whom. */
  lemma JoinPosts(room: Room, id: SessionId, name: string)
    requires id !in room.clients && |room.messages| + 1 < INT_LIMIT
    ensures var room' := room.Join(id, name).0;
            var log := room.messages + [JoinMessage(name)];
            && room'.Chunks(id) == room.Chunks(id) + [room.Greeting(name, log)]
            && room'.joinedAt == room.joinedAt[id := |room.Chunks(id)|]
            && room'.clients == room.clients[id := name]
            && room'.open == room.open && room'.messages == log
            && forall c :: c in room.clients ==>
                 room'.Chunks(c) == room.Chunks(c) + [SerializeBatch([JoinMessage(name)])]
  {
    hide SerializeBatch;
  }

  lemma NewClientSees(name: string, chunks: seq<string>, at: nat, greeting: string, log: seq<Message>,
                      room: Room, wild: Wild)
    requires chunks != [] && at == |chunks| - 1 && chunks[at] == greeting == room.Greeting(name, log)
    requires ValidBatch(log)
    ensures ViewOf(name, chunks[at..], wild) == Sees(log)
  {
    hide ClientReads, SerializeBatch;
    GreetingShowsLogExactlyWhen(room, name, log, wild);
    assert chunks[at..] == [] + [greeting];
    ViewOneMore(name, [], greeting, wild);
    assert [] + log == log;
  }

  lemma JoinKeepsViews(room: Room, left: set<SessionId>, id: SessionId, name: string, wild: Wild)
    requires Consistent(room, left, wild)
    requires id !in room.clients && ValidName(name) && |room.messages| + 1 < INT_LIMIT
    ensures Consistent(room.Join(id, name).0, left, wild)
    ensures room.Join(id, name).1.Makes?
  {
    hide ViewOf, ClientReads, SerializeBatch, ParseBatch, Room.Post, Room.Recipients;
    var m := JoinMessage(name);
    assert ValidMessage(m);
    var log := room.messages + [m];
    var room' := room.Join(id, name).0;
    var chunk := SerializeBatch([m]);
    var greeting := room.Greeting(name, log);
    JoinPosts(room, id, name);
    forall c | c in room.clients && c in room.open && c !in left
      ensures SeesLog(room', c, wild)
    {
      ServerChunk(room.clients[c], m, wild);
      HeardKeepsView(room, room', c, chunk, [m], wild);
    }
    NewClientSees(name, room'.Chunks(id), room'.joinedAt[id], greeting, log, room, wild);
    assert SeesLog(room', id, wild);
  }

  lemma ReceiveKeepsViews(room: Room, left: set<SessionId>, id: SessionId, text: string, wild: Wild)
    requires Consistent(room, left, wild)
    requires IsPolite(room, Incoming(id, text), wild) && !(NAME_PREFIX <= text)
    ensures Consistent(room.Receive(id, text, wild).0, left, wild)
    ensures room.Receive(id, text, wild).1.Makes?
  {
    hide ViewOf, ClientReads, SerializeBatch, ParseBatch;
    var b := ParseBatch(text, Success, wild);
    if Succeeds(b) {
      var room' := room.Receive(id, text, wild).0;
      ParseStoresValid(text, Success, wild);
      forall c | c in room.clients && c in room.open && c !in left
        ensures SeesLog(room', c, wild)
      {
        ParsedChunk(room.clients[c], text, wild);
        HeardKeepsView(room, room', c, text, b.messages, wild);
      }
    }
  }

  lemma CloseKeepsViews(room: Room, left: set<SessionId>, id: SessionId, wild: Wild)
    requires Consistent(room, left, wild) && (id in room.open ==> id in room.clients)
    ensures Consistent(room.OnClose(id).0, left + {id}, wild)
    ensures room.OnClose(id).1.Makes?
  {
    hide ViewOf, ClientReads, SerializeBatch, ParseBatch;
    if id in room.open {
      var m := LeaveMessage(room.clients[id]);
      assert ValidMessage(m);
      var room' := room.OnClose(id).0;
      forall c | c in room.clients && c in room.open && c !in left + {id}
        ensures SeesLog(room', c, wild)
      {
        ServerChunk(room.clients[c], m, wild);
        HeardKeepsView(room, room', c, SerializeBatch([m]), [m], wild);
      }
    }
  }

  /** The prompt goes to a session that has not joined. */
  lemma PromptKeepsViews(room: Room, left: set<SessionId>, id: SessionId, wild: Wild)
    requires Consistent(room, left, wild) && id !in room.clients
    ensures Consistent(room.OnAccept(id).0, left, wild)
  {
    hide ViewOf;
    var room' := room.OnAccept(id).0;
    assert forall c :: c in room.clients ==> room'.Chunks(c) == room.Chunks(c);
    assert forall c :: c in room.clients && c in room.open && c !in left ==> SeesLog(room, c, wild);
  }

  /** A polite event keeps every view equal to the log, and a join, leave or log entry it makes does
      not run into the codec's limits: its handler returns. */
  lemma StepKeepsViews(room: Room, left: set<SessionId>, e: Event, wild: Wild)
    requires Consistent(room, left, wild) && IsPolite(room, e, wild)
    ensures Consistent(Step(room, e, wild).0, left + Leaves(e), wild)
    ensures Step(room, e, wild).1.Makes?
  {
    hide ViewOf, ParseBatch, Room.Join, Room.Receive, Room.OnClose;
    assert left + {} == left;
    match e
    case Connect(id) =>
      var room' := Step(room, e, wild).0;
      assert forall c :: c in room.clients && c in room'.open && c !in left ==> SeesLog(room, c, wild);
    case Disconnect(id) =>
      var room' := Step(room, e, wild).0;
      assert forall c :: c in room.clients && c in room'.open && c !in left ==> SeesLog(room, c, wild);
    case Accepted(id) => PromptKeepsViews(room, left, id, wild);
    case Incoming(id, text) =>
      if NAME_PREFIX <= text {
        JoinKeepsViews(room, left, id, text[|NAME_PREFIX|..], wild);
      } else {
        ReceiveKeepsViews(room, left, id, text, wild);
      }
    case CloseFrame(id) => CloseKeepsViews(room, left, id, wild);
  }

  lemma EmptyRoomConsistent(wild: Wild)
    ensures Consistent(EMPTY_ROOM, {}, wild)
  {
  }

  /** Chat view consistency: in every polite run, each joined client whose socket is open and who
      has not left sees exactly the server's log: the log its greeting shows followed by what it
      reads in every chunk appended to its output since; and every logged message lies in the codec's
      round-trip domain. */
  lemma {:induction false} ClientsSeeTheLog(es: seq<Event>, wild: Wild)
    requires IsPoliteRun(es, wild)
    ensures Consistent(After(es, wild), Left(es), wild)
  {
    hide Consistent, IsPolite;
    if es == [] {
      assert Consistent(EMPTY_ROOM, {}, wild) by { EmptyRoomConsistent(wild); }
    } else {
      ClientsSeeTheLog(Before(es), wild);
      StepKeepsViews(After(Before(es), wild), Left(Before(es)), Last(es), wild);
    }
  }

  // ---- where the code falls short ----

  /** A record cut off right behind its nickname is accepted, with an empty payload. */
  const CUT_RECORD := "inv:1:message:5:bob:"

  lemma OneDigit(wild: Wild)
    ensures ToString(1) == "1" && ReadUint32("5", wild) == 5
  {
    ReadToString(5, wild);
    assert ToString(5) == "5";
  }

  lemma CutRecordAccepted(wild: Wild)
    ensures ParseBatch(CUT_RECORD, Success, wild) == Batch(Returned(25, Success), [Message("", "bob")])
  {
    hide ParseBatch, ParseInv, ParseRecords, ParseMessage, ToString, ReadUint32;
    OneDigit(wild);
    var record := Record("5", "bob", "");
    InvRoundTrip(1, record, wild);
    assert CUT_RECORD == SerializeInv(1) + record;
    assert CUT_RECORD[6..] == record;
    HeaderThenRecords(CUT_RECORD, wild);
    RecordComposed("5", "bob", "", wild);
    OneRecord(CUT_RECORD, 6, 1, wild);
    NoRecord(CUT_RECORD, 25, wild);
    assert [Message("", "bob")] + [] == [Message("", "bob")];
  }

  /** Why accepted payloads must not be empty: once any session has sent that one cut record, no
      later joiner is shown the log, however valid everything else is. */
  lemma CutRecordSpoilsGreetings(room: Room, id: SessionId, later: Room, joiner: string, wild: Wild)
    requires room.Receive(id, CUT_RECORD, wild).0.messages <= later.messages && IntSized(later.messages)
    ensures ClientReads(joiner, later.Greeting(joiner, later.messages), wild) != Sees(later.messages)
  {
    hide ParseBatch, ClientReads, SerializeBatch;
    CutRecordAccepted(wild);
    var bad := Message("", "bob");
    var log := room.Receive(id, CUT_RECORD, wild).0.messages;
    assert log == room.messages + [bad];
    assert later.messages[|room.messages|] == log[|room.messages|] == bad;
    assert bad in later.messages && !ValidMessage(bad);
    GreetingShowsLogExactlyWhen(later, joiner, later.messages, wild);
  }
}
