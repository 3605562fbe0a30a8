/** Exactly when a chat client sees the log, in runs in which each session joins once but names,
    records and payloads are whatever the clients send. */
module ChatExact {
  import opened Traces
  import opened Numerals
  import opened ChatMessage
  import opened ChatCodec
  import opened ChatRoom
  import opened ChatView

  // ---- single chunks ----

  /** A successful parse of a serialized batch finds as many messages as were serialized. */
  lemma CountIsRead(ms: seq<Message>, wild: Wild)
    requires IntSized(ms) && ms != [] && Succeeds(ParseBatch(SerializeBatch(ms), Success, wild))
    ensures |ParseBatch(SerializeBatch(ms), Success, wild).messages| == |ms|
  {
    hide ParseBatch, ParseInv, SerializeInv, SerializeRecords, SerializeBatch, IntSized;
    IntSizedCount(ms);
    SerializedInTwo(ms);
    InvRoundTrip(|ms|, SerializeRecords(ms), wild);
    ThrowsExactlyWhen(SerializeBatch(ms), wild);
  }

  /** The client reads a chunk of `ms` messages as that many or not at all; and as `ms` itself if and
      only if the condition holds. */
  ghost predicate ReadsExactly(v: View, ms: seq<Message>, condition: bool) {
    && (v.Sees? ==> |v.messages| == |ms|)
    && (v == Sees(ms) <==> condition)
  }

  lemma NoGreeting(name: string, ms: seq<Message>)
    ensures !(HELLO + name <= SerializeBatch(ms))
  {
    hide SerializeRecords;
    SerializedInTwo(ms);
    assert SerializeBatch(ms)[0] == 'i';
    assert (HELLO + name)[0] == 'H';
  }

  lemma ServerChunkExactly(name: string, m: Message, wild: Wild)
    requires |m.payload| < INT_LIMIT
    ensures ReadsExactly(ClientReads(name, SerializeBatch([m]), wild), [m], ValidMessage(m))
  {
    hide ParseBatch, SerializeBatch;
    var s := SerializeBatch([m]);
    assert IntSized([m]);
    RoundTripExactlyOnDomain([m], "", wild);
    assert s + "" == s;
    assert ValidBatch([m]) <==> ValidMessage(m) by { assert m in [m]; }
    NoGreeting(name, [m]);
    if Succeeds(ParseBatch(s, Success, wild)) { CountIsRead([m], wild); }
  }

  lemma GreetingExactly(room: Room, name: string, log: seq<Message>, wild: Wild)
    requires IntSized(log) && log != []
    ensures ReadsExactly(ClientReads(name, room.Greeting(name, log), wild), log, ValidBatch(log))
  {
    hide ParseBatch, SerializeBatch, ValidBatch, IntSized;
    var s := SerializeBatch(log);
    GreetingShowsLogExactlyWhen(room, name, log, wild);
    assert room.Greeting(name, log)[|HELLO + name|..] == s;
    if Succeeds(ParseBatch(s, Success, wild)) { CountIsRead(log, wild); }
  }

  /** Payloads are no longer than the text they were parsed from. */
  ghost predicate SizedWithin(ms: seq<Message>, limit: int) {
    forall m :: m in ms ==> |m.payload| < limit
  }

  lemma {:induction false} RecordsStoreSized(s: string, from: nat, count: nat, wild: Wild)
    requires |s| < INT_LIMIT
    ensures SizedWithin(ParseRecords(s, from, count, wild).messages, INT_LIMIT)
    decreases count
  {
    hide ParseMessage;
    if count > 0 && from <= |s| && ParseMessage(s[from..], wild).Accepted? {
      AcceptedRecord(s[from..], wild);
      RecordsStoreSized(s, from + ParseMessage(s[from..], wild).read, count - 1, wild);
    }
  }

  lemma ParseStoresSized(s: string, wild: Wild)
    requires |s| < INT_LIMIT
    ensures SizedWithin(ParseBatch(s, Success, wild).messages, INT_LIMIT)
  {
    hide ParseRecords;
    var h := ParseInv(s, wild);
    if h.Accepted? { RecordsStoreSized(s, h.read, h.value, wild); }
  }

  // ---- runs ----

  /** Sessions are new ones and join once; sizes stay within what `atoi` holds. Nothing else is asked:
      names may be empty or hold a ':', records may be cut, and handlers may throw. */
  predicate JoinsOnce(room: Room, e: Event) {
    match e
    case Connect(id) => id !in room.clients
    case Accepted(id) => id !in room.clients
    case Incoming(id, text) =>
      && |text| < INT_LIMIT
      && (NAME_PREFIX <= text ==> id !in room.clients && |room.messages| + 1 < INT_LIMIT)
    case _ => true
  }

  predicate JoinsOnceRun(es: seq<Event>, wild: Wild) {
    es == [] || (JoinsOnceRun(Before(es), wild) && JoinsOnce(After(Before(es), wild), Last(es)))
  }

  /** The clients who have so far been sent every log entry in a form that can be read back: the log
      at their join is a valid batch, and so is each entry the server has added for a join or a leave
      since. Records that clients sent are forwarded as they came: they cannot spoil the view of those
      who have joined, though they can spoil the log shown to those who join later. */
  ghost function InformedBy(room: Room, e: Event, informed: set<SessionId>): set<SessionId> {
    match e
    case Incoming(id, text) =>
      if NAME_PREFIX <= text then
        var m := JoinMessage(text[|NAME_PREFIX|..]);
        (if ValidMessage(m) then informed - {id} else {})
        + (if ValidBatch(room.messages + [m]) then {id} else {})
      else informed
    case CloseFrame(id) =>
      if id in room.open && id in room.clients && !ValidMessage(LeaveMessage(room.clients[id])) then {}
      else informed
    case _ => informed
  }

  ghost function Informed(es: seq<Event>, wild: Wild): set<SessionId> {
    if es == [] then {} else InformedBy(After(Before(es), wild), Last(es), Informed(Before(es), wild))
  }

  /** A client's view, as `SeesLog` reads it. */
  ghost function ViewIn(room: Room, id: SessionId, wild: Wild): View
    requires id in room.clients && id in room.joinedAt && room.joinedAt[id] <= |room.Chunks(id)|
  {
    ViewOf(room.clients[id], room.Chunks(id)[room.joinedAt[id]..], wild)
  }

  ghost predicate Registered(room: Room, id: SessionId) {
    && id in room.clients && |room.clients[id]| < INT_LIMIT
    && id in room.joinedAt && room.joinedAt[id] <= |room.Chunks(id)|
  }

  ghost predicate Exact(room: Room, left: set<SessionId>, informed: set<SessionId>, wild: Wild) {
    && SizedWithin(room.messages, INT_LIMIT)
    && (forall id :: id in room.clients ==> Registered(room, id))
    && (forall id :: id in room.clients && id in room.open && id !in left ==>
          ReadsExactly(ViewIn(room, id, wild), room.messages, id in informed))
  }

  /** Hearing a chunk that carries the entries the log grows by. */
  lemma HeardExactly(room: Room, room': Room, id: SessionId, chunk: string, ms: seq<Message>, before: bool,
                     readable: bool, wild: Wild)
    requires Registered(room, id) && Registered(room', id)
    requires room'.clients[id] == room.clients[id] && room'.joinedAt[id] == room.joinedAt[id]
    requires room'.Chunks(id) == room.Chunks(id) + [chunk] && room'.messages == room.messages + ms
    requires ReadsExactly(ViewIn(room, id, wild), room.messages, before)
    requires ReadsExactly(ClientReads(room.clients[id], chunk, wild), ms, readable)
    ensures ReadsExactly(ViewIn(room', id, wild), room'.messages, before && readable)
  {
    hide ClientReads, ViewOf;
    var at := room.joinedAt[id];
    var past, heard := ViewIn(room, id, wild), ClientReads(room.clients[id], chunk, wild);
    assert room'.Chunks(id)[at..] == room.Chunks(id)[at..] + [chunk];
    ViewOneMore(room.clients[id], room.Chunks(id)[at..], chunk, wild);
    if past.Sees? && heard.Sees? {
      assert (past.messages + heard.messages)[..|room.messages|] == past.messages;
      assert (room.messages + ms)[..|room.messages|] == room.messages;
      assert (past.messages + heard.messages)[|room.messages|..] == heard.messages;
      assert (room.messages + ms)[|room.messages|..] == ms;
    }
  }

  lemma NewClientExactly(room: Room, id: SessionId, log: seq<Message>, wild: Wild)
    requires Registered(room, id) && room.messages == log && log != [] && IntSized(log)
    requires room.Chunks(id)[room.joinedAt[id]..] == [room.Greeting(room.clients[id], log)]
    ensures ReadsExactly(ViewIn(room, id, wild), log, ValidBatch(log))
  {
    hide ClientReads, SerializeBatch, ValidBatch, IntSized;
    var name := room.clients[id];
    GreetingExactly(room, name, log, wild);
    assert [room.Greeting(name, log)] == [] + [room.Greeting(name, log)];
    ViewOneMore(name, [], room.Greeting(name, log), wild);
    var v := ClientReads(name, room.Greeting(name, log), wild);
    assert v.Sees? ==> [] + v.messages == v.messages;
  }

  lemma JoinIsExact(room: Room, left: set<SessionId>, informed: set<SessionId>, id: SessionId, name: string,
                    wild: Wild)
    requires Exact(room, left, informed, wild)
    requires id !in room.clients && |name| < INT_LIMIT && |room.messages| + 1 < INT_LIMIT
    ensures Exact(room.Join(id, name).0, left,
                  InformedBy(room, Incoming(id, NAME_PREFIX + name), informed), wild)
  {
    hide ViewOf, ClientReads, SerializeBatch, ParseBatch, Room.Post, Room.Recipients, Room.Join, ReadsExactly;
    hide ValidMessage, ValidBatch;
    assert (NAME_PREFIX + name)[|NAME_PREFIX|..] == name;
    var m := JoinMessage(name);
    var log := room.messages + [m];
    var room' := room.Join(id, name).0;
    JoinPosts(room, id, name);
    forall c | c in room.clients && c in room.open && c !in left
      ensures Registered(room', c)
      ensures ReadsExactly(ViewIn(room', c, wild), log, c in informed && ValidMessage(m))
    {
      ServerChunkExactly(room.clients[c], m, wild);
      HeardExactly(room, room', c, SerializeBatch([m]), [m], c in informed, ValidMessage(m), wild);
    }
    assert IntSized(log);
    assert room'.Chunks(id)[room'.joinedAt[id]..] == [room.Greeting(name, log)];
    NewClientExactly(room', id, log, wild);
  }

  lemma ReadsItself(ms: seq<Message>)
    ensures ReadsExactly(Sees(ms), ms, true)
  {
  }

  lemma ReceiveIsExact(room: Room, left: set<SessionId>, informed: set<SessionId>, id: SessionId, text: string,
                       wild: Wild)
    requires Exact(room, left, informed, wild) && |text| < INT_LIMIT
    ensures Exact(room.Receive(id, text, wild).0, left, informed, wild)
  {
    hide ViewOf, ClientReads, SerializeBatch, ParseBatch, ReadsExactly;
    var b := ParseBatch(text, Success, wild);
    if Succeeds(b) {
      var room' := room.Receive(id, text, wild).0;
      ParseStoresSized(text, wild);
      forall c | c in room.clients && c in room.open && c !in left
        ensures ReadsExactly(ViewIn(room', c, wild), room'.messages, c in informed)
      {
        ParsedChunk(room.clients[c], text, wild);
        assert ReadsExactly(Sees(b.messages), b.messages, true) by { ReadsItself(b.messages); }
        HeardExactly(room, room', c, text, b.messages, c in informed, true, wild);
      }
    }
  }

  lemma CloseIsExact(room: Room, left: set<SessionId>, informed: set<SessionId>, id: SessionId, wild: Wild)
    requires Exact(room, left, informed, wild)
    ensures Exact(room.OnClose(id).0, left + {id}, InformedBy(room, CloseFrame(id), informed), wild)
  {
    hide ViewOf, ClientReads, SerializeBatch, ParseBatch, ReadsExactly;
    hide ValidMessage;
    if id in room.open && id in room.clients {
      var m := LeaveMessage(room.clients[id]);
      var room' := room.OnClose(id).0;
      forall c | c in room.clients && c in room.open && c !in left + {id}
        ensures ReadsExactly(ViewIn(room', c, wild), room'.messages, c in informed && ValidMessage(m))
      {
        ServerChunkExactly(room.clients[c], m, wild);
        HeardExactly(room, room', c, SerializeBatch([m]), [m], c in informed, ValidMessage(m), wild);
      }
    }
  }

  lemma StepIsExact(room: Room, left: set<SessionId>, informed: set<SessionId>, e: Event, wild: Wild)
    requires Exact(room, left, informed, wild) && JoinsOnce(room, e)
    ensures Exact(Step(room, e, wild).0, left + Leaves(e), InformedBy(room, e, informed), wild)
  {
    hide ViewOf, ParseBatch, Room.Join, Room.Receive, Room.OnClose, ReadsExactly, ValidBatch, ValidMessage;
    assert left + {} == left;
    match e
    case Connect(id) =>
      var room' := Step(room, e, wild).0;
      assert forall c :: c in room.clients ==>
               Registered(room', c) && ViewIn(room', c, wild) == ViewIn(room, c, wild);
    case Disconnect(id) =>
      var room' := Step(room, e, wild).0;
      assert forall c :: c in room.clients ==>
               Registered(room', c) && ViewIn(room', c, wild) == ViewIn(room, c, wild);
    case Accepted(id) =>
      var room' := Step(room, e, wild).0;
      assert forall c :: c in room.clients ==>
               Registered(room', c) && ViewIn(room', c, wild) == ViewIn(room, c, wild);
    case Incoming(id, text) =>
      if NAME_PREFIX <= text {
        var name := text[|NAME_PREFIX|..];
        assert text == NAME_PREFIX + name;
        JoinIsExact(room, left, informed, id, name, wild);
      } else {
        ReceiveIsExact(room, left, informed, id, text, wild);
      }
    case CloseFrame(id) => CloseIsExact(room, left, informed, id, wild);
  }

  lemma EmptyRoomExact(wild: Wild)
    ensures Exact(EMPTY_ROOM, {}, {}, wild)
  {
  }

  lemma {:induction false} ExactInRuns(es: seq<Event>, wild: Wild)
    requires JoinsOnceRun(es, wild)
    ensures Exact(After(es, wild), Left(es), Informed(es, wild), wild)
  {
    hide Exact, InformedBy, JoinsOnce, Step;
    if es == [] {
      assert Exact(EMPTY_ROOM, {}, {}, wild) by { EmptyRoomExact(wild); }
    } else {
      ExactInRuns(Before(es), wild);
      StepIsExact(After(Before(es), wild), Left(Before(es)), Informed(Before(es), wild), Last(es), wild);
    }
  }

  /** The exact condition: in every run in which each session joins once, a joined client whose socket
      is open and who has not left sees the log if and only if the log at its join was a valid batch
      and every entry the server has added since for a join or a leave is a valid message. */
  lemma ClientSeesLogExactlyWhen(es: seq<Event>, id: SessionId, wild: Wild)
    requires JoinsOnceRun(es, wild)
    requires id in After(es, wild).clients && id in After(es, wild).open && id !in Left(es)
    ensures Registered(After(es, wild), id)
    ensures SeesLog(After(es, wild), id, wild) <==> id in Informed(es, wild)
  {
    hide After, Left, Informed, ViewOf;
    ExactInRuns(es, wild);
  }

  // ---- where it fails ----

  /** The log only grows. */
  lemma LogGrows(room: Room, e: Event, wild: Wild)
    ensures room.messages <= Step(room, e, wild).0.messages
  {
    hide ParseBatch, SerializeBatch;
  }

  /** Event `n` is the leave of a joined client whose name holds a ':'. */
  ghost predicate ColonLeaves(es: seq<Event>, n: nat, wild: Wild) {
    && n < |es| && es[n].CloseFrame?
    && var room := After(es[..n], wild);
    && es[n].id in room.open && es[n].id in room.clients && ':' in room.clients[es[n].id]
  }

  ghost predicate Spoilt(ms: seq<Message>) {
    exists m :: m in ms && !ValidMessage(m)
  }

  lemma SpoiltOneMore(room: Room, e: Event, wild: Wild)
    requires Spoilt(room.messages)
    ensures Spoilt(Step(room, e, wild).0.messages) && InformedBy(room, e, {}) == {}
  {
    hide Step, ValidMessage;
    LogGrows(room, e, wild);
    var m :| m in room.messages && !ValidMessage(m);
    assert m in Step(room, e, wild).0.messages;
    if e.Incoming? && NAME_PREFIX <= e.text {
      assert m in room.messages + [JoinMessage(e.text[|NAME_PREFIX|..])];
    }
  }

  lemma ColonLeaveSpoils(room: Room, id: SessionId, informed: set<SessionId>, wild: Wild)
    requires id in room.open && id in room.clients && ':' in room.clients[id]
    ensures Spoilt(Step(room, CloseFrame(id), wild).0.messages) && InformedBy(room, CloseFrame(id), informed) == {}
  {
    hide SerializeBatch;
    assert LeaveMessage(room.clients[id]) in Step(room, CloseFrame(id), wild).0.messages;
  }

  lemma {:induction false} SpoiltForGood(es: seq<Event>, n: nat, wild: Wild)
    requires ColonLeaves(es, n, wild)
    ensures Spoilt(After(es, wild).messages) && Informed(es, wild) == {}
    decreases |es|
  {
    hide Step, InformedBy, Spoilt;
    if n == |es| - 1 {
      ColonLeaveSpoils(After(Before(es), wild), es[n].id, Informed(Before(es), wild), wild);
    } else {
      assert Before(es)[..n] == es[..n];
      SpoiltForGood(Before(es), n, wild);
      SpoiltOneMore(After(Before(es), wild), Last(es), wild);
    }
  }

  /** Once a client whose name holds a ':' has left, nobody ever sees the log again, neither those who
      are there nor those who join later. */
  lemma ColonNameSpoilsViews(es: seq<Event>, n: nat, id: SessionId, wild: Wild)
    requires JoinsOnceRun(es, wild) && ColonLeaves(es, n, wild)
    requires id in After(es, wild).clients && id in After(es, wild).open && id !in Left(es)
    ensures Registered(After(es, wild), id) && !SeesLog(After(es, wild), id, wild)
  {
    hide After, Left, ViewOf, ColonLeaves;
    SpoiltForGood(es, n, wild);
    ClientSeesLogExactlyWhen(es, id, wild);
  }

  /** Such a run: a client named "a:b" leaves while another one is there. */
  const COLON_RUN: seq<Event> :=
    [Connect(1), Incoming(1, "My name is a:b"), Connect(2), Incoming(2, "My name is c"), CloseFrame(1)]

  lemma JoinsAs(room: Room, id: SessionId, text: string, name: string, wild: Wild)
    requires text == NAME_PREFIX + name && id !in room.clients && |room.messages| + 1 < INT_LIMIT
    ensures var room' := Step(room, Incoming(id, text), wild).0;
            && room'.clients == room.clients[id := name] && room'.open == room.open
            && |room'.messages| == |room.messages| + 1
  {
    hide SerializeBatch;
    assert text[|NAME_PREFIX|..] == name;
  }

  lemma OneMoreEvent(es: seq<Event>, e: Event, wild: Wild)
    ensures After(es + [e], wild) == Step(After(es, wild), e, wild).0
    ensures JoinsOnceRun(es + [e], wild) <==> JoinsOnceRun(es, wild) && JoinsOnce(After(es, wild), e)
    ensures Left(es + [e]) == Left(es) + Leaves(e)
  {
    hide Step, JoinsOnce;
    assert Before(es + [e]) == es;
  }

  lemma EmptyRun(wild: Wild)
    ensures After([], wild) == EMPTY_ROOM && JoinsOnceRun([], wild) && Left([]) == {}
  {
  }

  lemma ColonRun(wild: Wild)
    ensures JoinsOnceRun(COLON_RUN, wild) && ColonLeaves(COLON_RUN, 4, wild)
    ensures 2 in After(COLON_RUN, wild).clients && 2 in After(COLON_RUN, wild).open && 2 !in Left(COLON_RUN)
  {
    hide After, JoinsOnceRun, Left, Room.OnMessage, SerializeBatch;
    var es1 := [] + [Connect(1)];
    var es2 := es1 + [Incoming(1, "My name is a:b")];
    var es3 := es2 + [Connect(2)];
    var es4 := es3 + [Incoming(2, "My name is c")];
    assert COLON_RUN == es4 + [CloseFrame(1)] && COLON_RUN[..4] == es4;
    EmptyRun(wild);
    OneMoreEvent([], Connect(1), wild);
    OneMoreEvent(es1, Incoming(1, "My name is a:b"), wild);
    JoinsAs(After(es1, wild), 1, "My name is a:b", "a:b", wild);
    OneMoreEvent(es2, Connect(2), wild);
    OneMoreEvent(es3, Incoming(2, "My name is c"), wild);
    JoinsAs(After(es3, wild), 2, "My name is c", "c", wild);
    OneMoreEvent(es4, CloseFrame(1), wild);
    assert "a:b"[1] == ':';
  }
}
