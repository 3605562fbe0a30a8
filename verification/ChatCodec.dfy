/** What the chat format promises: every result is about all inputs, all trailing bytes and
    every behaviour `wild` of an overflowing `atoi`. */
module ChatCodec {
  import opened Numerals
  import opened ChatMessage

  /** Counts and lengths that `atoi` can hold. */
  ghost predicate IntSized(ms: seq<Message>) {
    |ms| < INT_LIMIT && forall m :: m in ms ==> |m.payload| < INT_LIMIT
  }

  ghost predicate ValidMessage(m: Message) {
    0 < |m.payload| < INT_LIMIT && ':' !in m.nickname
  }

  ghost predicate ValidMessages(ms: seq<Message>) {
    forall m :: m in ms ==> ValidMessage(m)
  }

  /** The domain on which the format is self-delimiting. */
  ghost predicate ValidBatch(ms: seq<Message>) {
    0 < |ms| < INT_LIMIT && ValidMessages(ms)
  }

  predicate Succeeds(b: Batch) {
    b.outcome.Returned? && b.outcome.ec == Success
  }

  // ---- sizes ----

  lemma {:induction false} RecordsSizeIsLength(ms: seq<Message>)
    ensures |SerializeRecords(ms)| == RecordsSize(ms)
  {
    if ms != [] { RecordsSizeIsLength(ms[1..]); }
  }

  lemma BatchSize(ms: seq<Message>)
    ensures |SerializeBatch(ms)| == InvSize(|ms|) + RecordsSize(ms)
  {
    RecordsSizeIsLength(ms);
  }

  lemma {:induction false} RecordsConcat(a: seq<Message>, b: seq<Message>)
    ensures SerializeRecords(a + b) == SerializeRecords(a) + SerializeRecords(b)
    ensures RecordsSize(a + b) == RecordsSize(a) + RecordsSize(b)
  {
    if a == [] {
      assert a + b == b;
    } else {
      assert (a + b)[1..] == a[1..] + b;
      RecordsConcat(a[1..], b);
    }
  }

  // ---- round trip ----

  function IndexOf(s: string): (i: nat)
    requires ':' in s
    ensures i < |s| && s[i] == ':'
  {
    if s[0] == ':' then 0 else IndexOf(s[1..]) + 1
  }

  lemma MessageRoundTrip(m: Message, tail: string, wild: Wild)
    requires 0 < |m.payload| < INT_LIMIT
    ensures var r := ParseMessage(SerializeMessage(m) + tail, wild);
            && r.Accepted?
            && (ValidMessage(m) ==> r == Accepted(|SerializeMessage(m)|, m))
            && (r.value == m ==> ValidMessage(m))
  {
    var num := ToString(|m.payload|);
    ReadToString(|m.payload|, wild);
    var s := SerializeMessage(m) + tail;
    if ':' !in m.nickname {
      assert s == Record(num, m.nickname, m.payload + tail);
      RecordComposed(num, m.nickname, m.payload + tail, wild);
      assert Take(m.payload + tail, |m.payload|) == m.payload;
    } else {
      var after := m.nickname + (":" + m.payload + tail);
      assert s == MESSAGE_PREFIX + ":" + num + ":" + after;
      PrefixComposed(MESSAGE_PREFIX, num, after, wild);
      assert ':' == after[IndexOf(m.nickname)];
    }
  }

  lemma ZeroLengthRejected(m: Message, tail: string, wild: Wild)
    requires m.payload == ""
    ensures ParseMessage(SerializeMessage(m) + tail, wild) == Rejected(8, InvalidArgument)
  {
    var s := SerializeMessage(m) + tail;
    var after := m.nickname + ":" + m.payload + tail;
    assert s[..7] == MESSAGE_PREFIX;
    assert s[8..] == ToString(0) + ":" + after;
    AtoiOfToString(0);
    CutComposed(ToString(0), after);
  }

  lemma NothingSerialized()
    ensures SerializeRecords([]) == ""
  {
  }

  lemma OneSerialized(ms: seq<Message>)
    requires ms != []
    ensures SerializeRecords(ms) == SerializeMessage(ms[0]) + SerializeRecords(ms[1..])
  {
  }

  /** Reading `|ms|` records from where a batch's records stand gives them back, if and only if
      each of them is in the domain. */
  lemma {:induction false} RecordsRoundTrip(s: string, used: nat, ms: seq<Message>, tail: string, wild: Wild)
    requires IntSized(ms)
    requires used <= |s| && s[used..] == SerializeRecords(ms) + tail
    ensures var b := ParseRecords(s, used, |ms|, wild);
            && (ValidMessages(ms) ==> b == Batch(Returned(used + |SerializeRecords(ms)|, Success), ms))
            && (b.messages == ms ==> ValidMessages(ms))
    decreases |ms|
  {
    hide ParseMessage, SerializeMessage, ParseRecords, SerializeRecords;
    if ms == [] {
      NoRecord(s, used, wild);
      NothingSerialized();
    } else {
      var m, rest := ms[0], ms[1..];
      assert m in ms && ms == [m] + rest;
      OneSerialized(ms);
      OneRecord(s, used, |ms|, wild);
      var more := SerializeRecords(rest) + tail;
      assert s[used..] == SerializeMessage(m) + more;
      if m.payload == "" {
        ZeroLengthRejected(m, more, wild);
      } else {
        MessageRoundTrip(m, more, wild);
        if ValidMessage(m) {
          var next := used + |SerializeMessage(m)|;
          assert s[next..] == more;
          RecordsRoundTrip(s, next, rest, tail, wild);
          assert ParseRecords(s, next, |rest|, wild).messages == ParseRecords(s, used, |ms|, wild).messages[1..];
        } else {
          assert ParseRecords(s, used, |ms|, wild).messages[0] != m;
        }
      }
    }
  }

  /** The header of a serialized batch, read back whatever follows it. */
  lemma InvRoundTrip(count: nat, tail: string, wild: Wild)
    requires count < INT_LIMIT
    ensures ParseInv(SerializeInv(count) + tail, wild)
            == if count == 0 then Rejected(4, InvalidArgument) else Accepted(|SerializeInv(count)|, count)
  {
    var s := SerializeInv(count) + tail;
    assert s == INV_PREFIX + ":" + ToString(count) + ":" + tail;
    ReadToString(count, wild);
    assert s[..3] == INV_PREFIX;
    assert s[4..] == ToString(count) + ":" + tail;
    CutComposed(ToString(count), tail);
  }

  lemma SerializedInTwo(ms: seq<Message>)
    ensures SerializeBatch(ms) == SerializeInv(|ms|) + SerializeRecords(ms)
  {
  }

  lemma IntSizedCount(ms: seq<Message>)
    requires IntSized(ms)
    ensures |ms| < INT_LIMIT
  {
  }

  lemma HeaderThenRecords(s: string, wild: Wild)
    ensures var h := ParseInv(s, wild);
            ParseBatch(s, Success, wild)
            == if h.Accepted? then ParseRecords(s, h.read, h.value, wild) else Batch(Returned(h.read, h.ec), [])
  {
  }

  /** The round trip holds exactly on the domain: whatever bytes follow, parsing a serialized batch
      succeeds and gives that batch if and only if the batch is not empty, no payload is empty and
      no nickname holds a ':'. */
  lemma RoundTripExactlyOnDomain(ms: seq<Message>, tail: string, wild: Wild)
    requires IntSized(ms)
    ensures var b := ParseBatch(SerializeBatch(ms) + tail, Success, wild);
            && (Succeeds(b) && b.messages == ms <==> ValidBatch(ms))
            && (ValidBatch(ms) ==> b.outcome.used == |SerializeBatch(ms)|)
  {
    hide ParseInv, ParseBatch, ParseRecords, SerializeInv, SerializeRecords, SerializeBatch;
    hide RecordsSize, InvSize, ToString, ValidMessages, IntSized;
    var head := SerializeInv(|ms|);
    var more := SerializeRecords(ms) + tail;
    var s := SerializeBatch(ms) + tail;
    BatchSize(ms);
    SerializedInTwo(ms);
    assert s == head + more;
    assert |ms| < INT_LIMIT by { IntSizedCount(ms); }
    InvRoundTrip(|ms|, more, wild);
    HeaderThenRecords(s, wild);
    if |ms| > 0 {
      assert s[|head|..] == more;
      RecordsRoundTrip(s, |head|, ms, tail, wild);
      assert |head| + |SerializeRecords(ms)| == InvSize(|ms|) + RecordsSize(ms);
    }
  }

  /** Batch round trip under extension: for every batch of the domain and all trailing bytes, parsing
      gives just the batch, and uses just the bytes its serialization wrote. */
  lemma BatchRoundTrip(ms: seq<Message>, tail: string, wild: Wild)
    requires ValidBatch(ms)
    ensures ParseBatch(SerializeBatch(ms) + tail, Success, wild)
            == Batch(Returned(|SerializeBatch(ms)|, Success), ms)
  {
    hide ParseBatch, SerializeBatch;
    RoundTripExactlyOnDomain(ms, tail, wild);
  }

  /** Unique decodability: no batch's encoding is a prefix of another batch's, and none is shared. */
  lemma UniquelyDecodable(a: seq<Message>, b: seq<Message>)
    requires ValidBatch(a) && ValidBatch(b)
    requires SerializeBatch(a) <= SerializeBatch(b)
    ensures a == b
  {
    hide SerializeBatch, ParseBatch, InvSize, RecordsSize;
    var s := SerializeBatch(b);
    var tail := s[|SerializeBatch(a)|..];
    var wild: Wild := _ => 0;
    assert s == SerializeBatch(a) + tail && s == s + "";
    BatchRoundTrip(a, tail, wild);
    BatchRoundTrip(b, "", wild);
  }

  // ---- truncation ----

  /** `got` is what a batch looks like when the text ends early: whole messages, and possibly a
      last one whose payload is cut short. */
  ghost predicate CutShort(got: seq<Message>, ms: seq<Message>) {
    && 0 < |got| <= |ms| && got[..|got| - 1] == ms[..|got| - 1]
    && got[|got| - 1].nickname == ms[|got| - 1].nickname
    && got[|got| - 1].payload < ms[|got| - 1].payload
  }

  /** The length of a record in front of its payload. */
  function FrontSize(m: Message): nat {
    7 + |ToString(|m.payload|)| + |m.nickname| + 3
  }

  lemma TruncatedPrefix(prefix: string, num: string, p: string, wild: Wild)
    requires ':' !in num
    requires p <= prefix + ":" + num
    ensures var r := ParsePrefix(prefix, p, wild); r.Bad? && r.ec == BadMessage
  {
    var n := |prefix|;
    var whole := prefix + ":" + num;
    if |p| >= n + 1 {
      assert p[..n] == whole[..n] == prefix;
      assert p[n] == whole[n] == ':';
      assert p[n + 1..] == num[..|p| - n - 1];
      assert forall c :: c in num[..|p| - n - 1] ==> c in num;
      NoColonCut(p[n + 1..]);
    }
  }

  /** The byte count with which a record is rejected of which only `k` bytes, none of its payload, are
      left. */
  function FrontRead(m: Message, k: nat): nat {
    if k < 8 then 0 else if k <= 8 + |ToString(|m.payload|)| then 8 else 9 + |ToString(|m.payload|)|
  }

  /** A record cut in front of its payload is rejected; one cut within it keeps what is left of it. */
  lemma TruncatedMessage(m: Message, p: string, wild: Wild)
    requires ValidMessage(m) && p < SerializeMessage(m)
    ensures var r := ParseMessage(p, wild);
            var kept := |p| - FrontSize(m);
            && (kept < 0 ==> r == Rejected(FrontRead(m, |p|), BadMessage))
            && (kept >= 0 ==> r == Accepted(MessageSize(m), Message(m.payload[..kept], m.nickname)))
  {
    hide CutAtColon, ToString;
    var num := ToString(|m.payload|);
    ReadToString(|m.payload|, wild);
    var front := MESSAGE_PREFIX + ":" + num;
    var u := m.nickname + ":" + m.payload;
    assert SerializeMessage(m) == front + (":" + u);
    if |p| <= |front| {
      assert p == front[..|p|];
      TruncatedPrefix(MESSAGE_PREFIX, num, p, wild);
    } else {
      var q := u[..|p| - |front| - 1];
      assert p == front + ":" + q;
      PrefixComposed(MESSAGE_PREFIX, num, q, wild);
      if |q| <= |m.nickname| {
        assert q == m.nickname[..|q|];
        assert forall c :: c in m.nickname[..|q|] ==> c in m.nickname;
        NoColonCut(q);
      } else {
        var body := m.payload[..|q| - |m.nickname| - 1];
        assert q == m.nickname + ":" + body;
        CutComposed(m.nickname, body);
        assert |body| == |p| - FrontSize(m) && Take(body, |m.payload|) == body;
      }
    }
  }

  /** What a parse gives when record `i`, which starts at `start`, is cut behind `k` bytes; `end` is the
      length of the whole text. */
  ghost predicate CutAtRecord(b: Batch, ms: seq<Message>, i: nat, start: nat, k: nat, end: nat)
    requires i < |ms|
  {
    var kept := k - FrontSize(ms[i]);
    if kept < 0 then
      b == Batch(Returned(start + FrontRead(ms[i], k), BadMessage), ms[..i])
    else
      && kept < |ms[i].payload|
      && b.messages == ms[..i] + [Message(ms[i].payload[..kept], ms[i].nickname)]
      && b.outcome == if i + 1 == |ms| then Returned(end, Success) else OutOfRange
  }

  lemma OneRecordSize(m: Message)
    ensures |SerializeMessage(m)| == MessageSize(m) == FrontSize(m) + |m.payload|
  {
  }

  /** A record that runs past the end is the last to be read. */
  lemma RunsPastTheEnd(s: string, used: nat, count: nat, wild: Wild)
    requires used <= |s| && count > 0
    requires var r := ParseMessage(s[used..], wild); r.Accepted? ==> used + r.read > |s|
    ensures var b := ParseRecords(s, used, count, wild);
            var r := ParseMessage(s[used..], wild);
            if r.Rejected? then b == Batch(Returned(used + r.read, r.ec), [])
            else b == Batch(if count == 1 then Returned(used + r.read, Success) else OutOfRange, [r.value] + [])
  {
    hide ParseMessage, ParseRecords;
    OneRecord(s, used, count, wild);
    var r := ParseMessage(s[used..], wild);
    if r.Accepted? {
      if count > 1 { OneRecord(s, used + r.read, count - 1, wild); } else { NoRecord(s, used + r.read, wild); }
    }
  }

  lemma LastRecordSize(ms: seq<Message>)
    ensures |ms| == 1 ==> RecordsSize(ms) == MessageSize(ms[0])
  {
  }

  lemma FirstRecordCut(s: string, used: nat, ms: seq<Message>, wild: Wild)
    requires used <= |s| && ms != [] && ValidMessage(ms[0]) && s[used..] < SerializeMessage(ms[0])
    ensures CutAtRecord(ParseRecords(s, used, |ms|, wild), ms, 0, used, |s| - used, used + RecordsSize(ms))
  {
    hide ParseMessage, SerializeMessage, ParseRecords, FrontSize, FrontRead, MessageSize, RecordsSize, ToString;
    var m, p := ms[0], s[used..];
    assert |p| == |s| - used;
    OneRecordSize(m);
    TruncatedMessage(m, p, wild);
    RunsPastTheEnd(s, used, |ms|, wild);
    LastRecordSize(ms);
    assert ms[..0] == [];
    var r := ParseMessage(p, wild);
    if r.Accepted? { assert [r.value] + [] == ms[..0] + [r.value]; }
  }

  lemma WholeRecordFirst(m: Message, rest: seq<Message>, inner: Batch, i: nat, start: nat, k: nat, end: nat)
    requires 0 < i <= |rest| && CutAtRecord(inner, rest, i - 1, start, k, end)
    ensures CutAtRecord(Batch(inner.outcome, [m] + inner.messages), [m] + rest, i, start, k, end)
  {
    assert ([m] + rest)[..i] == [m] + rest[..i - 1];
  }

  /** Reading on behind a record that is there in full. */
  lemma ReadsWholeRecord(s: string, used: nat, ms: seq<Message>, wild: Wild)
    requires used <= |s| && ms != [] && ValidMessage(ms[0])
    requires SerializeMessage(ms[0]) <= s[used..] <= SerializeRecords(ms)
    ensures var next := used + MessageSize(ms[0]);
            && next <= |s| && s[next..] <= SerializeRecords(ms[1..])
            && var inner := ParseRecords(s, next, |ms| - 1, wild);
               ParseRecords(s, used, |ms|, wild) == Batch(inner.outcome, [ms[0]] + inner.messages)
  {
    hide ParseMessage, SerializeMessage, ParseRecords, SerializeRecords, MessageSize;
    var text, p := SerializeMessage(ms[0]), s[used..];
    OneRecordSize(ms[0]);
    OneSerialized(ms);
    assert p == text + p[|text|..];
    MessageRoundTrip(ms[0], p[|text|..], wild);
    OneRecord(s, used, |ms|, wild);
    assert s[used + |text|..] == p[|text|..];
    assert SerializeRecords(ms)[|text|..] == SerializeRecords(ms[1..]);
  }

  lemma RecordsSizeOneMore(ms: seq<Message>, i: nat)
    requires 0 < i <= |ms|
    ensures RecordsSize(ms[..i]) == MessageSize(ms[0]) + RecordsSize(ms[1..][..i - 1])
  {
    assert ms[..i][1..] == ms[1..][..i - 1];
  }

  lemma NoRecordsSize()
    ensures RecordsSize([]) == 0
  {
  }

  lemma {:induction false} CutRecords(s: string, used: nat, ms: seq<Message>, i: nat, wild: Wild)
    requires used <= |s| && ValidMessages(ms) && i < |ms| && s[used..] <= SerializeRecords(ms)
    requires RecordsSize(ms[..i]) <= |s| - used < RecordsSize(ms[..i + 1])
    ensures CutAtRecord(ParseRecords(s, used, |ms|, wild), ms, i, used + RecordsSize(ms[..i]),
                        |s| - used - RecordsSize(ms[..i]), used + RecordsSize(ms))
    decreases i
  {
    hide ParseMessage, SerializeMessage, ParseRecords, SerializeRecords, MessageSize, FrontSize, FrontRead;
    hide CutAtRecord, RecordsSize, ValidMessage;
    var m, rest := ms[0], ms[1..];
    assert m in ms && ms == [m] + rest;
    OneRecordSize(m);
    OneSerialized(ms);
    RecordsSizeOneMore(ms, i + 1);
    RecordsSizeOneMore(ms, |ms|);
    NoRecordsSize();
    assert ms[..|ms|] == ms && rest[..|rest|] == rest;
    var text, p := SerializeMessage(m), s[used..];
    if i == 0 {
      assert ms[..0] == [] && rest[..0] == [];
      assert p == text[..|p|];
      FirstRecordCut(s, used, ms, wild);
    } else {
      RecordsSizeOneMore(ms, i);
      assert p == text + p[|text|..];
      ReadsWholeRecord(s, used, ms, wild);
      var next := used + MessageSize(m);
      CutRecords(s, next, rest, i - 1, wild);
      WholeRecordFirst(m, rest, ParseRecords(s, next, |rest|, wild), i,
                       used + RecordsSize(ms[..i]), |s| - used - RecordsSize(ms[..i]), used + RecordsSize(ms));
    }
  }

  /** Where record `i` of a batch's text starts. */
  function StartOf(ms: seq<Message>, i: nat): nat
    requires i <= |ms|
  {
    InvSize(|ms|) + RecordsSize(ms[..i])
  }

  lemma HeaderSize(count: nat)
    ensures |SerializeInv(count)| == InvSize(count)
  {
  }

  lemma CutHeader(count: nat, p: string, wild: Wild)
    requires count < INT_LIMIT && p < SerializeInv(count)
    ensures ParseInv(p, wild) == Rejected(if |p| < 4 then 0 else 4, BadMessage)
  {
    var whole := INV_PREFIX + ":" + ToString(count);
    assert SerializeInv(count) == whole + ":";
    ReadToString(count, wild);
    assert p == whole[..|p|];
    TruncatedPrefix(INV_PREFIX, ToString(count), p, wild);
    if |p| >= 4 { assert p[..3] == whole[..3] == INV_PREFIX && p[3] == whole[3]; }
  }

  /** Exact truncation: a text cut in its header gives a bad message and nothing else; one cut in
      record `i` gives the records before it, and then either a bad message, if the cut is in front of
      the payload, or record `i` with the payload that is left and success or `out_of_range` according
      as it is the last record or not. */
  lemma TruncationExactly(ms: seq<Message>, n: nat, wild: Wild)
    requires ValidBatch(ms) && n < |SerializeBatch(ms)|
    ensures var b := ParseBatch(SerializeBatch(ms)[..n], Success, wild);
            && (n < StartOf(ms, 0) ==> b == Batch(Returned(if n < 4 then 0 else 4, BadMessage), []))
            && forall i :: 0 <= i < |ms| && StartOf(ms, i) <= n < StartOf(ms, i + 1) ==>
                 CutAtRecord(b, ms, i, StartOf(ms, i), n - StartOf(ms, i), |SerializeBatch(ms)|)
  {
    hide ParseInv, ParseRecords, SerializeInv, SerializeRecords, FrontSize, CutAtRecord;
    var s := SerializeBatch(ms);
    var p := s[..n];
    var head := |SerializeInv(|ms|)|;
    assert head == InvSize(|ms|) by { HeaderSize(|ms|); }
    BatchSize(ms);
    assert ms[..0] == [];
    if n < head {
      CutHeader(|ms|, p, wild);
    } else {
      assert p == SerializeInv(|ms|) + p[head..];
      InvRoundTrip(|ms|, p[head..], wild);
      assert s[head..] == SerializeRecords(ms);
      forall i | 0 <= i < |ms| && StartOf(ms, i) <= n < StartOf(ms, i + 1)
        ensures CutAtRecord(ParseBatch(p, Success, wild), ms, i, StartOf(ms, i), n - StartOf(ms, i), |s|)
      {
        CutRecords(p, head, ms, i, wild);
      }
    }
    forall i | 0 <= i < |ms| ensures StartOf(ms, i) >= InvSize(|ms|) { }
  }

  /** Every cut behind the header falls into one of the records. */
  lemma {:induction false} SomeRecordIsCut(ms: seq<Message>, k: nat)
    requires k < RecordsSize(ms)
    ensures exists i :: 0 <= i < |ms| && RecordsSize(ms[..i]) <= k < RecordsSize(ms[..i + 1])
  {
    hide MessageSize;
    var m, rest := ms[0], ms[1..];
    assert ms[..0] == [] && ms[..1] == [m] && [m][1..] == [];
    if k < MessageSize(m) {
      assert RecordsSize(ms[..0]) <= k < RecordsSize(ms[..0 + 1]);
    } else {
      SomeRecordIsCut(rest, k - MessageSize(m));
      var i :| 0 <= i < |rest|
               && RecordsSize(rest[..i]) <= k - MessageSize(m) < RecordsSize(rest[..i + 1]);
      assert ms[..i + 1][1..] == rest[..i] && ms[..i + 2][1..] == rest[..i + 1];
      assert RecordsSize(ms[..i + 1]) <= k < RecordsSize(ms[..(i + 1) + 1]);
    }
  }

  /** The three ways a cut batch can end, each with what the message list then holds. */
  ghost predicate TruncationOutcome(b: Batch, ms: seq<Message>) {
    match b.outcome
    case Returned(_, Success) => b.messages == ms || (|b.messages| == |ms| && CutShort(b.messages, ms))
    case Returned(_, BadMessage) => |b.messages| < |ms| && b.messages == ms[..|b.messages|]
    case Returned(_, InvalidArgument) => false
    case OutOfRange => |b.messages| < |ms| && CutShort(b.messages, ms)
  }

  lemma CutIsSafe(b: Batch, ms: seq<Message>, i: nat, start: nat, k: nat, end: nat)
    requires i < |ms| && CutAtRecord(b, ms, i, start, k, end)
    ensures TruncationOutcome(b, ms)
  {
    if k >= FrontSize(ms[i]) {
      assert b.messages[..i] == ms[..i];
      assert b.messages[i].payload < ms[i].payload;
    }
  }

  /** Truncation safety: for every prefix of a valid batch's text, the messages stored are a prefix
      of the batch, the last one possibly with its payload cut short; the parse succeeds only
      with as many messages as were sent, runs out of range only behind a cut payload that is not
      the last, and otherwise reports a bad message -- never an invalid argument. */
  lemma TruncationSafety(ms: seq<Message>, n: nat, wild: Wild)
    requires ValidBatch(ms) && n <= |SerializeBatch(ms)|
    ensures TruncationOutcome(ParseBatch(SerializeBatch(ms)[..n], Success, wild), ms)
  {
    hide ParseBatch, SerializeBatch, CutAtRecord, InvSize, RecordsSize, FrontSize;
    var s := SerializeBatch(ms);
    BatchSize(ms);
    assert ms[..0] == [] && RecordsSize([]) == 0 by { NoRecordsSize(); }
    if n == |s| {
      BatchRoundTrip(ms, "", wild);
      assert s[..n] == s + "";
    } else {
      TruncationExactly(ms, n, wild);
      if n >= StartOf(ms, 0) {
        SomeRecordIsCut(ms, n - InvSize(|ms|));
        var i :| 0 <= i < |ms| && RecordsSize(ms[..i]) <= n - InvSize(|ms|) < RecordsSize(ms[..i + 1]);
        assert StartOf(ms, i) <= n < StartOf(ms, i + 1);
        CutIsSafe(ParseBatch(s[..n], Success, wild), ms, i, StartOf(ms, i), n - StartOf(ms, i), |s|);
      }
    }
  }

  // ---- arbitrary input ----

  /** What one accepted record says about the text it was read from. */
  lemma AcceptedRecord(s: string, wild: Wild)
    requires ParseMessage(s, wild).Accepted?
    ensures var Accepted(read, m) := ParseMessage(s, wild);
            && read >= 12 && |s| >= 11
            && ':' !in m.nickname && |m.payload| <= |s|
            && (read <= |s| && |m.payload| < INT_LIMIT ==>
                ValidMessage(m) && |SerializeMessage(m)| <= read)
  {
    PrefixShape(MESSAGE_PREFIX, s, wild);
    var Number(num, size, tail) := ParsePrefix(MESSAGE_PREFIX, s, wild);
    var Accepted(read, m) := ParseMessage(s, wild);
    if read <= |s| && |m.payload| < INT_LIMIT {
      assert |m.payload| == size;
      ToStringShortest(num, wild);
    }
  }

  lemma AcceptedHeader(s: string, wild: Wild)
    requires ParseInv(s, wild).Accepted?
    ensures var Accepted(read, count) := ParseInv(s, wild);
            count < INT_LIMIT ==> |SerializeInv(count)| <= read
  {
    PrefixShape(INV_PREFIX, s, wild);
    var Number(num, count, tail) := ParsePrefix(INV_PREFIX, s, wild);
    if count < INT_LIMIT { ToStringShortest(num, wild); }
  }

  lemma {:induction false} RecordsNeedBytes(s: string, used: nat, count: nat, wild: Wild)
    ensures var k := |ParseRecords(s, used, count, wild).messages|;
            k <= count && (k >= 1 ==> |s| >= used + 12 * k - 1)
    decreases count
  {
    hide ParseMessage;
    if count > 0 && used <= |s| {
      var r := ParseMessage(s[used..], wild);
      if r.Accepted? {
        AcceptedRecord(s[used..], wild);
        RecordsNeedBytes(s, used + r.read, count - 1, wild);
      }
    }
  }

  /** Bounded work despite a lying count: on every input, however the parse ends, the number of
      messages stored is bounded by the input's length, independently of the declared count. */
  lemma BoundedWork(s: string, ec: ErrorCode, wild: Wild)
    ensures var k := |ParseBatch(s, ec, wild).messages|; k >= 1 ==> |s| >= 12 * k + 5
  {
    match ParseInv(s, wild)
    case Rejected(_, _) =>
    case Accepted(read, count) => RecordsNeedBytes(s, read, count, wild);
  }

  /** Where the reader stands after `k` records parsed one behind the other, if they all parse. */
  datatype Place = Nowhere | Somewhere(at: nat)

  function PlaceAfter(s: string, from: nat, k: nat, wild: Wild): Place
    decreases k
  {
    if k == 0 then Somewhere(from)
    else if from > |s| then Nowhere
    else
      match ParseMessage(s[from..], wild)
      case Rejected(_, _) => Nowhere
      case Accepted(read, _) => PlaceAfter(s, from + read, k - 1, wild)
  }

  /** `k` records parse and the last of them declares more payload than the text still has. */
  ghost predicate Overshoots(s: string, from: nat, k: nat, wild: Wild) {
    match PlaceAfter(s, from, k, wild)
    case Nowhere => false
    case Somewhere(at) => at > |s|
  }

  lemma {:induction false} RecordsThrow(s: string, from: nat, count: nat, wild: Wild)
    requires from <= |s|
    ensures var b := ParseRecords(s, from, count, wild);
            && (b.outcome.OutOfRange? <==>
                exists k: nat :: 0 < k < count && Overshoots(s, from, k, wild))
            && (b.outcome.OutOfRange? ==>
                0 < |b.messages| < count && Overshoots(s, from, |b.messages|, wild))
            && (b.outcome.Returned? && b.outcome.ec != Success ==> b.outcome.used <= |s|)
            && (Succeeds(b) ==>
                |b.messages| == count && PlaceAfter(s, from, count, wild) == Somewhere(b.outcome.used))
    decreases count
  {
    hide ParseMessage;
    if count > 0 {
      var r := ParseMessage(s[from..], wild);
      if r.Accepted? {
        var next := from + r.read;
        forall k: nat | k > 0
          ensures PlaceAfter(s, from, k, wild) == PlaceAfter(s, next, k - 1, wild)
        {
        }
        if next <= |s| {
          RecordsThrow(s, next, count - 1, wild);
          if exists k: nat :: 0 < k < count && Overshoots(s, from, k, wild) {
            var k: nat :| 0 < k < count && Overshoots(s, from, k, wild);
            assert k - 1 > 0 && Overshoots(s, next, k - 1, wild);
          }
          var b := ParseRecords(s, next, count - 1, wild);
          if b.outcome.OutOfRange? {
            assert Overshoots(s, from, |b.messages| + 1, wild);
          }
        } else {
          assert PlaceAfter(s, from, 1, wild) == Somewhere(next);
          if count == 1 {
          } else {
            assert Overshoots(s, from, 1, wild);
          }
        }
      } else {
        forall k: nat | 0 < k ensures !Overshoots(s, from, k, wild) { }
      }
    }
  }

  /** Exact throw condition: the parse throws `out_of_range` if and only if the header and some
      number of records below the count parse and the last of these runs past the end. A parse
      that reports an error never claims to have used more than the input, and one that succeeds
      does so only if its last record runs past the end. */
  lemma ThrowsExactlyWhen(s: string, wild: Wild)
    ensures var b := ParseBatch(s, Success, wild);
            var h := ParseInv(s, wild);
            && (b.outcome.OutOfRange? <==>
                h.Accepted? && exists k: nat :: 0 < k < h.value && Overshoots(s, h.read, k, wild))
            && (b.outcome.OutOfRange? ==> Overshoots(s, h.read, |b.messages|, wild))
            && (b.outcome.Returned? && b.outcome.ec != Success ==> b.outcome.used <= |s|)
            && (Succeeds(b) ==>
                  && |b.messages| == h.value
                  && (b.outcome.used > |s| <==> Overshoots(s, h.read, h.value, wild)))
  {
    var h := ParseInv(s, wild);
    if h.Accepted? { RecordsThrow(s, h.read, h.value, wild); }
  }

  // ---- canonical form ----

  lemma {:induction false} PlacesAdvance(s: string, from: nat, count: nat, wild: Wild)
    ensures var b := ParseRecords(s, from, count, wild);
            b.outcome.Returned? ==> b.outcome.used >= from
    decreases count
  {
    hide ParseMessage;
    if count > 0 && from <= |s| {
      var r := ParseMessage(s[from..], wild);
      if r.Accepted? { PlacesAdvance(s, from + r.read, count - 1, wild); }
    }
  }

  lemma {:induction false} RecordsCanonical(s: string, from: nat, count: nat, wild: Wild)
    requires var b := ParseRecords(s, from, count, wild);
             && Succeeds(b) && b.outcome.used <= |s|
             && forall m :: m in b.messages ==> |m.payload| < INT_LIMIT
    ensures var b := ParseRecords(s, from, count, wild);
            && |b.messages| == count && ValidMessages(b.messages)
            && from + |SerializeRecords(b.messages)| <= b.outcome.used
    decreases count
  {
    hide ParseMessage, SerializeMessage;
    if count > 0 {
      var b := ParseRecords(s, from, count, wild);
      var r := ParseMessage(s[from..], wild);
      var inner := ParseRecords(s, from + r.read, count - 1, wild);
      assert b.messages == [r.value] + inner.messages;
      PlacesAdvance(s, from + r.read, count - 1, wild);
      AcceptedRecord(s[from..], wild);
      assert r.value in b.messages;
      assert forall m :: m in inner.messages ==> m in b.messages;
      RecordsCanonical(s, from + r.read, count - 1, wild);
    }
  }

  /** Canonicalisation: whatever zeros, signs, spaces or trailing junk the number fields held, the
      messages of a successful untruncated parse are in the round-trip domain, and serializing
      them again gives text no longer than what was read, which parses to the same messages. */
  lemma Canonicalisation(s: string, wild: Wild)
    requires var b := ParseBatch(s, Success, wild);
             && Succeeds(b) && b.outcome.used <= |s|
             && IntSized(b.messages)
    ensures var b := ParseBatch(s, Success, wild);
            && ValidBatch(b.messages)
            && |SerializeBatch(b.messages)| <= b.outcome.used
            && ParseBatch(SerializeBatch(b.messages), Success, wild)
               == Batch(Returned(|SerializeBatch(b.messages)|, Success), b.messages)
  {
    hide ParseInv, SerializeInv, SerializeRecords, ParseRecords;
    var b := ParseBatch(s, Success, wild);
    var h := ParseInv(s, wild);
    AcceptedHeader(s, wild);
    RecordsCanonical(s, h.read, h.value, wild);
    RecordsSizeIsLength(b.messages);
    BatchSize(b.messages);
    BatchRoundTrip(b.messages, "", wild);
    assert SerializeBatch(b.messages) + "" == SerializeBatch(b.messages);
  }

  /** A parse that succeeds on text shorter than 2^31 bytes and stores no empty payload stores
      only messages in the round-trip domain. */
  lemma {:induction false} RecordsStoreValid(s: string, from: nat, count: nat, wild: Wild)
    requires |s| < INT_LIMIT
    requires forall m :: m in ParseRecords(s, from, count, wild).messages ==> m.payload != ""
    ensures ValidMessages(ParseRecords(s, from, count, wild).messages)
    decreases count
  {
    hide ParseMessage;
    if count > 0 && from <= |s| {
      var r := ParseMessage(s[from..], wild);
      if r.Accepted? {
        AcceptedRecord(s[from..], wild);
        var inner := ParseRecords(s, from + r.read, count - 1, wild).messages;
        var all := ParseRecords(s, from, count, wild).messages;
        assert all == [r.value] + inner;
        assert r.value in all;
        assert forall m :: m in inner ==> m in all;
        RecordsStoreValid(s, from + r.read, count - 1, wild);
      }
    }
  }

  lemma ParseStoresValid(s: string, ec: ErrorCode, wild: Wild)
    requires |s| < INT_LIMIT
    requires forall m :: m in ParseBatch(s, ec, wild).messages ==> m.payload != ""
    ensures ValidMessages(ParseBatch(s, ec, wild).messages)
  {
    var h := ParseInv(s, wild);
    if h.Accepted? && ec == Success { RecordsStoreValid(s, h.read, h.value, wild); }
  }
}
