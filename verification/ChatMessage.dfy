/** The chat wire format: a header `inv:N:` followed by N records
    `message:length:nickname:payload`.

    Functions specify the text written and what is read back, byte counts and error codes included;
    a grammar says independently which texts are records. The objects are in ChatObjects. */
module ChatMessage {
  import opened Numerals

  /** The error conditions a parse can leave in its `error_code`. */
  datatype ErrorCode = Success | BadMessage | InvalidArgument

  datatype Message = Message(payload: string, nickname: string)

  const MESSAGE_PREFIX := "message"
  const INV_PREFIX := "inv"

  // ---- writing ----

  function SerializeMessage(m: Message): string {
    MESSAGE_PREFIX + ":" + ToString(|m.payload|) + ":" + m.nickname + ":" + m.payload
  }

  function SerializeInv(count: nat): string {
    INV_PREFIX + ":" + ToString(count) + ":"
  }

  function SerializeRecords(ms: seq<Message>): string {
    if ms == [] then "" else SerializeMessage(ms[0]) + SerializeRecords(ms[1..])
  }

  function SerializeBatch(ms: seq<Message>): string {
    SerializeInv(|ms|) + SerializeRecords(ms)
  }

  function MessageSize(m: Message): nat {
    7 + |ToString(|m.payload|)| + |m.nickname| + |m.payload| + 3
  }

  function InvSize(count: nat): nat {
    3 + |ToString(count)| + 2
  }

  function RecordsSize(ms: seq<Message>): nat {
    if ms == [] then 0 else MessageSize(ms[0]) + RecordsSize(ms[1..])
  }

  // ---- reading ----

  /** The text before the first ':' and the text after it. */
  datatype Cut = NoColon | Cut(head: string, tail: string)

  function CutAtColon(s: string): (c: Cut)
    ensures c.NoColon? ==> ':' !in s
    ensures c.Cut? ==> ':' !in c.head && s == c.head + ":" + c.tail
  {
    if s == [] then NoColon
    else if s[0] == ':' then Cut("", s[1..])
    else
      match CutAtColon(s[1..])
      case NoColon => NoColon
      case Cut(h, t) => assert s == [s[0]] + s[1..]; Cut([s[0]] + h, t)
  }

  function Take(s: string, n: nat): string {
    s[..if n <= |s| then n else |s|]
  }

  /** `read` is the byte count the parse returns. */
  datatype Parsed<T> = Rejected(read: nat, ec: ErrorCode) | Accepted(read: nat, value: T)

  /** The part the two parsers share: the prefix, its ':' and a non-zero number up to the next ':'. */
  datatype Prefixed = Bad(read: nat, ec: ErrorCode) | Number(num: string, value: Uint32, tail: string)

  function ParsePrefix(prefix: string, s: string, wild: Wild): (r: Prefixed)
    ensures r.Bad? ==> r.ec != Success && r.read <= |s|
  {
    var n := |prefix|;
    if |s| < n + 1 then Bad(0, BadMessage)
    else if s[..n] != prefix then Bad(0, InvalidArgument)
    else if s[n] != ':' then Bad(n, BadMessage)
    else
      match CutAtColon(s[n + 1..])
      case NoColon => Bad(n + 1, BadMessage)
      case Cut(num, tail) =>
        var v := ReadUint32(num, wild);
        if v == 0 then Bad(n + 1, InvalidArgument) else Number(num, v, tail)
  }

  lemma EmptyIsZero(wild: Wild)
    ensures ReadUint32("", wild) == 0
  {
  }

  /** A prefixed number is accepted exactly when the text is the prefix, ':', a colon-free
      numeral that is not read as zero, ':' and anything. */
  lemma PrefixShape(prefix: string, s: string, wild: Wild)
    ensures ParsePrefix(prefix, s, wild).Number? ==>
              var Number(num, v, tail) := ParsePrefix(prefix, s, wild);
              && s == prefix + ":" + num + ":" + tail && ':' !in num && num != []
              && v == ReadUint32(num, wild) && v > 0
  {
    hide ReadUint32;
    if ParsePrefix(prefix, s, wild).Number? {
      var n := |prefix|;
      var Number(num, v, tail) := ParsePrefix(prefix, s, wild);
      assert s == s[..n] + [s[n]] + s[n + 1..];
      assert s == prefix + ":" + num + ":" + tail;
      EmptyIsZero(wild);
    }
  }

  function ParseMessage(s: string, wild: Wild): (r: Parsed<Message>)
    ensures r.Rejected? ==> r.ec != Success && r.read <= |s|
  {
    match ParsePrefix(MESSAGE_PREFIX, s, wild)
    case Bad(read, ec) => Rejected(read, ec)
    case Number(num, size, tail) =>
      PrefixShape(MESSAGE_PREFIX, s, wild);
      match CutAtColon(tail)
      case NoColon => Rejected(8 + |num| + 1, BadMessage)
      case Cut(nick, body) =>
        Accepted(8 + |num| + 1 + |nick| + 1 + size, Message(Take(body, size), nick))
  }

  function ParseInv(s: string, wild: Wild): (r: Parsed<Uint32>)
    ensures r.Rejected? ==> r.ec != Success && r.read <= |s|
    ensures r.Accepted? ==> r.value > 0 && 6 <= r.read <= |s|
  {
    match ParsePrefix(INV_PREFIX, s, wild)
    case Bad(read, ec) => Rejected(read, ec)
    case Number(num, count, tail) =>
      PrefixShape(INV_PREFIX, s, wild);
      Accepted(4 + |num| + 1, count)
  }

  /** How a batch parse ends: it returns a byte count and leaves an error code, or
      `std::string::substr` throws `std::out_of_range`. */
  datatype Outcome = Returned(used: nat, ec: ErrorCode) | OutOfRange

  /** The outcome with what the message list holds by then. */
  datatype Batch = Batch(outcome: Outcome, messages: seq<Message>)

  function ParseRecords(s: string, used: nat, count: nat, wild: Wild): (b: Batch)
    decreases count
  {
    if count == 0 then Batch(Returned(used, Success), [])
    else if used > |s| then Batch(OutOfRange, [])
    else
      match ParseMessage(s[used..], wild)
      case Rejected(read, ec) => Batch(Returned(used + read, ec), [])
      case Accepted(read, m) =>
        var rest := ParseRecords(s, used + read, count - 1, wild);
        Batch(rest.outcome, [m] + rest.messages)
  }

  /** `ec` is what the caller's error code holds on entry; the header parse sets it only on failure. */
  function ParseBatch(s: string, ec: ErrorCode, wild: Wild): Batch {
    match ParseInv(s, wild)
    case Rejected(read, e) => Batch(Returned(read, e), [])
    case Accepted(read, count) =>
      if ec != Success then Batch(Returned(read, ec), [])
      else ParseRecords(s, read, count, wild)
  }

  lemma NoRecord(s: string, used: nat, wild: Wild)
    ensures ParseRecords(s, used, 0, wild) == Batch(Returned(used, Success), [])
  {
  }

  lemma OneRecord(s: string, used: nat, count: nat, wild: Wild)
    requires count > 0
    ensures used > |s| ==> ParseRecords(s, used, count, wild) == Batch(OutOfRange, [])
    ensures used <= |s| ==>
              var r := ParseMessage(s[used..], wild);
              if r.Rejected? then ParseRecords(s, used, count, wild) == Batch(Returned(used + r.read, r.ec), [])
              else
                var b := ParseRecords(s, used + r.read, count - 1, wild);
                ParseRecords(s, used, count, wild) == Batch(b.outcome, [r.value] + b.messages)
  {
    hide ParseMessage;
  }

  // ---- the format as a grammar ----

  lemma {:induction false} CutComposed(head: string, tail: string)
    requires ':' !in head
    ensures CutAtColon(head + ":" + tail) == Cut(head, tail)
  {
    var s := head + ":" + tail;
    if head == [] {
      assert s[1..] == tail;
    } else {
      assert s[1..] == head[1..] + ":" + tail;
      CutComposed(head[1..], tail);
    }
  }

  lemma PrefixComposed(prefix: string, num: string, tail: string, wild: Wild)
    requires ':' !in num && ReadUint32(num, wild) > 0
    ensures ParsePrefix(prefix, prefix + ":" + num + ":" + tail, wild)
            == Number(num, ReadUint32(num, wild), tail)
  {
    var s := prefix + ":" + num + ":" + tail;
    assert s[..|prefix|] == prefix;
    assert s[|prefix| + 1..] == num + ":" + tail;
    CutComposed(num, tail);
  }

  /** The text of a record with numeral `num`, name `nick` and everything after it. */
  function Record(num: string, nick: string, body: string): string {
    MESSAGE_PREFIX + ":" + num + ":" + nick + ":" + body
  }

  /** The record grammar: which texts are accepted, with which message and byte count. */
  ghost predicate IsRecord(s: string, wild: Wild, read: nat, m: Message) {
    exists num: string, nick: string, body: string ::
      && s == Record(num, nick, body)
      && ':' !in num && ':' !in nick && ReadUint32(num, wild) > 0
      && m == Message(Take(body, ReadUint32(num, wild)), nick)
      && read == |s| - |body| + ReadUint32(num, wild)
  }

  lemma RecordComposed(num: string, nick: string, body: string, wild: Wild)
    requires ':' !in num && ':' !in nick && ReadUint32(num, wild) > 0
    ensures ParseMessage(Record(num, nick, body), wild)
            == Accepted(10 + |num| + |nick| + ReadUint32(num, wild),
                        Message(Take(body, ReadUint32(num, wild)), nick))
  {
    var tail := nick + ":" + body;
    assert Record(num, nick, body) == MESSAGE_PREFIX + ":" + num + ":" + tail;
    PrefixComposed(MESSAGE_PREFIX, num, tail, wild);
    CutComposed(nick, body);
  }

  /** The record parser accepts exactly the grammar. */
  lemma ParserMatchesGrammar(s: string, wild: Wild, read: nat, m: Message)
    ensures ParseMessage(s, wild) == Accepted(read, m) <==> IsRecord(s, wild, read, m)
  {
    if ParseMessage(s, wild) == Accepted(read, m) {
      PrefixShape(MESSAGE_PREFIX, s, wild);
      var Number(num, v, tail) := ParsePrefix(MESSAGE_PREFIX, s, wild);
      var Cut(nick, body) := CutAtColon(tail);
      assert s == Record(num, nick, body);
    }
    if IsRecord(s, wild, read, m) {
      var num: string, nick: string, body: string :|
        && s == Record(num, nick, body)
        && ':' !in num && ':' !in nick && ReadUint32(num, wild) > 0
        && m == Message(Take(body, ReadUint32(num, wild)), nick)
        && read == |s| - |body| + ReadUint32(num, wild);
      RecordComposed(num, nick, body, wild);
    }
  }

  lemma {:induction false} NoColonCut(s: string)
    requires ':' !in s
    ensures CutAtColon(s).NoColon?
  {
    if s != [] { NoColonCut(s[1..]); }
  }
}
