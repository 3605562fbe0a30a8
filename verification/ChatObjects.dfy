/** The program's own objects: they append to an output string, advance through a shrinking view
    and fill a message list in place. Each method is proved against the functions of ChatMessage. */
module ChatObjects {
  import opened Numerals
  import opened ChatMessage
  import opened ChatCodec

  const UINT32_MAX: nat := 0xFFFF_FFFF

  class MessageObject {
    var payload: string
    var nickname: string

    function Value(): Message
      reads this
    {
      Message(payload, nickname)
    }

    constructor ()
      ensures Value() == Message("", "")
    {
      payload, nickname := "", "";
    }

    constructor From(m: Message)
      ensures Value() == m
    {
      payload, nickname := m.payload, m.nickname;
    }

    method Serialize(out: string) returns (out': string, writeBytes: nat)
      ensures out' == out + SerializeMessage(Value())
      ensures writeBytes == |out'| - |out| == MessageSize(Value())
    {
      out' := out + MESSAGE_PREFIX;
      writeBytes := |MESSAGE_PREFIX|;
      out' := out' + ":";
      writeBytes := writeBytes + 1;
      out' := out' + ToString(|payload|);
      writeBytes := writeBytes + |ToString(|payload|)|;
      out' := out' + ":";
      writeBytes := writeBytes + 1;
      out' := out' + nickname;
      writeBytes := writeBytes + |nickname|;
      out' := out' + ":";
      writeBytes := writeBytes + 1;
      out' := out' + payload;
      writeBytes := writeBytes + |payload|;
    }

    /** The caller's error code is overwritten whatever it held. */
    method Parse(input: string, wild: Wild) returns (readBytes: nat, ec: ErrorCode)
      modifies this
      ensures match ParseMessage(input, wild)
              case Rejected(read, e) => readBytes == read && ec == e && Value() == old(Value())
              case Accepted(read, m) => readBytes == read && ec == Success && Value() == m
    {
      readBytes := 0;
      var copyIn := input;
      if |copyIn| < |MESSAGE_PREFIX| + 1 {
        return readBytes, BadMessage;
      }
      if copyIn[..|MESSAGE_PREFIX|] != MESSAGE_PREFIX {
        return readBytes, InvalidArgument;
      }
      readBytes := readBytes + |MESSAGE_PREFIX|;
      if copyIn[|MESSAGE_PREFIX|] != ':' {
        return readBytes, BadMessage;
      }
      readBytes := readBytes + 1;
      copyIn := copyIn[|MESSAGE_PREFIX| + 1..];

      var length := CutAtColon(copyIn);
      if length.NoColon? {
        return readBytes, BadMessage;
      }
      assert copyIn == length.head + (":" + length.tail);
      AtoiStopsAtColon(length.head, ":" + length.tail);
      var paySize := ReadUint32(copyIn, wild);
      if paySize == 0 {
        return readBytes, InvalidArgument;
      }
      readBytes := readBytes + |length.head| + 1;
      copyIn := copyIn[|length.head| + 1..];

      var name := CutAtColon(copyIn);
      if name.NoColon? {
        return readBytes, BadMessage;
      }
      readBytes := readBytes + |name.head| + 1;
      copyIn := copyIn[|name.head| + 1..];

      payload, nickname := Take(copyIn, paySize), name.head;
      readBytes := readBytes + paySize;
      ec := Success;
    }
  }

  class InvObject {
    var countEntry: Uint32

    constructor (count: Uint32)
      ensures countEntry == count
    {
      countEntry := count;
    }

    method Serialize(out: string) returns (out': string, writeBytes: nat)
      ensures out' == out + SerializeInv(countEntry)
      ensures writeBytes == |out'| - |out| == InvSize(countEntry)
    {
      out' := out + INV_PREFIX;
      writeBytes := |INV_PREFIX|;
      out' := out' + ":";
      writeBytes := writeBytes + 1;
      out' := out' + ToString(countEntry);
      writeBytes := writeBytes + |ToString(countEntry)|;
      out' := out' + ":";
      writeBytes := writeBytes + 1;
    }

    /** On success the caller's error code keeps what it held. */
    method Parse(input: string, ec0: ErrorCode, wild: Wild) returns (readBytes: nat, ec: ErrorCode)
      modifies this
      ensures match ParseInv(input, wild)
              case Rejected(read, e) => readBytes == read && ec == e && countEntry == old(countEntry)
              case Accepted(read, count) => readBytes == read && ec == ec0 && countEntry == count
    {
      readBytes, ec := 0, ec0;
      var copyIn := input;
      if |copyIn| < |INV_PREFIX| + 1 {
        return readBytes, BadMessage;
      }
      if copyIn[..|INV_PREFIX|] != INV_PREFIX {
        return readBytes, InvalidArgument;
      }
      readBytes := readBytes + |INV_PREFIX|;
      if copyIn[|INV_PREFIX|] != ':' {
        return readBytes, BadMessage;
      }
      readBytes := readBytes + 1;
      copyIn := copyIn[|INV_PREFIX| + 1..];

      var length := CutAtColon(copyIn);
      if length.NoColon? {
        return readBytes, BadMessage;
      }
      assert copyIn == length.head + (":" + length.tail);
      AtoiStopsAtColon(length.head, ":" + length.tail);
      var count := ReadUint32(copyIn, wild);
      if count == 0 {
        return readBytes, InvalidArgument;
      }
      countEntry := count;
      readBytes := readBytes + |length.head| + 1;
    }
  }

  class Parser {
    const wild: Wild
    var messages: seq<Message>

    constructor (messages: seq<Message>, wild: Wild)
      ensures this.messages == messages && this.wild == wild
    {
      this.messages, this.wild := messages, wild;
    }

    method Advance(input: string, ec0: ErrorCode) returns (outcome: Outcome)
      modifies this
      ensures Batch(outcome, messages) == ParseBatch(input, ec0, wild)
    {
      hide ParseMessage, ParseInv, ParseRecords, ParsePrefix;
      var usedBytes: nat := 0;
      messages := [];

      var i := new InvObject(0);
      var read, ec := i.Parse(input, ec0, wild);
      usedBytes := usedBytes + read;
      if ec != Success {
        return Returned(usedBytes, ec);
      }

      ghost var whole := ParseRecords(input, usedBytes, i.countEntry, wild);
      ghost var rest := whole;
      while i.countEntry > |messages|
        invariant |messages| <= i.countEntry && ec == Success
        invariant rest == ParseRecords(input, usedBytes, i.countEntry - |messages|, wild)
        invariant whole == Batch(rest.outcome, messages + rest.messages)
        decreases i.countEntry - |messages|
      {
        OneRecord(input, usedBytes, i.countEntry - |messages|, wild);
        var m := new MessageObject();
        if usedBytes > |input| {
          return OutOfRange;
        }
        read, ec := m.Parse(input[usedBytes..], wild);
        usedBytes := usedBytes + read;
        if ec != Success {
          return Returned(usedBytes, ec);
        }
        rest := ParseRecords(input, usedBytes, i.countEntry - |messages| - 1, wild);
        assert messages + ([m.Value()] + rest.messages) == (messages + [m.Value()]) + rest.messages;
        messages := messages + [m.Value()];
      }
      NoRecord(input, usedBytes, wild);
      return Returned(usedBytes, Success);
    }
  }

  /** A `std::runtime_error` in place of a result. */
  datatype Written = Wrote(bytes: nat) | TooManyMessages

  lemma OneMoreRecord(ms: seq<Message>, k: nat)
    requires k < |ms|
    ensures SerializeRecords(ms[..k + 1]) == SerializeRecords(ms[..k]) + SerializeMessage(ms[k])
    ensures RecordsSize(ms[..k + 1]) == RecordsSize(ms[..k]) + MessageSize(ms[k])
  {
    assert ms[..k + 1] == ms[..k] + [ms[k]];
    RecordsConcat(ms[..k], [ms[k]]);
    assert SerializeRecords([ms[k]]) == SerializeMessage(ms[k]);
  }

  class Serializer {
    var out: string

    constructor (out: string)
      ensures this.out == out
    {
      this.out := out;
    }

    method Advance(messages: seq<Message>) returns (r: Written)
      modifies this
      ensures r.TooManyMessages? <==> |messages| >= UINT32_MAX
      ensures r.TooManyMessages? ==> out == old(out)
      ensures r.Wrote? ==> out == old(out) + SerializeBatch(messages)
      ensures r.Wrote? ==> r.bytes == |out| - |old(out)| == InvSize(|messages|) + RecordsSize(messages)
    {
      hide SerializeMessage, MessageSize, SerializeInv, InvSize;
      if |messages| >= UINT32_MAX {
        return TooManyMessages;
      }
      var i := new InvObject(|messages|);
      var o, n := i.Serialize(out);
      out := o;
      var usedBytes := n;
      for k := 0 to |messages|
        invariant out == old(out) + SerializeInv(|messages|) + SerializeRecords(messages[..k])
        invariant usedBytes == InvSize(|messages|) + RecordsSize(messages[..k])
      {
        var message := new MessageObject.From(messages[k]);
        o, n := message.Serialize(out);
        out := o;
        usedBytes := usedBytes + n;
        OneMoreRecord(messages, k);
      }
      assert messages[..|messages|] == messages;
      BatchSize(messages);
      return Wrote(usedBytes);
    }
  }
}
