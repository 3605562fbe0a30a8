/** What the record, header and batch parsers reject, and with which error code and byte count. */
module ChatRejections {
  import opened Numerals
  import opened ChatMessage

  lemma PrefixRejections(prefix: string, s: string, num: string, tail: string, wild: Wild)
    ensures var n := |prefix|;
            var r := ParsePrefix(prefix, s, wild);
            && (|s| <= n ==> r == Bad(0, BadMessage))
            && (|s| > n && s[..n] != prefix ==> r == Bad(0, InvalidArgument))
            && (|s| > n && s[..n] == prefix && s[n] != ':' ==> r == Bad(n, BadMessage))
            && (s == prefix + ":" + tail && ':' !in tail ==> r == Bad(n + 1, BadMessage))
            && (s == prefix + ":" + num + ":" + tail && ':' !in num && ReadUint32(num, wild) == 0 ==>
                  r == Bad(n + 1, InvalidArgument))
  {
    var n := |prefix|;
    if s == prefix + ":" + tail && ':' !in tail {
      assert s[..n] == prefix && s[n + 1..] == tail;
      NoColonCut(tail);
    }
    if s == prefix + ":" + num + ":" + tail && ':' !in num {
      assert s[..n] == prefix && s[n + 1..] == num + ":" + tail;
      CutComposed(num, tail);
    }
  }

  /** Which error and byte count a text is rejected with; `num` and `tail` are its parts where it has
      them. Together with the grammar this decides every text. */
  lemma RecordRejections(s: string, num: string, tail: string, wild: Wild)
    ensures var r := ParseMessage(s, wild);
            && (|s| < 8 ==> r == Rejected(0, BadMessage))
            && (|s| >= 8 && s[..7] != "message" ==> r == Rejected(0, InvalidArgument))
            && (|s| >= 8 && s[..7] == "message" && s[7] != ':' ==> r == Rejected(7, BadMessage))
            && (s == "message:" + tail && ':' !in tail ==> r == Rejected(8, BadMessage))
            && (s == "message:" + num + ":" + tail && ':' !in num ==>
                  && (ReadUint32(num, wild) == 0 ==> r == Rejected(8, InvalidArgument))
                  && (ReadUint32(num, wild) > 0 && ':' !in tail ==> r == Rejected(9 + |num|, BadMessage)))
  {
    hide ReadUint32;
    PrefixRejections("message", s, num, tail, wild);
    assert "message" + ":" == "message:";
    if s == "message:" + num + ":" + tail && ':' !in num && ReadUint32(num, wild) > 0 && ':' !in tail {
      PrefixComposed("message", num, tail, wild);
      NoColonCut(tail);
    }
  }

  /** The same for a batch's header, and what an accepted one yields. */
  lemma HeaderExactly(s: string, num: string, tail: string, wild: Wild)
    ensures var r := ParseInv(s, wild);
            && (|s| < 4 ==> r == Rejected(0, BadMessage))
            && (|s| >= 4 && s[..3] != "inv" ==> r == Rejected(0, InvalidArgument))
            && (|s| >= 4 && s[..3] == "inv" && s[3] != ':' ==> r == Rejected(3, BadMessage))
            && (s == "inv:" + tail && ':' !in tail ==> r == Rejected(4, BadMessage))
            && (s == "inv:" + num + ":" + tail && ':' !in num ==>
                  r == if ReadUint32(num, wild) == 0 then Rejected(4, InvalidArgument)
                       else Accepted(5 + |num|, ReadUint32(num, wild)))
  {
    hide ReadUint32;
    PrefixRejections("inv", s, num, tail, wild);
    assert "inv" + ":" == "inv:";
    if s == "inv:" + num + ":" + tail && ':' !in num && ReadUint32(num, wild) > 0 {
      PrefixComposed("inv", num, tail, wild);
    }
  }

  /** A caller's earlier error stops the parse behind the header: nothing is stored. */
  lemma StaleErrorStopsParse(s: string, ec: ErrorCode, wild: Wild)
    requires ec != Success
    ensures var b := ParseBatch(s, ec, wild);
            && b.messages == [] && b.outcome.Returned? && b.outcome.ec != Success
            && (ParseInv(s, wild).Accepted? ==> b.outcome.ec == ec)
  {
  }

  lemma LengthFive(num: string, wild: Wild)
    requires num == "+5" || num == " 005"
    ensures ReadUint32(num, wild) == 5
  {
    hide ReadUint32, Atoi;
    assert ToString(5) == "5" && Zeros(0) == "" && Zeros(2) == "00";
    AtoiReadsThrough("", 0, 5, "");
    AtoiReadsThrough(" ", 2, 5, "");
    assert "" + "+" + "" + "5" + "" == "+5" && " " + "00" + "5" + "" == " 005";
    AtoiExactly(num, 5);
    ReadUint32Exactly(num, 5, wild);
  }

  /** A length with a sign, or with white space or zeros in front of it, is accepted. */
  lemma SignedLengthAccepted(wild: Wild)
    ensures ParseMessage("message:+5:bob:hello", wild) == Accepted(20, Message("hello", "bob"))
    ensures ParseMessage("message: 005:bob:hello", wild) == Accepted(22, Message("hello", "bob"))
  {
    hide ParseMessage, ReadUint32;
    LengthFive("+5", wild);
    LengthFive(" 005", wild);
    RecordComposed("+5", "bob", "hello", wild);
    RecordComposed(" 005", "bob", "hello", wild);
    assert Take("hello", 5) == "hello";
    assert Record("+5", "bob", "hello") == "message:+5:bob:hello";
    assert Record(" 005", "bob", "hello") == "message: 005:bob:hello";
  }
}
