/** What becomes of appended output when anybody may append, read and write at any time: a write that
    succeeds discards the whole output buffer, so text that was appended behind it is lost, and only
    that text. */
module ServerLoss {
  import opened Traces
  import opened ServerSession
  import opened ServerDelivery

  // ---- what is appended ----

  function AppendedIn(e: Event): string {
    match e
    case External(c) => TextOf(c)
    case AcceptDone(_, callback) => Appended(callback)
    case ReadDone(_, _, _, callback) => Appended(callback)
    case ControlFrame(callback) => Appended(callback)
    case TimerDone(_, callback) => Appended(callback)
    case _ => ""
  }

  /** All text anybody appended in a run, in order. */
  function AppendedBy(es: seq<Event>): string {
    if es == [] then "" else AppendedBy(Before(es)) + AppendedIn(Last(es))
  }

  /** What a sequence of calls appends while a write is pending: one that was already, or one that
      an earlier call of the sequence starts. */
  function BehindIn(pending: bool, accepted: bool, calls: seq<Call>): string {
    if calls == [] then ""
    else
      var front := calls[..|calls| - 1];
      BehindIn(pending, accepted, front)
      + if pending || (accepted && DoWrite in front) then TextOf(calls[|calls| - 1]) else ""
  }

  function BehindOf(s: State, e: Event): string {
    var pending := s.pendingWrites > 0;
    match e
    case External(c) => if pending then TextOf(c) else ""
    case AcceptDone(_, callback) => BehindIn(pending, true, callback)
    case ReadDone(_, _, _, callback) => BehindIn(pending, s.accepted, callback)
    case ControlFrame(callback) => BehindIn(pending, s.accepted, callback)
    case TimerDone(_, callback) => BehindIn(pending, s.accepted, callback)
    case _ => ""
  }

  // ---- what becomes of it ----

  /** At most one write is pending at any time, as the stream requires. Everything else is free: who
      reads, writes and appends, in callbacks or from outside, and how often an accept is started. */
  predicate OneWriteAtATime(t0: Time, es: seq<Event>)
    requires IsRun(t0, es)
    decreases |es|
  {
    es == [] || (OneWriteAtATime(t0, Before(es)) && After(t0, es).pendingWrites <= 1)
  }

  /** The message most recently handed to the stream. */
  function LastSent(log: seq<Entry>): string {
    var frames := Sent(log);
    if frames == [] then "" else frames[|frames| - 1].data
  }

  /** What stands in the output buffer behind that message. */
  function Behind(s: State): string {
    var message := LastSent(s.log);
    if |message| <= |s.output| then s.output[|message|..] else ""
  }

  /** What stands behind a write that is pending. */
  function Trailing(s: State): string {
    if s.pendingWrites > 0 then Behind(s) else ""
  }

  /** A write that completed: its message, what then stood behind it, and whether it succeeded. */
  datatype Completion = Completion(message: string, behind: string, ok: bool)

  function CompletedBy(s: State, e: Event): seq<Completion> {
    if e.WriteDone? then [Completion(LastSent(s.log), Behind(s), e.ec == NoError)] else []
  }

  /** The completed writes of a run, in order. */
  function Completions(t0: Time, es: seq<Event>): seq<Completion>
    requires IsRun(t0, es)
  {
    if es == [] then []
    else Completions(t0, Before(es)) + CompletedBy(After(t0, Before(es)), Last(es))
  }

  function Messages(cs: seq<Completion>): (texts: seq<string>)
    ensures |texts| == |cs|
  {
    seq(|cs|, i requires 0 <= i < |cs| => cs[i].message)
  }

  /** The text that successful writes took out of the buffer, in order. */
  function Discarded(cs: seq<Completion>): string {
    if cs == [] then ""
    else
      var c := cs[|cs| - 1];
      Discarded(cs[..|cs| - 1]) + if c.ok then c.message + c.behind else ""
  }

  /** The part of it that had been handed to the stream. */
  function Delivered(cs: seq<Completion>): string {
    if cs == [] then ""
    else
      var c := cs[|cs| - 1];
      Delivered(cs[..|cs| - 1]) + if c.ok then c.message else ""
  }

  /** The bytes of it that had not. */
  function LostBytes(cs: seq<Completion>): nat {
    if cs == [] then 0
    else
      var c := cs[|cs| - 1];
      LostBytes(cs[..|cs| - 1]) + if c.ok then |c.behind| else 0
  }

  // ---- what every step keeps ----

  ghost predicate Ledger(s: State, appended: string, cs: seq<Completion>) {
    && s.pendingWrites <= 1
    && appended == Discarded(cs) + s.output
    && Data(Sent(s.log)) == Messages(cs) + (if s.pendingWrites > 0 then [LastSent(s.log)] else [])
    && (s.pendingWrites > 0 ==> LastSent(s.log) <= s.output)
  }

  /** From `s` to `s'` the buffer gains `text`, of it `behind` while a write is pending. */
  ghost predicate Grows(s: State, s': State, text: string, behind: string, appended: string, cs: seq<Completion>) {
    && s'.accepted == s.accepted && s.pendingWrites <= s'.pendingWrites
    && Ledger(s', appended + text, cs)
    && Trailing(s') == Trailing(s) + behind
  }

  /** A call that leaves traffic alone. */
  lemma AppendGrows(s: State, s': State, text: string, appended: string, cs: seq<Completion>)
    requires Ledger(s, appended, cs)
    requires Sent(s'.log) == Sent(s.log) && s'.output == s.output + text
    requires s'.accepted == s.accepted && s'.pendingWrites == s.pendingWrites
    ensures Grows(s, s', text, if s.pendingWrites > 0 then text else "", appended, cs)
  {
    hide Sent, Data, Messages, Discarded;
    assert Discarded(cs) + s.output + text == Discarded(cs) + (s.output + text);
  }

  lemma WriteGrows(s: State, appended: string, cs: seq<Completion>)
    requires Ledger(s, appended, cs) && s.Write().pendingWrites <= 1
    ensures Grows(s, s.Write(), "", "", appended, cs)
  {
    hide Sent, Messages, Discarded;
    OneMore(s.log);
    assert appended + "" == appended;
    var s' := s.Write();
    if s.accepted {
      assert Sent(s'.log) == Sent(s.log) + [Frame(s.output, s.textMode)];
      assert Data(Sent(s'.log)) == Data(Sent(s.log)) + [s.output];
    }
  }

  lemma AcceptKeepsSent(s: State)
    ensures var s' := s.Do(DoAccept);
            && Sent(s'.log) == Sent(s.log) && s'.output == s.output
            && s'.accepted == s.accepted && s'.pendingWrites == s.pendingWrites
  {
    hide Sent;
    OneMore(s.log);
  }

  lemma ReadKeepsSent(s: State)
    ensures var s' := s.Do(DoRead);
            && Sent(s'.log) == Sent(s.log) && s'.output == s.output
            && s'.accepted == s.accepted && s'.pendingWrites == s.pendingWrites
  {
    hide Sent;
    OneMore(s.log);
  }

  /** Every other call leaves the messages sent as they are. */
  lemma DoKeepsSent(s: State, c: Call)
    requires !c.DoWrite?
    ensures Sent(s.Do(c).log) == Sent(s.log) && s.Do(c).output == s.output + TextOf(c)
    ensures s.Do(c).accepted == s.accepted && s.Do(c).pendingWrites == s.pendingWrites
  {
    hide Sent, State.Do;
    assert s.output + "" == s.output;
    if c.DoAccept? {
      AcceptKeepsSent(s);
    } else if c.DoRead? {
      ReadKeepsSent(s);
    } else {
      QuietDo(s, c);
    }
  }

  lemma DoGrows(s: State, c: Call, appended: string, cs: seq<Completion>)
    requires Ledger(s, appended, cs) && s.Do(c).pendingWrites <= 1
    ensures Grows(s, s.Do(c), TextOf(c), if s.pendingWrites > 0 then TextOf(c) else "", appended, cs)
  {
    hide Ledger, Trailing, Sent;
    if c.DoWrite? {
      WriteGrows(s, appended, cs);
    } else {
      DoKeepsSent(s, c);
      AppendGrows(s, s.Do(c), TextOf(c), appended, cs);
    }
  }

  lemma ContinueGrows(s: State, appended: string, cs: seq<Completion>)
    requires Ledger(s, appended, cs) && s.Continue().pendingWrites <= 1
    ensures Grows(s, s.Continue(), "", "", appended, cs)
  {
    hide Ledger, Trailing, Sent;
    assert s.output + "" == s.output;
    DoKeepsSent(s, DoRead);
    if s.output != "" {
      WriteGrows(s, appended, cs);
    } else {
      AppendGrows(s, s.Continue(), "", appended, cs);
    }
  }

  lemma DoPending(s: State, c: Call)
    ensures var s' := s.Do(c);
            s'.accepted == s.accepted
            && s'.pendingWrites == s.pendingWrites + if s.accepted && c.DoWrite? then 1 else 0
  {
  }

  lemma {:induction false} RunPending(s: State, calls: seq<Call>)
    ensures var s' := s.Run(calls);
            && s'.accepted == s.accepted && s.pendingWrites <= s'.pendingWrites
            && (s'.pendingWrites > 0 <==> s.pendingWrites > 0 || (s.accepted && DoWrite in calls))
    decreases |calls|
  {
    hide State.Do;
    if calls != [] {
      var front, last := calls[..|calls| - 1], calls[|calls| - 1];
      assert calls == front + [last];
      RunPending(s, front);
      DoPending(s.Run(front), last);
    }
  }

  lemma {:induction false} RunGrows(s: State, calls: seq<Call>, appended: string, cs: seq<Completion>)
    requires Ledger(s, appended, cs) && s.Run(calls).pendingWrites <= 1
    ensures Grows(s, s.Run(calls), Appended(calls), BehindIn(s.pendingWrites > 0, s.accepted, calls), appended, cs)
    decreases |calls|
  {
    hide Ledger, Trailing, State.Do, State.Run;
    RunLast(s, calls);
    assert appended + "" == appended && Trailing(s) + "" == Trailing(s);
    if calls != [] {
      var front, last := calls[..|calls| - 1], calls[|calls| - 1];
      RunPending(s, front);
      DoPending(s.Run(front), last);
      RunGrows(s, front, appended, cs);
      DoGrows(s.Run(front), last, appended + Appended(front), cs);
      assert appended + Appended(front) + TextOf(last) == appended + Appended(calls);
    }
  }

  lemma ContinuePending(s: State)
    ensures s.pendingWrites <= s.Continue().pendingWrites && s.Continue().accepted == s.accepted
  {
  }

  /** A handler that runs a callback and then continues. */
  lemma HandlerGrows(s: State, callback: seq<Call>, text: bool, appended: string, cs: seq<Completion>)
    requires Ledger(s, appended, cs)
    ensures var behind := BehindIn(s.pendingWrites > 0, s.accepted, callback);
            var s1 := s.Run(callback);
            var s2 := s1.(input := "");
            var s3 := if s2.autoFrame then s2.(textMode := text) else s2;
            && (s1.Continue().pendingWrites <= 1 ==>
                  Grows(s, s1.Continue(), Appended(callback), behind, appended, cs))
            && (s3.Continue().pendingWrites <= 1 ==>
                  Grows(s, s3.Continue(), Appended(callback), behind, appended, cs))
  {
    hide Sent, Data, Discarded, Messages, State.Run, State.Continue, BehindIn, Appended;
    RunPending(s, callback);
    var s1 := s.Run(callback);
    var s2 := s1.(input := "");
    var s3 := if s2.autoFrame then s2.(textMode := text) else s2;
    ContinuePending(s1);
    ContinuePending(s3);
    if s1.pendingWrites <= 1 {
      RunGrows(s, callback, appended, cs);
      if s1.Continue().pendingWrites <= 1 { ContinueGrows(s1, appended + Appended(callback), cs); }
      if s3.Continue().pendingWrites <= 1 { ContinueGrows(s3, appended + Appended(callback), cs); }
      assert appended + Appended(callback) + "" == appended + Appended(callback);
    }
  }

  /** What an event that completes no write does. */
  ghost predicate StepGrows(s: State, e: Event, appended: string, cs: seq<Completion>)
    requires Enabled(s, e)
  {
    && Ledger(Step(s, e), appended + AppendedIn(e), cs)
    && Trailing(Step(s, e)) == Trailing(s) + BehindOf(s, e)
  }

  lemma NothingBehind(pending: bool, accepted: bool)
    ensures Appended([]) == "" && BehindIn(pending, accepted, []) == ""
  {
  }

  lemma ReportGrows(s: State, what: string, appended: string, cs: seq<Completion>)
    requires Ledger(s, appended, cs)
    ensures Grows(s, s.Note(Reported(what)), "", "", appended, cs)
  {
    hide Ledger, Trailing, Sent;
    OneMore(s.log);
    assert s.output + "" == s.output;
    AppendGrows(s, s.Note(Reported(what)), "", appended, cs);
  }

  lemma SameLedger(s: State, s': State, appended: string, cs: seq<Completion>)
    requires Ledger(s, appended, cs)
    requires s'.log == s.log && s'.output == s.output && s'.pendingWrites == s.pendingWrites
    ensures Ledger(s', appended, cs) && Trailing(s') == Trailing(s)
  {
  }

  lemma AcceptGrows(s: State, e: Event, appended: string, cs: seq<Completion>)
    requires Enabled(s, e) && e.AcceptDone? && Ledger(s, appended, cs) && Step(s, e).pendingWrites <= 1
    ensures StepGrows(s, e, appended, cs)
  {
    hide Ledger, Trailing, State.Run, State.Continue, State.Note, BehindIn, Appended;
    var s1 := s.(pendingAccepts := s.pendingAccepts - 1);
    if e.ec == NoError {
      SameLedger(s, s1.(accepted := true), appended, cs);
      HandlerGrows(s1.(accepted := true), e.callback, true, appended, cs);
    } else {
      NothingBehind(s.pendingWrites > 0, true);
      SameLedger(s, s1, appended, cs);
      ReportGrows(s1, "accept", appended, cs);
      assert appended + "" == appended;
    }
  }

  lemma ReadGrows(s: State, e: Event, appended: string, cs: seq<Completion>)
    requires Enabled(s, e) && e.ReadDone? && Ledger(s, appended, cs) && Step(s, e).pendingWrites <= 1
    ensures StepGrows(s, e, appended, cs)
  {
    hide Ledger, Trailing, State.Run, State.Continue, State.Note, BehindIn, Appended;
    var s1 := s.(pendingReads := s.pendingReads - 1);
    if e.ec == NoError {
      SameLedger(s, s1.(readable := true, input := s.input + e.data), appended, cs);
      HandlerGrows(s1.(readable := true, input := s.input + e.data), e.callback, e.text, appended, cs);
    } else {
      NothingBehind(s.pendingWrites > 0, s.accepted);
      SameLedger(s, s1, appended, cs);
      ReportGrows(s1, "read", appended, cs);
      assert appended + "" == appended;
    }
  }

  lemma TimerGrows(s: State, e: Event, appended: string, cs: seq<Completion>)
    requires Enabled(s, e) && e.TimerDone? && Ledger(s, appended, cs) && Step(s, e).pendingWrites <= 1
    ensures StepGrows(s, e, appended, cs)
  {
    hide Sent, Data, Discarded, Messages, State.Run, BehindIn, Appended, State.OnTimer;
    var s1 := s.(waits := s.waits - 1);
    OnTimerKeepsTraffic(s1, e.ec, e.callback);
    if s.TimerActs(e.ec) && s.timerCallback.Callback? {
      var s2 := s1.Note(Fired(s.timerCallback.id));
      FiredKeepsTraffic(s1, s.timerCallback.id);
      assert Ledger(s2, appended, cs);
      RunGrows(s2, e.callback, appended, cs);
    } else {
      NothingBehind(s.pendingWrites > 0, s.accepted);
      assert appended + "" == appended;
    }
  }

  lemma StepKeepsLedger(s: State, e: Event, appended: string, cs: seq<Completion>)
    requires Enabled(s, e) && !e.WriteDone? && Ledger(s, appended, cs) && Step(s, e).pendingWrites <= 1
    ensures StepGrows(s, e, appended, cs)
  {
    hide Ledger, Trailing, State.Run, State.Do, BehindIn, Appended;
    match e
    case External(c) => DoGrows(s, c, appended, cs);
    case AcceptDone(_, _) => AcceptGrows(s, e, appended, cs);
    case ReadDone(_, _, _, _) => ReadGrows(s, e, appended, cs);
    case ControlFrame(callback) => RunGrows(s, callback, appended, cs);
    case TimerDone(_, _) => TimerGrows(s, e, appended, cs);
    case Elapse(d) =>
      assert s.output + "" == s.output;
      AppendGrows(s, s.(now := s.now + d), "", appended, cs);
  }

  lemma OneMoreCompletion(cs: seq<Completion>, c: Completion)
    ensures Discarded(cs + [c]) == Discarded(cs) + if c.ok then c.message + c.behind else ""
    ensures Delivered(cs + [c]) == Delivered(cs) + if c.ok then c.message else ""
    ensures LostBytes(cs + [c]) == LostBytes(cs) + if c.ok then |c.behind| else 0
    ensures Messages(cs + [c]) == Messages(cs) + [c.message]
  {
    assert (cs + [c])[..|cs|] == cs;
  }

  lemma OnWriteKeepsSent(s: State, ec: Error)
    ensures var s' := s.OnWrite(ec);
            && Sent(s'.log) == Sent(s.log) && s'.pendingWrites == s.pendingWrites
            && s'.output == if ec == NoError then "" else s.output
  {
    hide Sent;
    OneMore(s.log);
  }

  lemma CompletionKeepsLedger(s: State, s': State, ok: bool, appended: string, cs: seq<Completion>)
    requires s.pendingWrites > 0 && Ledger(s, appended, cs)
    requires Sent(s'.log) == Sent(s.log) && s'.pendingWrites == 0 && s'.output == if ok then "" else s.output
    ensures Ledger(s', appended, cs + [Completion(LastSent(s.log), Behind(s), ok)]) && Trailing(s') == ""
  {
    hide Sent, Data, Discarded, Messages, LastSent;
    var c := Completion(LastSent(s.log), Behind(s), ok);
    OneMoreCompletion(cs, c);
    assert s.output == c.message + c.behind;
    if ok {
      assert Discarded(cs + [c]) + s'.output == Discarded(cs) + (c.message + c.behind);
    } else {
      assert Discarded(cs + [c]) == Discarded(cs) + "" == Discarded(cs);
    }
    assert Messages(cs + [c]) + [] == Messages(cs) + [c.message];
  }

  lemma WriteKeepsLedger(s: State, ec: Error, appended: string, cs: seq<Completion>)
    requires s.pendingWrites > 0 && Ledger(s, appended, cs)
    ensures var s' := Step(s, WriteDone(ec));
            && Ledger(s', appended, cs + CompletedBy(s, WriteDone(ec))) && Trailing(s') == ""
  {
    hide Sent, LastSent, Behind, State.OnWrite;
    assert s.pendingWrites == 1;
    hide Ledger, Trailing;
    OnWriteKeepsSent(s.(pendingWrites := 0), ec);
    CompletionKeepsLedger(s, Step(s, WriteDone(ec)), ec == NoError, appended, cs);
  }

  lemma EmptyLedger(t0: Time)
    ensures Ledger(Initial(t0), "", []) && Trailing(Initial(t0)) == ""
  {
  }

  lemma {:induction false} LedgerInRuns(t0: Time, es: seq<Event>)
    requires IsRun(t0, es) && OneWriteAtATime(t0, es)
    ensures Ledger(After(t0, es), AppendedBy(es), Completions(t0, es))
    ensures es != [] ==>
              var s := After(t0, Before(es));
              Trailing(After(t0, es)) == if Last(es).WriteDone? then "" else Trailing(s) + BehindOf(s, Last(es))
    decreases |es|
  {
    hide Ledger, Trailing, BehindOf, Step;
    if es == [] {
      EmptyLedger(t0);
    } else {
      LedgerInRuns(t0, Before(es));
      var s, e, cs := After(t0, Before(es)), Last(es), Completions(t0, Before(es));
      if e.WriteDone? {
        WriteKeepsLedger(s, e.ec, AppendedBy(Before(es)), cs);
        assert AppendedBy(Before(es)) + "" == AppendedBy(Before(es));
      } else {
        StepKeepsLedger(s, e, AppendedBy(Before(es)), cs);
        assert cs + [] == cs;
      }
    }
  }

  // ---- conservation ----

  lemma {:induction false} DiscardedBytes(cs: seq<Completion>)
    ensures |Discarded(cs)| == |Delivered(cs)| + LostBytes(cs)
    ensures LostBytes(cs) == 0 ==> Discarded(cs) == Delivered(cs)
  {
    if cs != [] { DiscardedBytes(cs[..|cs| - 1]); }
  }

  /** Conservation, whoever appends, reads and writes, with one write at a time: what was appended is,
      in order, the message of each write that succeeded and what was discarded behind it, and then
      what the buffer still holds; the messages handed to the stream are those of the completed
      writes and of the pending one; so the bytes delivered, the bytes still held and the bytes lost
      are the bytes appended. */
  lemma AppendedIsSentKeptOrLost(t0: Time, es: seq<Event>)
    requires IsRun(t0, es) && OneWriteAtATime(t0, es)
    ensures var s := After(t0, es);
            var cs := Completions(t0, es);
            && AppendedBy(es) == Discarded(cs) + s.output
            && Data(Sent(s.log)) == Messages(cs) + (if s.pendingWrites > 0 then [LastSent(s.log)] else [])
            && |Delivered(cs)| + |s.output| + LostBytes(cs) == |AppendedBy(es)|
            && (LostBytes(cs) == 0 <==> AppendedBy(es) == Delivered(cs) + s.output)
  {
    hide After, AppendedBy, Completions, LastSent, Discarded, Delivered, LostBytes, Data, Sent;
    LedgerInRuns(t0, es);
    DiscardedBytes(Completions(t0, es));
  }

  // ---- when nothing is lost ----

  /** Event `i` appends something while a write is pending. */
  ghost predicate AppendsBehind(t0: Time, es: seq<Event>, i: nat) {
    i < |es| && IsRun(t0, es[..i]) && BehindOf(After(t0, es[..i]), es[i]) != ""
  }

  predicate NoWriteDone(es: seq<Event>, i: nat, j: nat)
    requires j <= |es|
  {
    forall k :: i < k < j ==> !es[k].WriteDone?
  }

  /** Something was appended behind a write, and the next write to complete succeeded. */
  ghost predicate LosesAnAppend(t0: Time, es: seq<Event>) {
    exists i: nat, j ::
      && AppendsBehind(t0, es, i) && i < j < |es| && es[j] == WriteDone(NoError)
      && NoWriteDone(es, i, j)
  }

  /** Something was appended behind a write that has not completed. */
  ghost predicate AppendedBehindLast(t0: Time, es: seq<Event>) {
    exists i: nat :: AppendsBehind(t0, es, i) && NoWriteDone(es, i, |es|)
  }

  lemma AppendsBehindOneMore(t0: Time, es: seq<Event>)
    requires es != [] && IsRun(t0, es)
    ensures forall i: nat :: AppendsBehind(t0, es, i) <==>
              || (i < |es| - 1 && AppendsBehind(t0, Before(es), i))
              || (i == |es| - 1 && BehindOf(After(t0, Before(es)), Last(es)) != "")
    ensures forall i: nat :: AppendsBehind(t0, Before(es), i) ==> i < |es| - 1
    ensures forall i: nat, j: nat :: j < |es| ==> (NoWriteDone(es, i, j) <==> NoWriteDone(Before(es), i, j))
    ensures forall i: nat :: i < |es| ==>
              (NoWriteDone(es, i, |es|) <==>
                 NoWriteDone(Before(es), i, |es| - 1) && (i < |es| - 1 ==> !Last(es).WriteDone?))
  {
    hide BehindOf;
    assert forall i: nat :: i < |es| - 1 ==> es[..i] == Before(es)[..i] && es[i] == Before(es)[i];
  }

  lemma NothingBetween(es: seq<Event>)
    requires es != []
    ensures NoWriteDone(es, |es| - 1, |es|)
  {
  }

  lemma BehindLastOneMore(t0: Time, es: seq<Event>)
    requires es != [] && IsRun(t0, es)
    ensures AppendedBehindLast(t0, es) <==>
              && !Last(es).WriteDone?
              && (AppendedBehindLast(t0, Before(es)) || BehindOf(After(t0, Before(es)), Last(es)) != "")
  {
    hide AppendsBehind, After, NoWriteDone;
    AppendsBehindOneMore(t0, es);
    if AppendedBehindLast(t0, Before(es)) && !Last(es).WriteDone? {
      var i: nat :| AppendsBehind(t0, Before(es), i) && NoWriteDone(Before(es), i, |es| - 1);
      assert AppendsBehind(t0, es, i) && NoWriteDone(es, i, |es|);
    }
    if BehindOf(After(t0, Before(es)), Last(es)) != "" {
      assert NoWriteDone(es, |es| - 1, |es|) by { NothingBetween(es); }
      assert AppendsBehind(t0, es, |es| - 1);
    }
  }

  /** A write that succeeds loses text exactly when something was appended behind it. */
  lemma LossOneMore(t0: Time, es: seq<Event>)
    requires es != [] && IsRun(t0, es)
    ensures LosesAnAppend(t0, es) <==>
              || LosesAnAppend(t0, Before(es))
              || (Last(es) == WriteDone(NoError) && AppendedBehindLast(t0, Before(es)))
  {
    hide AppendsBehind, After, NoWriteDone;
    AppendsBehindOneMore(t0, es);
    if Last(es) == WriteDone(NoError) && AppendedBehindLast(t0, Before(es)) {
      var i: nat :| AppendsBehind(t0, Before(es), i) && NoWriteDone(Before(es), i, |es| - 1);
      assert AppendsBehind(t0, es, i) && es[|es| - 1] == WriteDone(NoError) && NoWriteDone(es, i, |es| - 1);
    }
    if LosesAnAppend(t0, Before(es)) {
      var i: nat, j :|
        && AppendsBehind(t0, Before(es), i) && i < j < |es| - 1 && Before(es)[j] == WriteDone(NoError)
        && NoWriteDone(Before(es), i, j);
      assert AppendsBehind(t0, es, i) && es[j] == WriteDone(NoError) && NoWriteDone(es, i, j);
    }
  }

  lemma NothingLostYet(t0: Time)
    ensures !LosesAnAppend(t0, []) && !AppendedBehindLast(t0, [])
    ensures LostBytes([]) == 0 && Trailing(After(t0, [])) == ""
  {
  }

  lemma LastWasPending(t0: Time, es: seq<Event>)
    requires es != [] && IsRun(t0, es) && Last(es).WriteDone?
    ensures After(t0, Before(es)).pendingWrites > 0
  {
  }

  lemma CompletionCounts(s: State, e: Event, cs: seq<Completion>)
    ensures LostBytes(cs + CompletedBy(s, e)) == LostBytes(cs) + if e == WriteDone(NoError) then |Behind(s)| else 0
  {
    hide LostBytes, Behind, LastSent, Discarded, Delivered, Messages;
    OneMoreCompletion(cs, Completion(LastSent(s.log), Behind(s), true));
    OneMoreCompletion(cs, Completion(LastSent(s.log), Behind(s), false));
    assert cs + [] == cs;
  }

  lemma {:induction false} LossShows(t0: Time, es: seq<Event>)
    requires IsRun(t0, es) && OneWriteAtATime(t0, es)
    ensures AppendedBehindLast(t0, es) <==> Trailing(After(t0, es)) != ""
    ensures LostBytes(Completions(t0, es)) > 0 <==> LosesAnAppend(t0, es)
    decreases |es|
  {
    hide AppendedBehindLast, LosesAnAppend, After, Behind, LastSent, LostBytes, BehindOf;
    NothingLostYet(t0);
    if es != [] {
      LossShows(t0, Before(es));
      LedgerInRuns(t0, es);
      BehindLastOneMore(t0, es);
      LossOneMore(t0, es);
      CompletionCounts(After(t0, Before(es)), Last(es), Completions(t0, Before(es)));
      if Last(es).WriteDone? { LastWasPending(t0, es); }
    }
  }

  /** The exact condition: everything appended was delivered or is still in the buffer, once and in
      order, if and only if nothing was appended while a write was pending that then succeeded. */
  lemma NothingLostExactlyWhen(t0: Time, es: seq<Event>)
    requires IsRun(t0, es) && OneWriteAtATime(t0, es)
    ensures AppendedBy(es) == Delivered(Completions(t0, es)) + After(t0, es).output <==> !LosesAnAppend(t0, es)
  {
    hide AppendedBy, Delivered, Completions, After, LosesAnAppend, Discarded, Data, Sent, LastSent, Messages;
    AppendedIsSentKeptOrLost(t0, es);
    LossShows(t0, es);
  }

  lemma {:induction false} NothingSent(log: seq<Entry>)
    requires forall e :: e in log ==> !e.op.Write?
    ensures Sent(log) == []
  {
    if log != [] { NothingSent(log[..|log| - 1]); }
  }

  /** Only an accepted session has a write pending. */
  lemma PendingNeedsAccept(t0: Time, es: seq<Event>)
    requires IsRun(t0, es) && OneWriteAtATime(t0, es) && After(t0, es).pendingWrites > 0
    ensures After(t0, es).accepted
  {
    hide After, OneWriteAtATime;
    var s := After(t0, es);
    SingleOutstandingRead(t0, es);
    LedgerInRuns(t0, es);
    if !s.accepted { NothingSent(s.log); }
  }

  // ---- when the handlers alone read and write ----

  /** Everybody may append, in callbacks or from outside; only the handlers read and write. */
  predicate IsHandsOff(e: Event) {
    match e
    case External(c) => c.DoAccept? || IsQuiet(c)
    case AcceptDone(_, callback) => Quiet(callback)
    case ReadDone(_, _, _, callback) => Quiet(callback)
    case ControlFrame(callback) => Quiet(callback)
    case TimerDone(_, callback) => Quiet(callback)
    case _ => true
  }

  predicate HandsOff(es: seq<Event>) { forall e :: e in es ==> IsHandsOff(e) }

  lemma ContinueKeepsOneToken(s: State)
    requires s.accepted && s.readable
    requires s.pendingAccepts == 0 && s.pendingReads == 0 && s.pendingWrites == 0
    ensures OneToken(s.Continue(), 1, 0)
  {
  }

  lemma HandlerKeepsOneToken(s: State, callback: seq<Call>, text: bool)
    requires Quiet(callback) && s.accepted && s.readable
    requires s.pendingAccepts == 0 && s.pendingReads == 0 && s.pendingWrites == 0
    ensures var s1 := s.Run(callback);
            var s2 := s1.(input := "");
            && OneToken(s1.Continue(), 1, 0)
            && OneToken((if s2.autoFrame then s2.(textMode := text) else s2).Continue(), 1, 0)
  {
    hide State.Run, State.Continue, Sent, OneToken;
    QuietRun(s, callback);
    var s1 := s.Run(callback);
    var s2 := s1.(input := "");
    ContinueKeepsOneToken(s1);
    ContinueKeepsOneToken(s2);
    ContinueKeepsOneToken(s2.(textMode := text));
  }

  lemma CallKeepsOneToken(s: State, c: Call, accepts: nat, failures: nat)
    requires OneToken(s, accepts, failures) && (if c.DoAccept? then accepts == 0 else IsQuiet(c))
    ensures OneToken(s.Do(c), accepts + if c.DoAccept? then 1 else 0, failures)
  {
  }

  lemma EndKeepsOneToken(s: State, e: Event)
    requires Enabled(s, e) && OneToken(s, 1, 0) && (e.WriteDone? || IsFailure(e))
    ensures OneToken(Step(s, e), 1, if IsFailure(e) then 1 else 0)
  {
    hide State.Run, State.Continue;
  }

  lemma StepKeepsOneToken(s: State, e: Event, accepts: nat, failures: nat)
    requires Enabled(s, e) && IsHandsOff(e) && OneToken(s, accepts, failures)
    requires e == External(DoAccept) ==> accepts == 0
    ensures OneToken(Step(s, e), accepts + if e == External(DoAccept) then 1 else 0,
                     failures + if IsFailure(e) then 1 else 0)
  {
    hide State.Run, State.Do, State.Continue, State.OnTimer, Sent, Appended;
    if e.WriteDone? || IsFailure(e) {
      EndKeepsOneToken(s, e);
    } else {
      match e
      case External(c) => CallKeepsOneToken(s, c, accepts, failures);
      case AcceptDone(_, callback) =>
        HandlerKeepsOneToken(s.(pendingAccepts := 0, accepted := true), callback, true);
      case ReadDone(_, data, text, callback) =>
        HandlerKeepsOneToken(s.(pendingReads := 0, readable := true, input := s.input + data), callback, text);
      case ControlFrame(callback) => QuietRun(s, callback);
      case TimerDone(ec, callback) => TimerAppends(s.(waits := s.waits - 1), ec, callback);
      case Elapse(_) =>
    }
  }

  /** If user code leaves reading and writing to the handlers and starts one accept, there is one
      write at a time. */
  lemma {:induction false} HandsOffIsOneWriteAtATime(t0: Time, es: seq<Event>)
    requires IsRun(t0, es) && HandsOff(es) && AcceptCalls(es) <= 1
    ensures OneWriteAtATime(t0, es) && OneToken(After(t0, es), AcceptCalls(es), Failures(es))
    decreases |es|
  {
    hide Step, IsHandsOff;
    if es != [] {
      assert forall e :: e in Before(es) ==> e in es;
      HandsOffIsOneWriteAtATime(t0, Before(es));
      assert Last(es) in es;
      StepKeepsOneToken(After(t0, Before(es)), Last(es), AcceptCalls(Before(es)), Failures(Before(es)));
    }
  }

  // ---- a run that loses text ----

  lemma OneMoreCounted(es: seq<Event>, e: Event)
    ensures AppendedBy(es + [e]) == AppendedBy(es) + AppendedIn(e)
    ensures AcceptCalls(es + [e]) == AcceptCalls(es) + if e == External(DoAccept) then 1 else 0
    ensures Failures(es + [e]) == Failures(es) + if IsFailure(e) then 1 else 0
  {
    assert Before(es + [e]) == es;
  }

  /** Text appended behind a pending write leaves no trace once that write has succeeded: the run is
      the one in which it was never appended. */
  lemma AppendBehindAWriteIsLost(t0: Time, es: seq<Event>, text: string)
    requires IsRun(t0, es) && After(t0, es).pendingWrites > 0
    ensures var with := es + [External(Append(text))] + [WriteDone(NoError)];
            var without := es + [WriteDone(NoError)];
            && IsRun(t0, with) && IsRun(t0, without) && After(t0, with) == After(t0, without)
            && AppendedBy(with) == AppendedBy(without) + text
  {
    hide IsRun, After, AppendedBy;
    OneMoreEvent(t0, es, External(Append(text)));
    OneMoreCounted(es, External(Append(text)));
    OneMoreEvent(t0, es + [External(Append(text))], WriteDone(NoError));
    OneMoreCounted(es + [External(Append(text))], WriteDone(NoError));
    OneMoreEvent(t0, es, WriteDone(NoError));
    OneMoreCounted(es, WriteDone(NoError));
    assert AppendedBy(es) + text + "" == AppendedBy(es) + "" + text;
  }

  /** The failing input: the accept callback writes "a", and "b" is appended before that write
      completes. */
  const LOST_APPEND: seq<Event> :=
    [External(DoAccept), AcceptDone(NoError, [Append("a")]), External(Append("b")), WriteDone(NoError)]

  lemma StartsAccept(t0: Time)
    ensures var s := Initial(t0).Accept();
            && s.pendingAccepts == 1 && s.pendingReads == 0 && s.pendingWrites == 0
            && s.output == "" && s.readable && Sent(s.log) == []
    ensures IsRun(t0, []) && After(t0, []) == Initial(t0)
    ensures Step(Initial(t0), External(DoAccept)) == Initial(t0).Accept()
  {
    OneMore([]);
    assert Sent([]) == [];
  }

  lemma SendsA(s: State)
    requires s.pendingAccepts == 1 && s.output == ""
    ensures var s' := Step(s, AcceptDone(NoError, [Append("a")]));
            && s'.accepted && s'.readable == s.readable && s'.output == "a"
            && s'.pendingReads == s.pendingReads && s'.pendingWrites == s.pendingWrites + 1
            && Sent(s'.log) == Sent(s.log) + [Frame("a", s.textMode)]
  {
    var s1 := s.(pendingAccepts := 0, accepted := true);
    assert [Append("a")][..0] == [];
    assert s1.Run([Append("a")]) == s1.Run([]).Do(Append("a")) == s1.(output := "a");
    OneMore(s.log);
  }

  lemma DropsB(s: State)
    requires s.accepted && s.readable && s.pendingReads == 0 && s.pendingWrites == 1
    ensures var s' := Step(Step(s, External(Append("b"))), WriteDone(NoError));
            && s'.output == "" && s'.pendingReads == 1 && s'.pendingWrites == 0 && Sent(s'.log) == Sent(s.log)
    ensures Step(s, External(Append("b"))).pendingWrites == 1
  {
    OneMore(s.log);
  }

  lemma NothingCounted()
    ensures AppendedBy([]) == "" && AcceptCalls([]) == Failures([]) == 0
  {
  }

  lemma LostAppendCounts()
    ensures HandsOff(LOST_APPEND) && AcceptCalls(LOST_APPEND) == 1 && Failures(LOST_APPEND) == 0
    ensures AppendedBy(LOST_APPEND) == "ab"
  {
    hide AppendedBy, AcceptCalls, Failures;
    var a := [Append("a")];
    var es1 := [] + [External(DoAccept)];
    var es2 := es1 + [AcceptDone(NoError, a)];
    var es3 := es2 + [External(Append("b"))];
    assert LOST_APPEND == es3 + [WriteDone(NoError)];
    assert AppendedBy([]) == "" && AcceptCalls([]) == Failures([]) == 0 by { NothingCounted(); }
    assert a[..0] == [] && Appended([]) == "";
    OneMoreCounted([], External(DoAccept));
    OneMoreCounted(es1, AcceptDone(NoError, a));
    OneMoreCounted(es2, External(Append("b")));
    OneMoreCounted(es3, WriteDone(NoError));
  }

  /** Such a run: "ab" was appended, "a" was sent, nothing is left and no operation failed. */
  lemma LostAppend(t0: Time)
    ensures HandsOff(LOST_APPEND) && AcceptCalls(LOST_APPEND) == 1 && Failures(LOST_APPEND) == 0
    ensures IsRun(t0, LOST_APPEND) && AppendedBy(LOST_APPEND) == "ab"
    ensures var s := After(t0, LOST_APPEND);
            && Data(Sent(s.log)) == ["a"] && s.output == "" && s.pendingReads == 1 && s.pendingWrites == 0
  {
    hide IsRun, After, HandsOff, AppendedBy, AcceptCalls, Failures, Sent, Step;
    var es1 := [] + [External(DoAccept)];
    var es2 := es1 + [AcceptDone(NoError, [Append("a")])];
    var es3 := es2 + [External(Append("b"))];
    assert LOST_APPEND == es3 + [WriteDone(NoError)];
    LostAppendCounts();
    StartsAccept(t0);
    OneMoreEvent(t0, [], External(DoAccept));
    OneMoreEvent(t0, es1, AcceptDone(NoError, [Append("a")]));
    SendsA(After(t0, es1));
    DropsB(After(t0, es2));
    OneMoreEvent(t0, es2, External(Append("b")));
    OneMoreEvent(t0, es3, WriteDone(NoError));
  }
}
