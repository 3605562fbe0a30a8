/** What the response queue of an HTTPS session guarantees, over every run. */
module HttpsFlow {
  import opened Traces
  import opened HttpsSession

  // ---- the queue, for any pushes and completions ----

  /** A completed write that ends the session's writing: it failed, or its response was the last. */
  predicate Halts(s: State, e: Event)
    requires Enabled(s, e)
  {
    e.WriteDone? && (!e.ok || s.pendingWrites[e.which].needEof)
  }

  predicate Halted(es: seq<Event>) {
    es != [] && IsRun(es) && (Halted(Before(es)) || Halts(After(Before(es)), Last(es)))
  }

  /** The queue holds what was pushed and not removed; writes are started in the order of the
      pushes; the head, and only the head, is being written unless the session has halted. */
  ghost predicate QueueOrder(s: State, halted: bool) {
    && !s.assertionFailed
    && s.removed <= |s.pushed| && s.items == s.pushed[s.removed..]
    && s.started == s.pushed[..s.removed + if s.items == [] then 0 else 1]
    && (halted ==> s.items != [])
    && s.pendingWrites == (if s.items == [] || halted then [] else [s.items[0]])
  }

  lemma PushKeepsOrder(s: State, r: Response, halted: bool)
    requires QueueOrder(s, halted)
    ensures QueueOrder(s.Push(r), halted)
    ensures halted ==> s.Push(r).started == s.started
  {
    assert (s.pushed + [r])[s.removed..] == s.pushed[s.removed..] + [r];
    if s.items == [] {
      assert s.Push(r).pushed[..s.removed + 1] == s.pushed[..s.removed] + [r];
    } else {
      assert s.Push(r).pushed[..s.removed + 1] == s.pushed[..s.removed + 1];
    }
  }

  lemma PopKeepsOrder(s: State)
    requires QueueOrder(s, false) && s.items != []
    ensures QueueOrder(s.(pendingWrites := []).Pop(), false)
  {
    var n := s.removed + 1;
    assert s.items[1..] == s.pushed[n..];
    if s.items[1..] != [] {
      assert s.pushed[..n + 1] == s.pushed[..n] + [s.items[1]];
    }
  }

  lemma DoKeepsOrder(s: State, c: Call, halted: bool)
    requires QueueOrder(s, halted)
    ensures QueueOrder(s.Do(c), halted)
    ensures halted ==> s.Do(c).started == s.started
  {
    if c.DoWrite? { PushKeepsOrder(s, c.response, halted); }
  }

  lemma {:induction false} RunKeepsOrder(s: State, calls: seq<Call>, halted: bool)
    requires QueueOrder(s, halted)
    ensures QueueOrder(s.Run(calls), halted)
    ensures halted ==> s.Run(calls).started == s.started
    decreases |calls|
  {
    hide QueueOrder;
    if calls != [] {
      var front := calls[..|calls| - 1];
      RunKeepsOrder(s, front, halted);
      DoKeepsOrder(s.Run(front), calls[|calls| - 1], halted);
    }
  }

  lemma RequestKeepsOrder(s: State, routes: Routes, halted: bool)
    requires QueueOrder(s, halted)
    ensures QueueOrder(s.ProcessRequest(routes), halted)
    ensures halted ==> s.ProcessRequest(routes).started == s.started
  {
    hide State.Run, Dispatch;
    RunKeepsOrder(s, Dispatch(routes), halted);
  }

  lemma WriteKeepsOrder(s: State, which: nat, ok: bool, halted: bool)
    requires QueueOrder(s, halted) && which < |s.pendingWrites|
    ensures var s1 := s.(pendingWrites := Without(s.pendingWrites, which));
            QueueOrder(s1.OnWrite(ok, s.pendingWrites[which].needEof), !ok || s.pendingWrites[which].needEof)
  {
    hide State.Pop;
    assert Without(s.pendingWrites, which) == [];
    PopKeepsOrder(s);
  }

  lemma StepKeepsOrder(s: State, e: Event, halted: bool)
    requires Enabled(s, e) && QueueOrder(s, halted)
    ensures QueueOrder(Step(s, e), halted || Halts(s, e))
    ensures halted ==> Step(s, e).started == s.started
  {
    hide State.Run, State.Do, State.OnWrite, State.ProcessRequest;
    match e
    case External(c) => DoKeepsOrder(s, c, halted);
    case HandshakeDone(ok) =>
    case ReadDone(result) =>
      if result.Request? {
        RequestKeepsOrder(s.(pendingReads := s.pendingReads - 1, requests := s.requests + 1), result.routes, halted);
      }
    case WriteDone(which, ok) =>
      WriteKeepsOrder(s, which, ok, halted);
  }

  lemma InitialOrder()
    ensures QueueOrder(INITIAL, false)
  {
  }

  /** Queue refinement, over arbitrary callbacks, pushes and completions: the writes started are a
      prefix of the responses pushed, what has been pushed is what was removed followed by what is
      queued, at most one write is in flight and it is the queue's head, and the queue's assertion
      that it is not empty never fails. */
  lemma {:induction false} QueueRefinesPushes(es: seq<Event>)
    requires IsRun(es)
    ensures QueueOrder(After(es), Halted(es))
    decreases |es|
  {
    hide QueueOrder;
    if es == [] {
      assert QueueOrder(INITIAL, false) by { InitialOrder(); }
    } else {
      QueueRefinesPushes(Before(es));
      StepKeepsOrder(After(Before(es)), Last(es), Halted(Before(es)));
    }
  }

  /** After a failed write or a completed response that ends the connection, no further write ever
      begins, even if pushes continue. */
  lemma {:induction false} HaltingIsForGood(es: seq<Event>, n: nat)
    requires IsRun(es) && n <= |es| && Halted(es[..n])
    ensures IsRun(es[..n]) && Halted(es) && After(es).started == After(es[..n]).started
    decreases |es|
  {
    RunPrefix(es, n);
    if n < |es| {
      assert Before(es)[..n] == es[..n];
      HaltingIsForGood(Before(es), n);
      QueueRefinesPushes(Before(es));
      StepKeepsOrder(After(Before(es)), Last(es), true);
    } else {
      assert es[..n] == es;
    }
  }

  // ---- routing ----

  function RunCount(rs: seq<Route>): nat {
    if rs == [] then 0 else RunCount(rs[..|rs| - 1]) + if Runs(rs[|rs| - 1]) then 1 else 0
  }

  lemma {:induction false} NoneRun(rs: seq<Route>)
    ensures RunCount(rs) == 0 <==> !AnyRuns(rs)
    ensures RunCount(rs) == 0 ==> CallsOf(rs) == []
  {
    if rs != [] {
      var front, last := rs[..|rs| - 1], rs[|rs| - 1];
      assert rs == front + [last];
      NoneRun(front);
      if AnyRuns(front) {
        var r :| r in front && Runs(r);
        assert r in rs;
      }
      if Runs(last) { assert last in rs; }
    }
  }

  lemma {:induction false} OneRuns(rs: seq<Route>)
    requires RunCount(rs) == 1
    ensures exists r :: r in rs && Runs(r) && CallsOf(rs) == r.handler.calls
  {
    var front, last := rs[..|rs| - 1], rs[|rs| - 1];
    assert rs == front + [last];
    if Runs(last) {
      NoneRun(front);
      assert CallsOf(rs) == last.handler.calls;
    } else {
      OneRuns(front);
      var r :| r in front && Runs(r) && CallsOf(front) == r.handler.calls;
      assert r in rs && CallsOf(rs) == r.handler.calls;
    }
  }

  /** If the table that serves a request has at most one matching handler, the request runs that
      handler's calls and no others, and nothing only if there is none; a matching handler of the
      method's table shuts out the general one. */
  lemma OneMatchOneHandler(routes: Routes)
    requires RunCount(routes.byMethod) <= 1
    requires RunCount(routes.byMethod) == 0 ==> RunCount(routes.byResource) <= 1
    ensures RunCount(routes.byMethod) == 1 ==>
              exists r :: r in routes.byMethod && Runs(r) && Dispatch(routes) == r.handler.calls
    ensures RunCount(routes.byMethod) == 0 && RunCount(routes.byResource) == 1 ==>
              exists r :: r in routes.byResource && Runs(r) && Dispatch(routes) == r.handler.calls
    ensures RunCount(routes.byMethod) == RunCount(routes.byResource) == 0 ==> Dispatch(routes) == []
  {
    NoneRun(routes.byMethod);
    NoneRun(routes.byResource);
    if RunCount(routes.byMethod) == 1 {
      OneRuns(routes.byMethod);
    } else if RunCount(routes.byResource) == 1 {
      OneRuns(routes.byResource);
      var r :| r in routes.byResource && Runs(r) && CallsOf(routes.byResource) == r.handler.calls;
      assert Dispatch(routes) == r.handler.calls;
    }
  }

  // ---- flow control ----

  /** The responses written by a sequence of calls. */
  function Written(calls: seq<Call>): seq<Response> {
    if calls == [] then []
    else
      var c := calls[|calls| - 1];
      Written(calls[..|calls| - 1]) + if c.DoWrite? then [c.response] else []
  }

  /** The calls a request's handlers make answer it at most once and leave reading alone. */
  predicate AnswersAtMostOnce(calls: seq<Call>) {
    |Written(calls)| <= 1 && DoRead !in calls
  }

  /** What a request's handlers do to an open session. */
  ghost predicate Served(s: State, s': State, written: seq<Response>) {
    && s'.handshake && s'.items == s.items + written && s'.pushed == s.pushed + written
    && s'.requests == s.requests && s'.pendingHandshakes == s.pendingHandshakes
  }

  lemma CallServes(s: State, s1: State, c: Call, written: seq<Response>)
    requires Served(s, s1, written)
    ensures Served(s, s1.Do(c), written + if c.DoWrite? then [c.response] else [])
    ensures c != DoRead ==> s1.Do(c).pendingReads == s1.pendingReads
  {
  }

  lemma {:induction false} CallsServe(s: State, calls: seq<Call>)
    requires s.handshake
    ensures Served(s, s.Run(calls), Written(calls))
    ensures DoRead !in calls ==> s.Run(calls).pendingReads == s.pendingReads
    decreases |calls|
  {
    if calls != [] {
      var front, last := calls[..|calls| - 1], calls[|calls| - 1];
      assert last in calls && forall c :: c in front ==> c in calls;
      CallsServe(s, front);
      CallServes(s, s.Run(front), last, Written(front));
    }
  }

  // ---- who answers a request ----

  predicate Serves(r: Route) { r.matches && r.handler != NoHandler }

  /** What the matching handlers of a table write, one after another in the table's order. */
  function Answers(rs: seq<Route>): seq<Response> {
    if rs == [] then []
    else (if Serves(rs[0]) then Written(rs[0].handler.calls) else []) + Answers(rs[1..])
  }

  lemma {:induction false} AnswersConcat(a: seq<Route>, b: seq<Route>)
    ensures Answers(a + b) == Answers(a) + Answers(b)
  {
    if a == [] {
      assert a + b == b;
    } else {
      assert (a + b)[1..] == a[1..] + b;
      AnswersConcat(a[1..], b);
    }
  }

  lemma {:induction false} WrittenConcat(a: seq<Call>, b: seq<Call>)
    ensures Written(a + b) == Written(a) + Written(b)
  {
    if b == [] {
      assert a + b == a;
    } else {
      assert (a + b)[..|a + b| - 1] == a + b[..|b| - 1];
      WrittenConcat(a, b[..|b| - 1]);
    }
  }

  lemma {:induction false} CallsOfWrites(rs: seq<Route>)
    ensures Written(CallsOf(rs)) == Answers(rs)
  {
    if rs != [] {
      var front, last := rs[..|rs| - 1], rs[|rs| - 1];
      assert rs == front + [last];
      CallsOfWrites(front);
      WrittenConcat(CallsOf(front), if Runs(last) then last.handler.calls else []);
      AnswersConcat(front, [last]);
    }
  }

  /** The table that serves a request: its method's, if that holds a matching handler. */
  ghost function ServingTable(routes: Routes): seq<Route> {
    if exists r :: r in routes.byMethod && Serves(r) then routes.byMethod else routes.byResource
  }

  lemma RunsIsServes(rs: seq<Route>)
    ensures AnyRuns(rs) <==> exists r :: r in rs && Serves(r)
  {
    assert forall r :: Runs(r) <==> Serves(r);
  }

  /** A request on an open session is answered by every matching handler of its method's table, in
      order; only if there is none, by those of the general table. */
  lemma RequestIsAnswered(s: State, routes: Routes)
    requires s.handshake && s.pendingReads > 0
    ensures var s' := Step(s, ReadDone(Request(routes)));
            s'.pushed == s.pushed + Answers(ServingTable(routes))
    ensures Step(s, ReadDone(Request(routes))).requests == s.requests + 1
  {
    hide State.Run, CallsOf, Answers;
    CallsOfWrites(routes.byMethod);
    CallsOfWrites(routes.byResource);
    NoneRun(routes.byMethod);
    RunsIsServes(routes.byMethod);
    assert Dispatch(routes) == CallsOf(ServingTable(routes));
    CallsServe(s.(pendingReads := s.pendingReads - 1, requests := s.requests + 1), Dispatch(routes));
  }

  lemma {:induction false} NobodyAnswers(rs: seq<Route>)
    requires forall r :: r in rs ==> !Serves(r)
    ensures Answers(rs) == []
  {
    if rs != [] { NobodyAnswers(rs[1..]); }
  }

  /** Only route `i` of a table serves a request. */
  predicate OnlyServes(rs: seq<Route>, i: nat) {
    && i < |rs| && rs[i].matches && rs[i].handler != NoHandler
    && forall j :: 0 <= j < |rs| && j != i ==> !rs[j].matches || rs[j].handler == NoHandler
  }

  predicate NobodyServes(rs: seq<Route>) {
    forall j :: 0 <= j < |rs| ==> !rs[j].matches || rs[j].handler == NoHandler
  }

  lemma {:induction false} OnlyOneAnswers(rs: seq<Route>, i: nat)
    requires OnlyServes(rs, i)
    ensures Answers(rs) == Written(rs[i].handler.calls)
  {
    if i == 0 {
      NobodyAnswers(rs[1..]);
    } else {
      OnlyOneAnswers(rs[1..], i - 1);
    }
  }

  /** With one route in charge exactly its handler answers: a matching handler of the method's table
      whatever the general one holds, else one of the general table, else nobody. */
  lemma OneRouteAnswers(s: State, routes: Routes, i: nat)
    requires s.handshake && s.pendingReads > 0
    ensures var pushed := Step(s, ReadDone(Request(routes))).pushed;
            && (OnlyServes(routes.byMethod, i) ==> pushed == s.pushed + Written(routes.byMethod[i].handler.calls))
            && (NobodyServes(routes.byMethod) && OnlyServes(routes.byResource, i) ==>
                  pushed == s.pushed + Written(routes.byResource[i].handler.calls))
            && (NobodyServes(routes.byMethod) && NobodyServes(routes.byResource) ==> pushed == s.pushed)
  {
    hide Step, Answers, Written;
    RequestIsAnswered(s, routes);
    if OnlyServes(routes.byMethod, i) {
      assert routes.byMethod[i] in routes.byMethod && Serves(routes.byMethod[i]);
      OnlyOneAnswers(routes.byMethod, i);
    }
    if OnlyServes(routes.byResource, i) { OnlyOneAnswers(routes.byResource, i); }
    if NobodyServes(routes.byResource) { NobodyAnswers(routes.byResource); }
  }

  predicate IsWellBehaved(e: Event) {
    match e
    case External(c) => c.DoHandshake? || c.DoClose?
    case ReadDone(Request(routes)) => AnswersAtMostOnce(Dispatch(routes))
    case _ => true
  }

  predicate StopsReading(e: Event) {
    e.ReadDone? && !e.result.Request?
  }

  function HandshakeCalls(es: seq<Event>): nat {
    if es == [] then 0
    else HandshakeCalls(Before(es)) + if Last(es) == External(DoHandshake) then 1 else 0
  }

  ghost predicate Flow(s: State, calls: nat, stopped: bool) {
    && calls <= 1
    && s.pendingHandshakes + (if s.handshake then 1 else 0) <= calls
    && |s.items| <= LIMIT
    && (stopped ==> s.handshake && |s.items| < LIMIT)
    && (!s.handshake ==> s.items == [] && s.pendingReads == 0)
    && (s.handshake ==> s.pendingReads == if !stopped && |s.items| < LIMIT then 1 else 0)
  }

  lemma RequestKeepsFlow(s: State, routes: Routes, calls: nat)
    requires Flow(s, calls, false) && s.pendingReads == 1 && AnswersAtMostOnce(Dispatch(routes))
    ensures Flow(s.(pendingReads := 0, requests := s.requests + 1).ProcessRequest(routes), calls, false)
  {
    hide Dispatch, State.Run, Written;
    CallsServe(s.(pendingReads := 0, requests := s.requests + 1), Dispatch(routes));
  }

  lemma StepKeepsFlow(s: State, e: Event, calls: nat, stopped: bool, halted: bool)
    requires Enabled(s, e) && IsWellBehaved(e) && Flow(s, calls, stopped) && QueueOrder(s, halted)
    requires e == External(DoHandshake) ==> calls == 0
    ensures Flow(Step(s, e), calls + if e == External(DoHandshake) then 1 else 0, stopped || StopsReading(e))
    ensures stopped ==> Step(s, e).readsStarted == s.readsStarted
  {
    hide Dispatch, State.Run, State.ProcessRequest;
    match e
    case External(c) =>
    case HandshakeDone(ok) =>
    case ReadDone(result) =>
      if result.Request? { RequestKeepsFlow(s, result.routes, calls); }
    case WriteDone(which, ok) =>
      assert s.items != [];
  }

  /** Flow control: if do_handshake is called once, each request's handler answers at most once
      before it returns, and nobody else reads or writes, then in every run a read is outstanding
      after the handshake exactly when the queue holds fewer than eight responses and no read has
      failed or met the end of the stream; two reads are never outstanding, and the queue never
      holds more than eight. */
  lemma {:induction false} FlowControl(es: seq<Event>)
    requires IsRun(es) && HandshakeCalls(es) <= 1 && forall e :: e in es ==> IsWellBehaved(e)
    ensures Flow(After(es), HandshakeCalls(es), Some(es, StopsReading))
    ensures var s := After(es);
            && |s.items| <= 8
            && (s.pendingReads == 1 <==> s.handshake && |s.items| < 8 && !Some(es, StopsReading))
    decreases |es|
  {
    if es != [] {
      assert forall e :: e in Before(es) ==> e in es;
      assert Last(es) in es;
      FlowControl(Before(es));
      QueueRefinesPushes(Before(es));
      SomeOneMore(es, StopsReading);
      StepKeepsFlow(After(Before(es)), Last(es), HandshakeCalls(Before(es)), Some(Before(es), StopsReading),
                    Halted(Before(es)));
    }
  }

  /** ... and after the end of the stream or a failed read no read ever starts. */
  lemma NoReadAfterStop(es: seq<Event>)
    requires IsRun(es) && HandshakeCalls(es) <= 1 && forall e :: e in es ==> IsWellBehaved(e)
    requires es != [] && Some(Before(es), StopsReading)
    ensures After(es).readsStarted == After(Before(es)).readsStarted
  {
    assert forall e :: e in Before(es) ==> e in es;
    assert Last(es) in es;
    FlowControl(Before(es));
    QueueRefinesPushes(Before(es));
    StepKeepsFlow(After(Before(es)), Last(es), HandshakeCalls(Before(es)), true, Halted(Before(es)));
  }

  // ---- response order and pairing ----

  /** The handler of the request now being read answers it exactly once, before it returns. */
  predicate AnswersExactlyOnce(s: State, e: Event) {
    match e
    case External(c) => !c.DoWrite?
    case ReadDone(Request(routes)) =>
      var written := Written(Dispatch(routes));
      |written| == 1 && written[0].answers == s.requests
    case _ => true
  }

  predicate IsPairedRun(es: seq<Event>)
    requires IsRun(es)
  {
    es == [] || (IsPairedRun(Before(es)) && AnswersExactlyOnce(After(Before(es)), Last(es)))
  }

  ghost predicate Paired(s: State) {
    && |s.pushed| == s.requests
    && (s.pendingReads > 0 ==> s.handshake)
    && forall k :: 0 <= k < |s.pushed| ==> s.pushed[k].answers == k
  }

  lemma StepKeepsPairing(s: State, e: Event)
    requires Enabled(s, e) && AnswersExactlyOnce(s, e) && Paired(s)
    ensures Paired(Step(s, e))
  {
    hide Dispatch, State.Run, Written;
    match e
    case External(c) =>
    case HandshakeDone(ok) =>
    case ReadDone(result) =>
      if result.Request? {
        CallsServe(s.(pendingReads := s.pendingReads - 1, requests := s.requests + 1), Dispatch(result.routes));
      }
    case WriteDone(which, ok) =>
  }

  /** Response order and pairing: with exactly one response per request, the k-th response put on
      the wire answers the k-th request read, and between handlers the requests read are the
      responses completed and removed plus the responses queued. */
  lemma {:induction false} ResponsesAnswerInOrder(es: seq<Event>)
    requires IsRun(es) && IsPairedRun(es)
    ensures var s := After(es);
            && Paired(s)
            && (forall k :: 0 <= k < |s.started| ==> s.started[k].answers == k)
            && s.requests == s.removed + |s.items|
    decreases |es|
  {
    QueueRefinesPushes(es);
    if es != [] {
      ResponsesAnswerInOrder(Before(es));
      StepKeepsPairing(After(Before(es)), Last(es));
    }
  }

  // ---- before the handshake, and how often the stream is shut down ----

  predicate IsHandshaked(e: Event) { e.HandshakeDone? && e.ok }

  ghost predicate Idle(s: State) {
    s.pendingReads == 0 && s.readsStarted == 0 && s.requests == 0 && s.pushed == [] && s.pendingWrites == []
  }

  lemma {:induction false} RunKeepsHandshake(s: State, calls: seq<Call>)
    requires s.handshake
    ensures s.Run(calls).handshake && s.Run(calls).pendingHandshakes == s.pendingHandshakes
    decreases |calls|
  {
    if calls != [] { RunKeepsHandshake(s, calls[..|calls| - 1]); }
  }

  lemma StepKeepsIdle(s: State, e: Event)
    requires Enabled(s, e) && (!s.handshake ==> Idle(s))
    ensures var s' := Step(s, e);
            && (s'.handshake <==> s.handshake || IsHandshaked(e))
            && (!s'.handshake ==> Idle(s'))
            && s'.pendingHandshakes + (if e.HandshakeDone? then 1 else 0)
               == s.pendingHandshakes + if e == External(DoHandshake) && !s.handshake then 1 else 0
  {
    hide State.Run, Dispatch;
    if e.ReadDone? && e.result.Request? {
      RunKeepsHandshake(s.(pendingReads := s.pendingReads - 1, requests := s.requests + 1), Dispatch(e.result.routes));
    }
  }

  /** Handshakes that do_handshake had to start, and those that completed. */
  function HandshakesAsked(es: seq<Event>): nat
    requires IsRun(es)
  {
    if es == [] then 0
    else
      HandshakesAsked(Before(es))
      + if Last(es) == External(DoHandshake) && !After(Before(es)).handshake then 1 else 0
  }

  function HandshakesDone(es: seq<Event>): nat {
    if es == [] then 0 else HandshakesDone(Before(es)) + if Last(es).HandshakeDone? then 1 else 0
  }

  lemma InitialIdle()
    ensures Idle(INITIAL)
  {
  }

  /** In every run: the handshake counts as done exactly when one succeeded; before that nothing is
      read and nothing is taken into the queue; and a handshake is started by each do_handshake from
      outside that finds none done, and by nothing else. */
  lemma {:induction false} NothingBeforeHandshake(es: seq<Event>)
    requires IsRun(es)
    ensures After(es).handshake <==> Some(es, IsHandshaked)
    ensures !After(es).handshake ==> Idle(After(es))
    ensures After(es).pendingHandshakes + HandshakesDone(es) == HandshakesAsked(es)
    decreases |es|
  {
    hide Step, Idle;
    if es == [] {
      assert Idle(INITIAL) by { InitialIdle(); }
    } else {
      NothingBeforeHandshake(Before(es));
      SomeOneMore(es, IsHandshaked);
      StepKeepsIdle(After(Before(es)), Last(es));
    }
  }

  function ClosesIn(calls: seq<Call>): nat {
    if calls == [] then 0 else ClosesIn(calls[..|calls| - 1]) + if calls[|calls| - 1].DoClose? then 1 else 0
  }

  /** The shutdowns the matching handlers of a table ask for. */
  function ClosesOf(rs: seq<Route>): nat {
    if rs == [] then 0
    else ClosesOf(rs[..|rs| - 1]) + if Serves(rs[|rs| - 1]) then ClosesIn(rs[|rs| - 1].handler.calls) else 0
  }

  /** Ends of stream, completed responses that end the connection, and do_close calls. */
  ghost function ClosingsIn(s: State, e: Event): nat
    requires Enabled(s, e)
  {
    match e
    case External(c) => if c == DoClose then 1 else 0
    case HandshakeDone(_) => 0
    case ReadDone(EndOfStream) => 1
    case ReadDone(ReadError) => 0
    case ReadDone(Request(routes)) =>
      ClosesOf(ServingTable(routes))
    case WriteDone(which, ok) => if ok && s.pendingWrites[which].needEof then 1 else 0
  }

  ghost function Closings(es: seq<Event>): nat
    requires IsRun(es)
  {
    if es == [] then 0 else Closings(Before(es)) + ClosingsIn(After(Before(es)), Last(es))
  }

  lemma {:induction false} RunCloses(s: State, calls: seq<Call>)
    ensures s.Run(calls).shutdowns == s.shutdowns + ClosesIn(calls)
    decreases |calls|
  {
    if calls != [] { RunCloses(s, calls[..|calls| - 1]); }
  }

  lemma {:induction false} ClosesConcat(a: seq<Call>, b: seq<Call>)
    ensures ClosesIn(a + b) == ClosesIn(a) + ClosesIn(b)
  {
    if b == [] {
      assert a + b == a;
    } else {
      assert (a + b)[..|a + b| - 1] == a + b[..|b| - 1];
      ClosesConcat(a, b[..|b| - 1]);
    }
  }

  lemma {:induction false} CallsOfClose(rs: seq<Route>)
    ensures ClosesIn(CallsOf(rs)) == ClosesOf(rs)
  {
    if rs != [] {
      var front, last := rs[..|rs| - 1], rs[|rs| - 1];
      CallsOfClose(front);
      ClosesConcat(CallsOf(front), if Runs(last) then last.handler.calls else []);
    }
  }

  lemma RequestCloses(s: State, routes: Routes)
    ensures s.ProcessRequest(routes).shutdowns
            == s.shutdowns + ClosesOf(ServingTable(routes))
  {
    hide State.Run, CallsOf, ClosesIn, ClosesOf;
    var table := ServingTable(routes);
    NoneRun(routes.byMethod);
    RunsIsServes(routes.byMethod);
    assert Dispatch(routes) == CallsOf(table);
    CallsOfClose(table);
    RunCloses(s, Dispatch(routes));
  }

  lemma StepCloses(s: State, e: Event)
    requires Enabled(s, e)
    ensures Step(s, e).shutdowns == s.shutdowns + ClosingsIn(s, e)
  {
    hide State.ProcessRequest, ServingTable, ClosesOf;
    if e.ReadDone? && e.result.Request? {
      RequestCloses(s.(pendingReads := s.pendingReads - 1, requests := s.requests + 1), e.result.routes);
    }
  }

  /** In every run the stream is shut down once for each end of stream, each completed response that
      ends the connection and each do_close call, those of the matching handlers included. */
  lemma {:induction false} ShutdownsCounted(es: seq<Event>)
    requires IsRun(es)
    ensures After(es).shutdowns == Closings(es)
    decreases |es|
  {
    hide Step, ClosingsIn;
    if es != [] {
      ShutdownsCounted(Before(es));
      StepCloses(After(Before(es)), Last(es));
    }
  }
}
