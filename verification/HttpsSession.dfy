/** An HTTPS server session: a bounded queue of responses, and the driver that reads requests while
    the queue has room. Layout and conventions are those of ServerSession. */
module HttpsSession {
  import opened Traces

  const LIMIT: nat := 8

  /** A response; `answers` numbers the request its handler was invoked for, `needEof` says that the
      connection is to be closed after it. */
  datatype Response = Response(answers: nat, needEof: bool)

  datatype Call = DoHandshake | DoRead | DoWrite(response: Response) | DoClose

  // ---- routing ----

  datatype Handler = NoHandler | Handler(calls: seq<Call>)

  /** One entry of a routing table: whether its pattern matches the request's target. */
  datatype Route = Route(matches: bool, handler: Handler)

  /** The entries met for a request: those of its method's table, and those of the general one.
      A table that does not exist is empty. */
  datatype Routes = Routes(byMethod: seq<Route>, byResource: seq<Route>)

  predicate Runs(r: Route) { r.matches && r.handler.Handler? }

  predicate AnyRuns(rs: seq<Route>) { exists r :: r in rs && Runs(r) }

  /** The calls of every matching handler of a table, one handler after another. */
  function CallsOf(rs: seq<Route>): seq<Call> {
    if rs == [] then []
    else
      var r := rs[|rs| - 1];
      CallsOf(rs[..|rs| - 1]) + if Runs(r) then r.handler.calls else []
  }

  /** The general table is consulted only when no handler of the method's table ran. */
  function Dispatch(routes: Routes): seq<Call> {
    CallsOf(routes.byMethod) + if AnyRuns(routes.byMethod) then [] else CallsOf(routes.byResource)
  }

  lemma CallsOneMore(rs: seq<Route>, i: nat)
    requires i < |rs|
    ensures Runs(rs[i]) ==> CallsOf(rs[..i + 1]) == CallsOf(rs[..i]) + rs[i].handler.calls
    ensures !Runs(rs[i]) ==> CallsOf(rs[..i + 1]) == CallsOf(rs[..i])
    ensures AnyRuns(rs[..i + 1]) <==> AnyRuns(rs[..i]) || Runs(rs[i])
  {
    assert rs[..i + 1] == rs[..i] + [rs[i]];
    assert rs[..i + 1][..i] == rs[..i];
    assert rs[i] in rs[..i + 1];
    assert forall r :: r in rs[..i] ==> r in rs[..i + 1];
  }

  // ---- state ----

  datatype State = State(
    handshake: bool,
    items: seq<Response>,
    pendingHandshakes: nat, pendingReads: nat,
    pendingWrites: seq<Response>,       // writes started and not completed
    pushed: seq<Response>,              // every response ever handed to the queue
    started: seq<Response>,             // every write ever started
    removed: nat,                       // responses completed and removed from the queue
    requests: nat,                      // requests read
    readsStarted: nat, shutdowns: nat,
    assertionFailed: bool)              // the queue's non-empty assertion
  {
    predicate IsFull() {
      |items| >= LIMIT
    }

    function StartWrite(r: Response): State {
      this.(pendingWrites := pendingWrites + [r], started := started + [r])
    }

    function Push(r: Response): State {
      var s := this.(items := items + [r], pushed := pushed + [r]);
      if |s.items| == 1 then s.StartWrite(s.items[0]) else s
    }

    /** The queue's own `on_write`, without its result. */
    function Pop(): State {
      if items == [] then this.(assertionFailed := true)
      else
        var s := this.(items := items[1..], removed := removed + 1);
        if s.items != [] then s.StartWrite(s.items[0]) else s
    }

    function Handshake(): State {
      if handshake then this else this.(pendingHandshakes := pendingHandshakes + 1)
    }

    function Read(): State {
      if !handshake then this
      else this.(pendingReads := pendingReads + 1, readsStarted := readsStarted + 1)
    }

    function Write(r: Response): State {
      if !handshake then this else Push(r)
    }

    function Close(): State {
      this.(shutdowns := shutdowns + 1)
    }

    function Do(c: Call): State {
      match c
      case DoHandshake => Handshake()
      case DoRead => Read()
      case DoWrite(r) => Write(r)
      case DoClose => Close()
    }

    function Run(calls: seq<Call>): State
      decreases |calls|
    {
      if calls == [] then this else Run(calls[..|calls| - 1]).Do(calls[|calls| - 1])
    }

    function OnHandshake(ok: bool): State {
      if !ok then this else this.(handshake := true).Read()
    }

    function ProcessRequest(routes: Routes): State {
      var s := Run(Dispatch(routes));
      if !s.IsFull() then s.Read() else s
    }

    function OnRead(result: ReadResult): State {
      match result
      case EndOfStream => Close()
      case ReadError => this
      case Request(routes) => this.(requests := requests + 1).ProcessRequest(routes)
    }

    function OnWrite(ok: bool, needEof: bool): State {
      if !ok then this
      else if needEof then Close()
      else if IsFull() then Pop().Read() else Pop()
    }
  }

  const INITIAL := State(false, [], 0, 0, [], [], [], 0, 0, 0, 0, false)

  datatype ReadResult = Request(routes: Routes) | EndOfStream | ReadError

  datatype Event =
    | External(call: Call)
    | HandshakeDone(ok: bool)
    | ReadDone(result: ReadResult)
    | WriteDone(which: nat, ok: bool)

  predicate Enabled(s: State, e: Event) {
    match e
    case External(_) => true
    case HandshakeDone(_) => s.pendingHandshakes > 0
    case ReadDone(_) => s.pendingReads > 0
    case WriteDone(which, _) => which < |s.pendingWrites|
  }

  function Step(s: State, e: Event): State
    requires Enabled(s, e)
  {
    match e
    case External(c) => s.Do(c)
    case HandshakeDone(ok) => s.(pendingHandshakes := s.pendingHandshakes - 1).OnHandshake(ok)
    case ReadDone(result) => s.(pendingReads := s.pendingReads - 1).OnRead(result)
    case WriteDone(which, ok) =>
      s.(pendingWrites := Without(s.pendingWrites, which)).OnWrite(ok, s.pendingWrites[which].needEof)
  }

  predicate IsRun(es: seq<Event>)
    decreases |es|, 0
  {
    es == [] || (IsRun(Before(es)) && Enabled(After(Before(es)), Last(es)))
  }

  function After(es: seq<Event>): State
    requires IsRun(es)
    decreases |es|, 1
  {
    if es == [] then INITIAL else Step(After(Before(es)), Last(es))
  }

  lemma NothingRun(s: State)
    ensures CallsOf([]) == [] && !AnyRuns([]) && s.Run([]) == s
  {
  }

  lemma {:induction false} RunConcat(s: State, a: seq<Call>, b: seq<Call>)
    ensures s.Run(a + b) == s.Run(a).Run(b)
    decreases |b|
  {
    if b == [] {
      assert a + b == a;
    } else {
      assert (a + b)[..|a + b| - 1] == a + b[..|b| - 1];
      RunConcat(s, a, b[..|b| - 1]);
    }
  }

  lemma {:induction false} RunPrefix(es: seq<Event>, n: nat)
    requires IsRun(es) && n <= |es|
    ensures IsRun(es[..n])
    decreases |es|
  {
    if n < |es| {
      assert es[..n] == Before(es)[..n];
      RunPrefix(Before(es), n);
    } else {
      assert es[..n] == es;
    }
  }

  // ---- the objects ----

  /** The queue and the writing half of the connection it starts its work on. */
  class Queue {
    var items: seq<Response>
    var pendingWrites: seq<Response>
    var pushed: seq<Response>
    var started: seq<Response>
    var removed: nat
    var assertionFailed: bool

    constructor ()
      ensures items == [] && pendingWrites == [] && pushed == [] && started == []
      ensures removed == 0 && !assertionFailed
    {
      items, pendingWrites, pushed, started, removed, assertionFailed := [], [], [], [], 0, false;
    }

    predicate IsFull()
      reads this
    {
      |items| >= LIMIT
    }

    method StartFront()
      requires items != []
      modifies this`pendingWrites, this`started
      ensures pendingWrites == old(pendingWrites) + [items[0]]
      ensures started == old(started) + [items[0]]
    {
      pendingWrites, started := pendingWrites + [items[0]], started + [items[0]];
    }

    /** Returns whether the caller should start a read. */
    method OnWrite() returns (wasFull: bool)
      modifies this
      ensures wasFull == old(IsFull())
      ensures old(items) == [] ==>
                && assertionFailed
                && unchanged(this`items, this`pendingWrites, this`pushed, this`started, this`removed)
      ensures old(items) != [] ==>
                && items == old(items)[1..] && removed == old(removed) + 1
                && pushed == old(pushed) && assertionFailed == old(assertionFailed)
                && pendingWrites == old(pendingWrites) + items[..if items == [] then 0 else 1]
                && started == old(started) + items[..if items == [] then 0 else 1]
    {
      wasFull := IsFull();
      if items == [] {
        assertionFailed := true;
        return;
      }
      items := items[1..];
      removed := removed + 1;
      if items != [] {
        StartFront();
      }
    }

    method Push(msg: Response)
      modifies this
      ensures items == old(items) + [msg] && pushed == old(pushed) + [msg]
      ensures pendingWrites == old(pendingWrites) + if old(items) == [] then [msg] else []
      ensures started == old(started) + if old(items) == [] then [msg] else []
      ensures removed == old(removed) && assertionFailed == old(assertionFailed)
    {
      items := items + [msg];
      pushed := pushed + [msg];
      if |items| == 1 {
        StartFront();
      }
    }
  }

  class Session {
    const queue: Queue
    var handshake: bool
    var pendingHandshakes: nat
    var pendingReads: nat
    var requests: nat
    var readsStarted: nat
    var shutdowns: nat

    function Value(): State
      reads this, queue
    {
      State(handshake, queue.items, pendingHandshakes, pendingReads, queue.pendingWrites, queue.pushed,
            queue.started, queue.removed, requests, readsStarted, shutdowns, queue.assertionFailed)
    }

    constructor ()
      ensures Value() == INITIAL && fresh(queue)
    {
      queue := new Queue();
      handshake, pendingHandshakes, pendingReads := false, 0, 0;
      requests, readsStarted, shutdowns := 0, 0, 0;
    }

    method Handshake()
      modifies this
      ensures Value() == old(Value()).Handshake()
    {
      if handshake {
        return;
      }
      pendingHandshakes := pendingHandshakes + 1;
    }

    method Read()
      modifies this
      ensures Value() == old(Value()).Read()
    {
      if !handshake {
        return;
      }
      pendingReads := pendingReads + 1;
      readsStarted := readsStarted + 1;
    }

    method Write(msg: Response)
      modifies this, queue
      ensures Value() == old(Value()).Write(msg)
    {
      if !handshake {
        return;
      }
      queue.Push(msg);
    }

    method Close()
      modifies this
      ensures Value() == old(Value()).Close()
    {
      shutdowns := shutdowns + 1;
    }

    method Do(c: Call)
      modifies this, queue
      ensures Value() == old(Value()).Do(c)
    {
      match c
      case DoHandshake => Handshake();
      case DoRead => Read();
      case DoWrite(r) => Write(r);
      case DoClose => Close();
    }

    method Invoke(calls: seq<Call>)
      modifies this, queue
      ensures Value() == old(Value()).Run(calls)
    {
      for i := 0 to |calls|
        invariant Value() == old(Value()).Run(calls[..i])
      {
        Do(calls[i]);
        assert calls[..i + 1][..i] == calls[..i];
      }
      assert calls[..|calls|] == calls;
    }

    method OnHandshake(ok: bool)
      modifies this
      ensures Value() == old(Value()).OnHandshake(ok)
    {
      if !ok {
        return;
      }
      handshake := true;
      Read();
    }

    method OnRead(result: ReadResult)
      modifies this, queue
      ensures Value() == old(Value()).OnRead(result)
    {
      match result
      case EndOfStream => Close();
      case ReadError =>
      case Request(routes) =>
        requests := requests + 1;
        ProcessRequest(routes);
    }

    method OnWrite(ok: bool, close: bool)
      modifies this, queue
      ensures Value() == old(Value()).OnWrite(ok, close)
    {
      if !ok {
        return;
      }
      if close {
        Close();
        return;
      }
      var wasFull := queue.OnWrite();
      if wasFull {
        Read();
      }
    }

    method ProcessRequest(routes: Routes)
      modifies this, queue
      ensures Value() == old(Value()).ProcessRequest(routes)
    {
      hide CallsOf, AnyRuns, State.Run;
      var invoked := false;
      ghost var start := Value();
      ghost var done: seq<Call> := [];
      NothingRun(start);

      var byMethod := routes.byMethod;
      for i := 0 to |byMethod|
        invariant invoked <==> AnyRuns(byMethod[..i])
        invariant done == CallsOf(byMethod[..i]) && Value() == start.Run(done)
      {
        var value := byMethod[i];
        CallsOneMore(byMethod, i);
        if value.matches {
          if value.handler.Handler? {
            RunConcat(start, done, value.handler.calls);
            Invoke(value.handler.calls);
            done := done + value.handler.calls;
            invoked := true;
          }
        }
      }
      assert byMethod[..|byMethod|] == byMethod;

      var byResource := routes.byResource;
      ghost var before := done;
      for i := 0 to |byResource|
        invariant done == before + (if invoked then [] else CallsOf(byResource[..i]))
        invariant Value() == start.Run(done)
      {
        var value := byResource[i];
        CallsOneMore(byResource, i);
        if value.matches {
          if value.handler.Handler? && !invoked {
            RunConcat(start, done, value.handler.calls);
            Invoke(value.handler.calls);
            done := done + value.handler.calls;
          }
        }
      }
      assert byResource[..|byResource|] == byResource;
      assert done == Dispatch(routes);

      if !queue.IsFull() {
        Read();
      }
    }

    method Handle(e: Event)
      requires Enabled(Value(), e)
      modifies this, queue
      ensures Value() == Step(old(Value()), e)
    {
      match e
      case External(c) => Do(c);
      case HandshakeDone(ok) =>
        pendingHandshakes := pendingHandshakes - 1;
        OnHandshake(ok);
      case ReadDone(result) =>
        pendingReads := pendingReads - 1;
        OnRead(result);
      case WriteDone(which, ok) =>
        var close := queue.pendingWrites[which].needEof;
        queue.pendingWrites := Without(queue.pendingWrites, which);
        OnWrite(ok, close);
    }
  }
}
