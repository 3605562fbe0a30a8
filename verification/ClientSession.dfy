/** The client side of a WebSocket session. Unlike the server's it has no timer, it reads on after a
    handshake or message only if its callback asks for it, and a write carries the wish to read
    next to its completion. Layout and conventions are those of ServerSession. */
module ClientSession {
  import opened Traces
  import Server = ServerSession

  type Frame = Server.Frame

  datatype Op =
    | Handshake | Read | Write(frame: Frame, nextRead: bool) | Ping | Pong | Close
    | Reported(what: string)

  datatype Call =
    | DoHandshake | DoRead | DoWrite(nextRead: bool) | DoPing | DoPong | DoClose
    | Append(text: string)
    | SetAutoFrame | SetTextFrame | SetBinaryFrame

  /** The calls a user callback makes and the value it leaves in its `next_read` argument. */
  datatype Callback = Callback(calls: seq<Call>, nextRead: bool)

  datatype State = State(
    handshaked: bool, autoFrame: bool, readable: bool,
    input: string, output: string,
    textMode: bool,
    pendingHandshakes: nat, pendingReads: nat,
    pendingWrites: seq<bool>,                   // the `next_read` of each write not completed
    log: seq<Op>)
  {
    function Note(op: Op): State {
      this.(log := log + [op])
    }

    function Handshake(): State {
      if handshaked then this else this.(pendingHandshakes := pendingHandshakes + 1).Note(Op.Handshake)
    }

    function Read(): State {
      if !handshaked || !readable then this
      else this.(readable := false, pendingReads := pendingReads + 1).Note(Op.Read)
    }

    function Write(nextRead: bool): State {
      if !handshaked then this
      else this.(pendingWrites := pendingWrites + [nextRead])
               .Note(Op.Write(Server.Frame(output, textMode), nextRead))
    }

    function Control(op: Op): State {
      if !handshaked then this else Note(op)
    }

    function Do(c: Call): State {
      match c
      case DoHandshake => Handshake()
      case DoRead => Read()
      case DoWrite(nextRead) => Write(nextRead)
      case DoPing => Control(Ping)
      case DoPong => Control(Pong)
      case DoClose => Control(Close)
      case Append(text) => this.(output := output + text)
      case SetAutoFrame => this.(autoFrame := true)
      case SetTextFrame => this.(autoFrame := false, textMode := true)
      case SetBinaryFrame => this.(autoFrame := false, textMode := false)
    }

    function Run(calls: seq<Call>): State
      decreases |calls|
    {
      if calls == [] then this else Run(calls[..|calls| - 1]).Do(calls[|calls| - 1])
    }

    /** The end of the handshake and message handlers. */
    function Finish(nextRead: bool): State {
      if output != "" then Write(nextRead) else this
    }

    function OnHandshake(ok: bool, callback: Callback): State {
      if !ok then Note(Reported("handshake"))
      else this.(handshaked := true).Run(callback.calls).Finish(callback.nextRead)
    }

    /** What the message callback finds: the message read stands in the input buffer. */
    function Received(data: string): State {
      this.(readable := true, input := input + data)
    }

    function OnRead(ok: bool, data: string, text: bool, callback: Callback): State {
      if !ok then Note(Reported("read"))
      else
        var s := Received(data).Run(callback.calls).(input := "");
        (if s.autoFrame then s.(textMode := text) else s).Finish(callback.nextRead)
    }

    function OnWrite(ok: bool, nextRead: bool): State {
      if !ok then Note(Reported("write"))
      else
        var s := this.(output := "");
        if nextRead && s.readable then s.Read() else s
    }
  }

  const INITIAL := State(false, true, true, "", "", true, 0, 0, [], [])

  datatype Event =
    | External(call: Call)
    | HandshakeDone(ok: bool, callback: Callback)
    | ReadDone(ok: bool, data: string, text: bool, callback: Callback)
    | WriteDone(which: nat, ok: bool)
    | ControlFrame(calls: seq<Call>)

  predicate Enabled(s: State, e: Event) {
    match e
    case External(_) => true
    case HandshakeDone(_, _) => s.pendingHandshakes > 0
    case ReadDone(_, _, _, _) => s.pendingReads > 0
    case WriteDone(which, _) => which < |s.pendingWrites|
    case ControlFrame(_) => s.pendingReads > 0
  }

  function Step(s: State, e: Event): State
    requires Enabled(s, e)
  {
    match e
    case External(c) => s.Do(c)
    case HandshakeDone(ok, callback) =>
      s.(pendingHandshakes := s.pendingHandshakes - 1).OnHandshake(ok, callback)
    case ReadDone(ok, data, text, callback) =>
      s.(pendingReads := s.pendingReads - 1).OnRead(ok, data, text, callback)
    case WriteDone(which, ok) =>
      s.(pendingWrites := Without(s.pendingWrites, which)).OnWrite(ok, s.pendingWrites[which])
    case ControlFrame(calls) => s.Run(calls)
  }

  predicate IsRun(es: seq<Event>)
    decreases |es|, 0
  {
    es == [] || (IsRun(Before(es)) && Enabled(After(Before(es)), Last(es)))
  }

  function After(es: seq<Event>): State
    requires IsRun(es)
    decreases |es|, 1
  {
    if es == [] then INITIAL else Step(After(Before(es)), Last(es))
  }

  lemma {:induction false} RunPrefix(es: seq<Event>, n: nat)
    requires IsRun(es) && n <= |es|
    ensures IsRun(es[..n])
    decreases |es|
  {
    if n < |es| {
      assert es[..n] == Before(es)[..n];
      RunPrefix(Before(es), n);
    } else {
      assert es[..n] == es;
    }
  }

  // ---- the object ----

  class Session {
    var handshaked: bool
    var autoFrame: bool
    var readable: bool
    var input: string
    var output: string
    var textMode: bool
    var pendingHandshakes: nat
    var pendingReads: nat
    var pendingWrites: seq<bool>
    var log: seq<Op>

    function Value(): State
      reads this
    {
      State(handshaked, autoFrame, readable, input, output, textMode, pendingHandshakes, pendingReads,
            pendingWrites, log)
    }

    constructor ()
      ensures Value() == INITIAL
    {
      handshaked, autoFrame, readable, input, output, textMode := false, true, true, "", "", true;
      pendingHandshakes, pendingReads, pendingWrites, log := 0, 0, [], [];
    }

    method Note(op: Op)
      modifies this`log
      ensures log == old(log) + [op]
    {
      log := log + [op];
    }

    method Handshake()
      modifies this
      ensures Value() == old(Value()).Handshake()
    {
      if handshaked {
        return;
      }
      pendingHandshakes := pendingHandshakes + 1;
      Note(Op.Handshake);
    }

    method Read()
      modifies this
      ensures Value() == old(Value()).Read()
    {
      if !handshaked || !readable {
        return;
      }
      readable := false;
      pendingReads := pendingReads + 1;
      Note(Op.Read);
    }

    method Write(nextRead: bool)
      modifies this
      ensures Value() == old(Value()).Write(nextRead)
    {
      if !handshaked {
        return;
      }
      pendingWrites := pendingWrites + [nextRead];
      Note(Op.Write(Server.Frame(output, textMode), nextRead));
    }

    method Control(op: Op)
      modifies this
      ensures Value() == old(Value()).Control(op)
    {
      if !handshaked {
        return;
      }
      Note(op);
    }

    method Do(c: Call)
      modifies this
      ensures Value() == old(Value()).Do(c)
    {
      match c
      case DoHandshake => Handshake();
      case DoRead => Read();
      case DoWrite(nextRead) => Write(nextRead);
      case DoPing => Control(Ping);
      case DoPong => Control(Pong);
      case DoClose => Control(Close);
      case Append(text) => output := output + text;
      case SetAutoFrame => autoFrame := true;
      case SetTextFrame => autoFrame, textMode := false, true;
      case SetBinaryFrame => autoFrame, textMode := false, false;
    }

    method Invoke(calls: seq<Call>)
      modifies this
      ensures Value() == old(Value()).Run(calls)
    {
      for i := 0 to |calls|
        invariant Value() == old(Value()).Run(calls[..i])
      {
        Do(calls[i]);
        assert calls[..i + 1][..i] == calls[..i];
      }
      assert calls[..|calls|] == calls;
    }

    method OnHandshake(ok: bool, callback: Callback)
      modifies this
      ensures Value() == old(Value()).OnHandshake(ok, callback)
    {
      hide State.Run, State.Write;
      if !ok {
        Note(Reported("handshake"));
        return;
      }
      handshaked := true;
      Invoke(callback.calls);
      if output != "" {
        Write(callback.nextRead);
      }
    }

    method OnRead(ok: bool, data: string, text: bool, callback: Callback)
      modifies this
      ensures Value() == old(Value()).OnRead(ok, data, text, callback)
    {
      hide State.Run, State.Write;
      if !ok {
        Note(Reported("read"));
        return;
      }
      readable := true;
      input := input + data;
      Invoke(callback.calls);
      assert Value() == old(Value()).(readable := true, input := old(input) + data).Run(callback.calls);
      input := "";
      if autoFrame {
        textMode := text;
      }
      if output != "" {
        Write(callback.nextRead);
      }
    }

    method OnWrite(ok: bool, nextRead: bool)
      modifies this
      ensures Value() == old(Value()).OnWrite(ok, nextRead)
    {
      if !ok {
        Note(Reported("write"));
        return;
      }
      output := "";
      if nextRead && readable {
        Read();
      }
    }

    method Handle(e: Event)
      requires Enabled(Value(), e)
      modifies this
      ensures Value() == Step(old(Value()), e)
    {
      hide State.Run;
      match e
      case External(c) => Do(c);
      case HandshakeDone(ok, callback) =>
        pendingHandshakes := pendingHandshakes - 1;
        OnHandshake(ok, callback);
      case ReadDone(ok, data, text, callback) =>
        pendingReads := pendingReads - 1;
        OnRead(ok, data, text, callback);
      case WriteDone(which, ok) =>
        var nextRead := pendingWrites[which];
        pendingWrites := Without(pendingWrites, which);
        OnWrite(ok, nextRead);
      case ControlFrame(calls) => Invoke(calls);
    }
  }
}
