/** The server side of a WebSocket session, one step per completion handler or user call.

    `State` is what the session object, its connection and its timer hold between handlers; the
    functions say what each member function does to it. `Session` is the object itself, whose
    methods update its fields in place and are proved against these functions. A user callback is
    the sequence of calls it makes on its session, so a result about every sequence is a result
    about every callback. */
module ServerSession {
  import opened Traces

  /** Time and durations of `steady_clock`, in nanoseconds. */
  type Time = nat
  const TEN_SECONDS: Time := 10_000_000_000

  /** `Never` is `time_point::max()`. */
  datatype Deadline = Never | At(time: Time) {
    predicate Passed(now: Time) {
      At? && time <= now
    }
  }

  type CallbackId = nat
  datatype TimerCallback = Unset | Callback(id: CallbackId)

  /** A message on the wire and whether it is a text frame. */
  datatype Frame = Frame(data: string, text: bool)

  /** What the session starts or notes, in the order in which it happens. `TimedClose` is the
      close the timer issues by default, `Armed` the assignment of a timer callback, `Fired` its
      invocation and `Reported` a failure printed. */
  datatype Op =
    | Accept | Read | Write(frame: Frame) | Ping | Pong | Close | TimedClose
    | Armed(id: CallbackId) | Fired(id: CallbackId) | Reported(what: string)

  datatype Entry = Entry(op: Op, at: Time)

  /** The outcome a completion handler is given. `Closed` is the orderly end of the WebSocket. */
  datatype Error = NoError | Aborted | Closed | OtherError

  /** A call that user code can make on a session, and writing to the output buffer. */
  datatype Call =
    | DoAccept | DoRead | DoWrite | DoPing | DoPong | DoClose
    | Append(text: string)
    | LaunchTimer | LaunchTimerWith(id: CallbackId)
    | SetAutoFrame | SetTextFrame | SetBinaryFrame

  datatype State = State(
    accepted: bool, autoFrame: bool, readable: bool, timerCallback: TimerCallback,
    input: string, output: string,
    textMode: bool,                             // frame type of the next write
    deadline: Deadline, now: Time,
    pendingAccepts: nat, pendingReads: nat, pendingWrites: nat,      // operations started and not completed
    waits: nat,                                 // timer waits not completed
    log: seq<Entry>)
  {
    function Note(op: Op): State {
      this.(log := log + [Entry(op, now)])
    }

    function ExpiresAfterTen(): State {
      this.(deadline := At(now + TEN_SECONDS))
    }

    function Accept(): State {
      if accepted then this
      else this.(pendingAccepts := pendingAccepts + 1).ExpiresAfterTen().Note(Op.Accept)
    }

    function Read(): State {
      if !accepted || !readable then this
      else this.(readable := false, pendingReads := pendingReads + 1).ExpiresAfterTen().Note(Op.Read)
    }

    function Write(): State {
      if !accepted then this
      else this.(pendingWrites := pendingWrites + 1).Note(Op.Write(Frame(output, textMode)))
    }

    /** Ping, pong and close differ only in what is sent. */
    function Control(op: Op): State {
      if !accepted then this else ExpiresAfterTen().Note(op)
    }

    function Launch(): State {
      this.(waits := waits + 1)
    }

    function LaunchWith(id: CallbackId): State {
      this.(timerCallback := Callback(id)).Note(Armed(id)).Launch()
    }

    function Do(c: Call): State {
      match c
      case DoAccept => Accept()
      case DoRead => Read()
      case DoWrite => Write()
      case DoPing => Control(Ping)
      case DoPong => Control(Pong)
      case DoClose => Control(Close)
      case Append(text) => this.(output := output + text)
      case LaunchTimer => Launch()
      case LaunchTimerWith(id) => LaunchWith(id)
      case SetAutoFrame => this.(autoFrame := true)
      case SetTextFrame => this.(autoFrame := false, textMode := true)
      case SetBinaryFrame => this.(autoFrame := false, textMode := false)
    }

    function Run(calls: seq<Call>): State
      decreases |calls|
    {
      if calls == [] then this else Run(calls[..|calls| - 1]).Do(calls[|calls| - 1])
    }

    /** The end of a handler: send what the callback left in the output buffer, or read on. */
    function Continue(): State {
      if output != "" then Write() else if readable then Read() else this
    }

    function OnAccept(ec: Error, callback: seq<Call>): State {
      match ec
      case Aborted => this
      case NoError => this.(accepted := true).Run(callback).Continue()
      case _ => Note(Reported("accept"))
    }

    /** What the message callback finds: the message read stands in the input buffer. */
    function Received(data: string): State {
      this.(readable := true, input := input + data)
    }

    /** `data` is what the completed read put into the input buffer, `text` its frame type. */
    function OnRead(ec: Error, data: string, text: bool, callback: seq<Call>): State {
      match ec
      case Aborted => this
      case Closed => this
      case OtherError => Note(Reported("read"))
      case NoError =>
        var s := Received(data).Run(callback).(input := "");
        (if s.autoFrame then s.(textMode := text) else s).Continue()
    }

    function OnWrite(ec: Error): State {
      match ec
      case Aborted => this
      case NoError => var s := this.(output := ""); if s.readable then s.Read() else s
      case _ => Note(Reported("write"))
    }

    /** Whether a timer completion acts at all: a moved deadline makes it wait again. */
    predicate TimerActs(ec: Error) {
      (ec == NoError || ec == Aborted) && deadline.Passed(now)
    }

    function OnTimer(ec: Error, callback: seq<Call>): State {
      if ec != NoError && ec != Aborted then Note(Reported("timer"))
      else if !deadline.Passed(now) then Launch()
      else
        match timerCallback
        case Callback(id) => Note(Fired(id)).Run(callback)
        case Unset => ExpiresAfterTen().Note(TimedClose).Launch()
    }
  }

  function Initial(now: Time): State {
    State(false, true, true, Unset, "", "", true, Never, now, 0, 0, 0, 0, [])
  }

  lemma RunLast(s: State, calls: seq<Call>)
    ensures s.Run([]) == s
    ensures calls != [] ==> s.Run(calls) == s.Run(calls[..|calls| - 1]).Do(calls[|calls| - 1])
  {
  }

  // ---- runs ----

  /** What can happen next to a session: a call from outside its callbacks, a completion, a control
      frame arriving, or time passing. A callback comes with the calls it makes. */
  datatype Event =
    | External(call: Call)
    | AcceptDone(ec: Error, callback: seq<Call>)
    | ReadDone(ec: Error, data: string, text: bool, callback: seq<Call>)
    | WriteDone(ec: Error)
    | ControlFrame(callback: seq<Call>)
    | TimerDone(ec: Error, callback: seq<Call>)
    | Elapse(duration: Time)

  /** An operation completes only while it is pending, a control frame is met only by a pending
      read, and a callback makes calls only where the handler invokes it. */
  predicate Enabled(s: State, e: Event) {
    match e
    case External(_) => true
    case AcceptDone(ec, callback) => s.pendingAccepts > 0 && (ec != NoError ==> callback == [])
    case ReadDone(ec, _, _, callback) => s.pendingReads > 0 && (ec != NoError ==> callback == [])
    case WriteDone(_) => s.pendingWrites > 0
    case ControlFrame(_) => s.pendingReads > 0
    case TimerDone(ec, callback) =>
      s.waits > 0 && (!s.TimerActs(ec) || s.timerCallback == Unset ==> callback == [])
    case Elapse(_) => true
  }

  function Step(s: State, e: Event): State
    requires Enabled(s, e)
  {
    match e
    case External(c) => s.Do(c)
    case AcceptDone(ec, callback) => s.(pendingAccepts := s.pendingAccepts - 1).OnAccept(ec, callback)
    case ReadDone(ec, data, text, callback) => s.(pendingReads := s.pendingReads - 1).OnRead(ec, data, text, callback)
    case WriteDone(ec) => s.(pendingWrites := s.pendingWrites - 1).OnWrite(ec)
    case ControlFrame(callback) => s.Run(callback)
    case TimerDone(ec, callback) => s.(waits := s.waits - 1).OnTimer(ec, callback)
    case Elapse(d) => s.(now := s.now + d)
  }

  /** A run is a start time and the events that then happened, each of them possible at its turn. */
  predicate IsRun(t0: Time, es: seq<Event>)
    decreases |es|, 0
  {
    es == [] || (IsRun(t0, Before(es)) && Enabled(After(t0, Before(es)), Last(es)))
  }

  function After(t0: Time, es: seq<Event>): State
    requires IsRun(t0, es)
    decreases |es|, 1
  {
    if es == [] then Initial(t0) else Step(After(t0, Before(es)), Last(es))
  }

  lemma {:induction false} RunPrefix(t0: Time, es: seq<Event>, n: nat)
    requires IsRun(t0, es) && n <= |es|
    ensures IsRun(t0, es[..n])
    decreases |es|
  {
    if n < |es| {
      assert es[..n] == Before(es)[..n];
      RunPrefix(t0, Before(es), n);
    } else {
      assert es[..n] == es;
    }
  }

  /** A run goes on with one more event. */
  lemma OneMoreEvent(t0: Time, es: seq<Event>, e: Event)
    requires IsRun(t0, es)
    ensures IsRun(t0, es + [e]) <==> Enabled(After(t0, es), e)
    ensures IsRun(t0, es + [e]) ==> After(t0, es + [e]) == Step(After(t0, es), e)
  {
    assert Before(es + [e]) == es;
  }

  // ---- the object ----

  class Session {
    var accepted: bool
    var autoFrame: bool
    var readable: bool
    var timerCallback: TimerCallback
    var input: string
    var output: string

    // the stream's frame type, the timer, and what is pending on either
    var textMode: bool
    var deadline: Deadline
    var now: Time
    var pendingAccepts: nat
    var pendingReads: nat
    var pendingWrites: nat
    var waits: nat
    var log: seq<Entry>

    function Value(): State
      reads this
    {
      State(accepted, autoFrame, readable, timerCallback, input, output, textMode, deadline, now,
            pendingAccepts, pendingReads, pendingWrites, waits, log)
    }

    constructor (t0: Time)
      ensures Value() == Initial(t0)
    {
      accepted, autoFrame, readable, timerCallback := false, true, true, Unset;
      input, output, textMode := "", "", true;
      deadline, now := Never, t0;
      pendingAccepts, pendingReads, pendingWrites, waits, log := 0, 0, 0, 0, [];
    }

    method Note(op: Op)
      modifies this`log
      ensures log == old(log) + [Entry(op, now)]
    {
      log := log + [Entry(op, now)];
    }

    method ExpiresAfter(duration: Time)
      modifies this`deadline
      ensures deadline == At(now + duration)
    {
      deadline := At(now + duration);
    }

    method Accept()
      modifies this
      ensures Value() == old(Value()).Accept()
    {
      if accepted {
        return;
      }
      ExpiresAfter(TEN_SECONDS);
      pendingAccepts := pendingAccepts + 1;
      Note(Op.Accept);
    }

    method Ping()
      modifies this
      ensures Value() == old(Value()).Control(Op.Ping)
    {
      if !accepted {
        return;
      }
      ExpiresAfter(TEN_SECONDS);
      Note(Op.Ping);
    }

    method Pong()
      modifies this
      ensures Value() == old(Value()).Control(Op.Pong)
    {
      if !accepted {
        return;
      }
      ExpiresAfter(TEN_SECONDS);
      Note(Op.Pong);
    }

    method Close()
      modifies this
      ensures Value() == old(Value()).Control(Op.Close)
    {
      if !accepted {
        return;
      }
      ExpiresAfter(TEN_SECONDS);
      Note(Op.Close);
    }

    method Launch()
      modifies this
      ensures Value() == old(Value()).Launch()
    {
      waits := waits + 1;
    }

    method LaunchWith(id: CallbackId)
      modifies this
      ensures Value() == old(Value()).LaunchWith(id)
    {
      timerCallback := Callback(id);
      Note(Armed(id));
      waits := waits + 1;
    }

    method Read()
      modifies this
      ensures Value() == old(Value()).Read()
    {
      if !accepted || !readable {
        return;
      }
      ExpiresAfter(TEN_SECONDS);
      readable := false;
      pendingReads := pendingReads + 1;
      Note(Op.Read);
    }

    method Write()
      modifies this
      ensures Value() == old(Value()).Write()
    {
      if !accepted {
        return;
      }
      pendingWrites := pendingWrites + 1;
      Note(Op.Write(Frame(output, textMode)));
    }

    method Do(c: Call)
      modifies this
      ensures Value() == old(Value()).Do(c)
    {
      match c
      case DoAccept => Accept();
      case DoRead => Read();
      case DoWrite => Write();
      case DoPing => Ping();
      case DoPong => Pong();
      case DoClose => Close();
      case Append(text) => output := output + text;
      case LaunchTimer => Launch();
      case LaunchTimerWith(id) => LaunchWith(id);
      case SetAutoFrame => autoFrame := true;
      case SetTextFrame => autoFrame, textMode := false, true;
      case SetBinaryFrame => autoFrame, textMode := false, false;
    }

    /** Invokes a user callback. */
    method Invoke(callback: seq<Call>)
      modifies this
      ensures Value() == old(Value()).Run(callback)
    {
      for i := 0 to |callback|
        invariant Value() == old(Value()).Run(callback[..i])
      {
        Do(callback[i]);
        assert callback[..i + 1][..i] == callback[..i];
      }
      assert callback[..|callback|] == callback;
    }

    method OnAccept(ec: Error, callback: seq<Call>)
      modifies this
      ensures Value() == old(Value()).OnAccept(ec, callback)
    {
      hide State.Run, State.Read, State.Write;
      if ec == Aborted {
        return;
      }
      if ec != NoError {
        Note(Reported("accept"));
        return;
      }
      accepted := true;
      Invoke(callback);
      if output != "" {
        Write();
      } else if readable {
        Read();
      }
    }

    method OnTimer(ec: Error, callback: seq<Call>)
      modifies this
      ensures Value() == old(Value()).OnTimer(ec, callback)
    {
      hide State.Run;
      if ec != NoError && ec != Aborted {
        Note(Reported("timer"));
        return;
      }
      if deadline.Passed(now) {
        if timerCallback != Unset {
          Note(Fired(timerCallback.id));
          Invoke(callback);
          return;
        }
        ExpiresAfter(TEN_SECONDS);
        Note(TimedClose);
      }
      Launch();
    }

    method OnRead(ec: Error, data: string, text: bool, callback: seq<Call>)
      modifies this
      ensures Value() == old(Value()).OnRead(ec, data, text, callback)
    {
      hide State.Run, State.Read, State.Write;
      if ec == Aborted || ec == Error.Closed {
        return;
      }
      if ec != NoError {
        Note(Reported("read"));
        return;
      }
      readable := true;
      input := input + data;
      Invoke(callback);
      assert Value() == old(Value()).(readable := true, input := old(input) + data).Run(callback);
      input := "";
      if autoFrame {
        textMode := text;
      }
      if output != "" {
        Write();
      } else if readable {
        Read();
      }
    }

    method OnWrite(ec: Error)
      modifies this
      ensures Value() == old(Value()).OnWrite(ec)
    {
      if ec == Aborted {
        return;
      }
      if ec != NoError {
        Note(Reported("write"));
        return;
      }
      output := "";
      if readable {
        Read();
      }
    }

    /** One turn of the event loop. */
    method Handle(e: Event)
      requires Enabled(Value(), e)
      modifies this
      ensures Value() == Step(old(Value()), e)
    {
      hide State.Run;
      match e
      case External(c) => Do(c);
      case AcceptDone(ec, callback) => pendingAccepts := pendingAccepts - 1; OnAccept(ec, callback);
      case ReadDone(ec, data, text, callback) => pendingReads := pendingReads - 1; OnRead(ec, data, text, callback);
      case WriteDone(ec) => pendingWrites := pendingWrites - 1; OnWrite(ec);
      case ControlFrame(callback) => Invoke(callback);
      case TimerDone(ec, callback) => waits := waits - 1; OnTimer(ec, callback);
      case Elapse(d) => now := now + d;
    }
  }
}
