/**
 What a run of the asynchronous executor does, as a function of the machine, the incoming stream and
 the number of messages the sink still takes.
 */
module ExecutorSteps {
  import opened Wrappers
  import opened Curves
  import opened Rounds
  import opened Machine
  import opened MachineRuns
  import opened Instance

  /** An item of the incoming stream; the end of the sequence is the end of the stream. */
  datatype Incoming = Received(msg: Packet) | ReceiveError | Elapsed

  datatype RunError =
    | Recv
    | RecvEof
    | Send
    | HandleIncoming(error: InstanceError)
    | HandleIncomingTimeout(error: InstanceError)
    | ProceedPanicked
    | ProceedFailed(error: InstanceError)
    | Finish(error: InstanceError)
    | Exhausted
    | ProtocolFinishedButNoResult
    | MissingState

  datatype TaskPanic = InComputation(cause: PanicCause) | StoreWasGone | NoTimeoutWasSet

  datatype RunResult = Completed(result: SignResult) | Stopped(error: RunError) | TaskPanicked(panic: TaskPanic)

  /** The errors that would mean a bug in the executor or in the machine. */
  predicate IsInternalBug(r: RunResult) {
    || r == TaskPanicked(StoreWasGone)
    || r == TaskPanicked(NoTimeoutWasSet)
    || (r.Stopped? && (r.error.MissingState? || r.error.ProtocolFinishedButNoResult? || r.error.Finish?))
  }

  // ---- one step at a time ----

  /** The machine, what has been sent, and how many more messages the sink takes. */
  datatype Core = Core(machine: Machine, sent: seq<Packet>, room: nat)

  datatype Stage = Running(core: Core) | Ended(result: RunResult, sent: seq<Packet>)

  /** What the executor sees of the stream: without a deadline nobody looks at the clock. */
  function Visible(deadline: Option<nat>, items: seq<Incoming>): (r: seq<Incoming>)
    ensures |r| <= |items|
  {
    if deadline == None && items != [] && items[0] == Elapsed then Visible(deadline, items[1..]) else items
  }

  /** A deadline of five seconds runs in Round2 and nowhere else. */
  function DeadlineOf(s: Machine): Option<nat> {
    if s.CurrentRound() == 2 then Some(5) else None
  }

  /** How the executor takes the outcome of a call of `proceed`. */
  function ProceedVerdict(status: Status): Option<RunError> {
    match status
    case Panicked(_) => Some(ProceedPanicked)
    case StoreGone => Some(ProceedPanicked)
    case Failed(error) => if error.IsCritical() then Some(ProceedFailed(error)) else None
    case Done => None
  }

  /** How the executor takes the outcome of a delivery: a non-critical error is only reported. */
  function Verdict(status: Status): (r: Option<RunResult>)
    ensures status != StoreGone ==> (r.Some? ==> !IsInternalBug(r.value))
    ensures r.Some? ==> !r.value.Completed? && r.value != Stopped(Exhausted)
    ensures r.Some? ==> !(r.value.Stopped? && r.value.error.HandleIncomingTimeout?)
  {
    match status
    case Panicked(cause) => Some(TaskPanicked(InComputation(cause)))
    case StoreGone => Some(TaskPanicked(StoreWasGone))
    case Failed(error) => if error.IsCritical() then Some(Stopped(HandleIncoming(error))) else None
    case Done => None
  }

  /** The sink takes the whole outbox, or as much of it as it can before it fails. */
  function Flush(k: Core): Stage {
    var queue := k.machine.queue;
    if |queue| <= k.room then Running(Core(k.machine.(queue := []), k.sent + queue, k.room - |queue|))
    else Ended(Stopped(Send), k.sent + queue[..k.room])
  }

  /** Proceeds if the machine wants to, and flushes. */
  function Progress(c: Curve, k: Core): (t: Stage)
    requires c.q > 0 && k.machine.WellFormed()
    ensures t.Running? ==> t.core.machine.WellFormed()
  {
    if k.machine.WantsToProceed() then
      ProceedWellFormed(c, k.machine);
      var (t, status) := Proceed(c, k.machine);
      match ProceedVerdict(status)
      case Some(e) => Ended(Stopped(e), k.sent)
      case None => Flush(k.(machine := t))
    else Flush(k)
  }

  /** A finished machine hands out its result. */
  function Conclude(k: Core): Stage {
    if k.machine.round.Finished? then Ended(Completed(k.machine.round.result), k.sent) else Running(k)
  }

  /** From a machine that may have something to do to the next receive. */
  function Settled(c: Curve, k: Core): (t: Stage)
    requires c.q > 0 && k.machine.WellFormed()
    ensures t.Running? ==> t.core.machine.WellFormed()
  {
    match Progress(c, k)
    case Ended(r, sent) => Ended(r, sent)
    case Running(k') => Conclude(k')
  }

  /** What one visible item leads to, up to the next receive. */
  function Turned(c: Curve, k: Core, item: Incoming): (t: Stage)
    requires c.q > 0 && k.machine.WellFormed()
    ensures t.Running? ==> t.core.machine.WellFormed()
  {
    match item
    case ReceiveError => Ended(Stopped(Recv), k.sent)
    case Elapsed =>
      (match TimeoutError(k.machine)
       case Some(e) => Ended(Stopped(HandleIncomingTimeout(e)), k.sent)
       case None => Ended(TaskPanicked(NoTimeoutWasSet), k.sent))
    case Received(msg) =>
      StepWellFormed(c, RunState(k.machine, []), Deliver(msg));
      var (t, status) := Handle(c, k.machine, msg);
      match Verdict(status)
      case Some(r) => Ended(r, k.sent)
      case None =>
        match Flush(k.(machine := t))
        case Ended(r, sent) => Ended(r, sent)
        case Running(k') => Settled(c, k')
  }

  /** How a run ends, what it has sent, and what it has left unread. */
  datatype Ending = Ending(result: RunResult, sent: seq<Packet>, rest: seq<Incoming>)

  function Looped(c: Curve, k: Core, items: seq<Incoming>): Ending
    requires c.q > 0 && k.machine.WellFormed()
    decreases |items|
  {
    var seen := Visible(DeadlineOf(k.machine), items);
    if seen == [] then Ending(Stopped(RecvEof), k.sent, [])
    else
      match Turned(c, k, seen[0])
      case Ended(r, sent) => Ending(r, sent, seen[1..])
      case Running(k') => Looped(c, k', seen[1..])
  }

  /** A first run of the executor, on the stream `items` and a sink that takes `k.room` messages. */
  function WholeRun(c: Curve, k: Core, items: seq<Incoming>): Ending
    requires c.q > 0 && k.machine.WellFormed()
  {
    match Settled(c, k)
    case Ended(r, sent) => Ending(r, sent, items)
    case Running(k') => Looped(c, k', items)
  }
}
