/**
 The asynchronous executor as a sequential object. What it awaits becomes input: the stream of
 incoming items, in which `Elapsed` marks the moment the running deadline would expire, and a sink
 that accepts a limited number of messages before it fails.
 */
module Executor {
  import opened Wrappers
  import opened Curves
  import opened Broadcast
  import opened Rounds
  import opened Machine
  import opened MachineRuns
  import opened SignatureTheory
  import opened SignatureCorrectness
  import opened HonestRounds
  import opened HonestRuns
  import opened Instance
  import opened ExecutorSteps
  import opened ExecutorCompletion

  /** The messages among the first items of the stream. */
  function Messages(items: seq<Incoming>): seq<Packet> {
    if items == [] then []
    else Messages(items[..|items| - 1]) + (if items[|items| - 1].Received? then [items[|items| - 1].msg] else [])
  }

  lemma MessagesSnoc(items: seq<Incoming>, item: Incoming)
    ensures Messages(items + [item]) == if item.Received? then Messages(items) + [item.msg] else Messages(items)
  {
    assert (items + [item])[..|items + [item]| - 1] == items;
    assert Messages(items) + [] == Messages(items);
  }

  class AsyncProtocol {
    const c: Curve
    ghost const p: Prepare
    ghost const n: nat
    var state: Musig2Instance?
    var incoming: seq<Incoming>
    var sent: seq<Packet>
    var room: nat
    var deadline: Option<nat>
    var currentRound: Option<nat>
    /** How many messages the sink takes in all. */
    ghost const capacity: nat
    /** The calls made on the machine so far, and the items read from the stream. */
    ghost var log: seq<Event>
    ghost var read: seq<Incoming>

    /** The objects the executor may change. */
    ghost function Repr(): set<object>
      reads this, state
    {
      {this} + if state == null then {} else state.Repr()
    }

    /** The deadline is the one that belongs to the round it was last refreshed for. */
    ghost predicate Valid()
      reads this, state, if state == null then {} else {state.msgs1, state.msgs2}
    {
      && c.q > 0 && ValidIndex(p.myInd, n) && room + |sent| == capacity
      && deadline == (if currentRound == Some(2) then Some(5) else None)
      && (state != null ==> state.Valid() && this !in state.Repr() && state.c == c)
    }

    /** The messages handed to the machine are those read from the stream. */
    ghost predicate LogMatchesStream()
      reads this`log, this`read
    {
      Delivered(log) == Messages(read)
    }

    /** The machine is where the log says, and everything drained from it has been sent. */
    ghost predicate Tracks()
      requires Valid()
      reads this, state, if state == null then {} else {state.msgs1, state.msgs2}
    {
      state != null && RunState(state.View(), sent) == MachineRuns.Run(c, p, n, log)
    }

    /** The machine with what has been sent and what the sink still takes. */
    ghost function Now(): (k: Core)
      requires Valid() && state != null
      reads this, state, if state == null then {} else {state.msgs1, state.msgs2}
      ensures k.machine.WellFormed()
    {
      Core(state.View(), sent, room)
    }

    /** Everything is done until the next item comes, and the timer belongs to the round. */
    ghost predicate Waits()
      requires Valid() && state != null
      reads this, state, if state == null then {} else {state.msgs1, state.msgs2}
    {
      && currentRound == Some(state.View().CurrentRound()) && !state.View().WantsToProceed()
      && !state.View().round.Finished? && state.View().queue == []
    }

    constructor (instance: Musig2Instance, ghost p: Prepare, ghost n: nat, incoming: seq<Incoming>, room: nat)
      requires instance.Valid() && ValidIndex(p.myInd, n) && instance.View() == Init(p, n)
      ensures Valid() && Tracks() && LogMatchesStream() && currentRound == None && log == [] && read == []
      ensures state == instance && this.incoming == incoming && this.p == p && this.n == n && c == instance.c
      ensures Now() == Core(Init(p, n), [], room)
    {
      c := instance.c;
      this.p := p;
      this.n := n;
      state := instance;
      this.incoming := incoming;
      sent := [];
      this.room := room;
      capacity := room;
      deadline := None;
      currentRound := None;
      log := [];
      read := [];
    }

    method RefreshTimer() returns (failure: Option<RunError>)
      requires Valid()
      modifies this`deadline, this`currentRound
      ensures Valid()
      ensures failure == if state == null then Some(MissingState) else None
      ensures state != null ==> currentRound == Some(state.View().CurrentRound())
      ensures state == null ==> currentRound == old(currentRound)
    {
      if state == null {
        return Some(MissingState);
      }
      var roundN := state.CurrentRound();
      if currentRound != Some(roundN) {
        var timeout := state.RoundTimeout();
        currentRound := Some(roundN);
        deadline := timeout;
      }
      return None;
    }

    /** The machine before the last entry of the log. */
    ghost function Before(): (st: RunState)
      requires c.q > 0 && ValidIndex(p.myInd, n) && log != []
      reads this
      ensures st.machine.WellFormed()
    {
      MachineRuns.Run(c, p, n, log[..|log| - 1])
    }

    /** After what the log says nothing is left to do but to wait. */
    ghost predicate LogWaits()
      requires c.q > 0 && ValidIndex(p.myInd, n)
      reads this
    {
      var st := MachineRuns.Run(c, p, n, log);
      && !st.machine.WantsToProceed() && !st.machine.round.Finished? && st.machine.queue == []
      && st.drained == sent
    }

    /** The cause of each way to end: what was read last, or what the machine answered last. */
    ghost predicate Caused(r: RunResult): (b: bool)
      requires c.q > 0 && ValidIndex(p.myInd, n)
      reads this
      ensures b ==> !IsInternalBug(r) && r != Stopped(Exhausted)
    {
      match r
      case Completed(result) =>
        var st := MachineRuns.Run(c, p, n, log);
        st.machine.round == Finished(result) && st.machine.queue == [] && st.drained == sent
      case TaskPanicked(panic) =>
        && panic.InComputation? && log != [] && log[|log| - 1].Deliver?
        && Handle(c, Before().machine, log[|log| - 1].msg).1 == Panicked(panic.cause)
      case Stopped(error) =>
        match error
        case Recv => read != [] && read[|read| - 1] == ReceiveError && LogWaits()
        case RecvEof => incoming == [] && LogWaits()
        case Send =>
          && log != [] && log[|log| - 1] == Drain
          && |Before().drained + Before().machine.queue| > capacity == |sent|
          && sent == (Before().drained + Before().machine.queue)[..capacity]
        case HandleIncoming(e) =>
          && log != [] && log[|log| - 1].Deliver? && e.IsCritical()
          && Handle(c, Before().machine, log[|log| - 1].msg).1 == Failed(e)
        case HandleIncomingTimeout(e) =>
          && read != [] && read[|read| - 1] == Elapsed && LogWaits()
          && MachineRuns.Run(c, p, n, log).machine.round.InRound2?
          && Silent() != [] && e == InstanceError.ProceedRound(PartiesDidntRevealItsSeed(Silent()))
        case ProceedPanicked =>
          log != [] && log[|log| - 1] == Call && Proceed(c, Before().machine).1.Panicked?
        case ProceedFailed(e) =>
          log != [] && log[|log| - 1] == Call && Proceed(c, Before().machine).1 == Failed(e)
        case _ => false
    }

    /** Calls `proceed` on the machine. */
    method CallMachine() returns (status: Status)
      requires Valid() && Tracks()
      modifies state, this`log
      ensures Valid() && Tracks() && log == old(log) + [Call] && state.Repr() <= old(state.Repr())
      ensures (state.View(), status) == Proceed(c, old(state.View()))
    {
      hide Proceed, MachineRuns.Run;
      RunSnoc(c, p, n, log, Call);
      status := state.ProceedNow();
      log := log + [Call];
    }

    /** Hands a message to the machine. */
    method DeliverToMachine(msg: Packet) returns (status: Status)
      requires Valid() && Tracks()
      modifies state.Repr(), this`log
      ensures Valid() && Tracks() && log == old(log) + [Deliver(msg)] && state.Repr() <= old(state.Repr())
      ensures (state.View(), status) == Handle(c, old(state.View()), msg) && status != StoreGone
    {
      hide Proceed, MachineRuns.Run, Handle;
      RunKeepsInv(c, p, n, log);
      HandleKeepsInv(c, state.View(), msg);
      RunSnoc(c, p, n, log, Deliver(msg));
      status := state.HandleIncoming(msg);
      log := log + [Deliver(msg)];
    }

    /** `proceed_if_needed`: a panic or a critical error leaves the executor without its machine. */
    method ProceedIfNeeded() returns (failure: Option<RunError>)
      requires Valid() && Tracks() && LogMatchesStream()
      modifies state, this`log, this`state
      ensures Valid() && LogMatchesStream()
      ensures failure == None ==> Tracks() && state == old(state) && !state.View().WantsToProceed()
      ensures failure == None ==> state.Repr() <= old(state.Repr())
      ensures if old(state.View().WantsToProceed())
              then failure == ProceedVerdict(Proceed(c, old(state.View())).1)
              else failure == None
      ensures failure == None ==>
                state.View() == if old(state.View().WantsToProceed()) then Proceed(c, old(state.View())).0
                                else old(state.View())
      ensures failure.Some? ==> Caused(Stopped(failure.value))
    {
      hide Proceed, MachineRuns.Run, Silent, Messages, Delivered, MissingFrom, AcceptAll2;
      var wants := state.WantsToProceed();
      if wants {
        RunKeepsInv(c, p, n, log);
        ProceedKeepsInv(c, state.View());
        DeliveredSnoc(log, Call);
        var status := CallMachine();
        RunKeepsInv(c, p, n, log);
        if status.Panicked? || status.StoreGone? {
          state := null;
          return Some(ProceedPanicked);
        }
        if status.Failed? && status.error.IsCritical() {
          state := null;
          return Some(ProceedFailed(status.error));
        }
      }
      return None;
    }

    /** `send_outgoing`: a failing sink loses what was still queued. */
    method SendOutgoing() returns (failure: Option<RunError>)
      requires Valid() && Tracks() && LogMatchesStream()
      modifies state, this`log, this`sent, this`room
      ensures Valid() && LogMatchesStream() && state.Repr() == old(state.Repr())
      ensures match Flush(old(Now()))
              case Running(k) => failure == None && Tracks() && Now() == k
              case Ended(e, all) => failure == Some(Send) && sent == all && e == Stopped(Send) && Caused(e)
    {
      hide Proceed, MachineRuns.Run, Handle, Musig2Instance.View, Musig2Instance.Repr, Delivered, Messages, Silent;
      RunSnoc(c, p, n, log, Drain);
      DeliveredSnoc(log, Drain);
      var out := state.DrainQueue();
      log := log + [Drain];
      if |out| <= room {
        sent := sent + out;
        room := room - |out|;
        return None;
      } else {
        sent := sent + out[..room];
        room := 0;
        return Some(Send);
      }
    }

    /** `finish_if_possible`. */
    method FinishIfPossible() returns (r: Option<RunResult>)
      requires Valid() && Tracks()
      modifies state
      ensures Valid() && state.Repr() == old(state.Repr())
      ensures match Conclude(old(Now()))
              case Running(k) => r == None && Tracks() && Now() == k && !k.machine.round.Finished?
              case Ended(e, all) => r == Some(e) && sent == all && e == Completed(old(state.View()).round.result)
    {
      hide MachineRuns.Run;
      var finished := state.IsFinished();
      if !finished {
        return None;
      }
      var output := state.PickOutput();
      match output {
        case None => return Some(Stopped(ProtocolFinishedButNoResult));
        case Some(Picked(result)) => return Some(Completed(result));
        case Some(PickFailed(error)) => return Some(Stopped(Finish(error)));
      }
    }

    /** The blamed parties of a timeout: exactly those whose round 2 message was not accepted. */
    ghost function Silent(): seq<nat>
      requires ValidIndex(p.myInd, n)
      reads this
    {
      MissingFrom(p.myInd, n, AcceptAll2(p.myInd, n, Messages(read)), 0)
    }

    /** Passes over what is not visible. */
    method SkipElapsed()
      requires LogMatchesStream()
      modifies this`incoming, this`read
      ensures LogMatchesStream() && read + incoming == old(read + incoming) && |incoming| <= |old(incoming)|
      ensures incoming == Visible(deadline, old(incoming))
      ensures deadline == None && incoming != [] ==> incoming[0] != Elapsed
    {
      while deadline == None && incoming != [] && incoming[0] == Elapsed
        invariant LogMatchesStream() && read + incoming == old(read + incoming) && |incoming| <= |old(incoming)|
        invariant Visible(deadline, incoming) == Visible(deadline, old(incoming))
        decreases |incoming|
      {
        MessagesSnoc(read, Elapsed);
        assert Visible(deadline, incoming) == Visible(deadline, incoming[1..]);
        hide Visible, Messages;
        ReadOne();
      }
    }

    /** The next item the executor sees, if the stream has one. */
    method NextItem() returns (item: Option<Incoming>)
      requires Valid() && Tracks() && LogMatchesStream()
      modifies this`incoming, this`read
      ensures Valid() && Tracks() && read + incoming == old(read + incoming)
      ensures var items := Visible(deadline, old(incoming));
              if items == [] then item == None && incoming == [] else item == Some(items[0]) && incoming == items[1..]
      ensures item == None ==> LogMatchesStream()
      ensures item.Some? ==> read != [] && read[|read| - 1] == item.value
      ensures item.Some? ==> |incoming| < |old(incoming)| && (item.value.Elapsed? ==> deadline.Some?)
      ensures item.Some? && !item.value.Received? ==> LogMatchesStream()
      ensures item.Some? && item.value.Received? ==> Delivered(log) + [item.value.msg] == Messages(read)
    {
      hide MachineRuns.Run, Messages, Delivered, Visible;
      SkipElapsed();
      if incoming == [] {
        return None;
      }
      item := Some(incoming[0]);
      MessagesSnoc(read, incoming[0]);
      ReadOne();
    }

    /** The deadline is over: the machine blames the silent parties. */
    method Timeout() returns (r: RunResult)
      requires Valid() && Tracks() && LogMatchesStream() && deadline.Some?
      requires currentRound == Some(state.View().CurrentRound()) && !state.View().WantsToProceed()
      ensures Valid() && Tracks() && Silent() != [] && state.View().round.InRound2?
      ensures TimeoutError(state.View()).Some? && r == Stopped(HandleIncomingTimeout(TimeoutError(state.View()).value))
      ensures r == Stopped(HandleIncomingTimeout(InstanceError.ProceedRound(PartiesDidntRevealItsSeed(Silent()))))
    {
      hide MachineRuns.Run;
      RunKeepsInv(c, p, n, log);
      Round2Store(c, p, n, log);
      MissingIffNotFull(p.myInd, n, AcceptAll2(p.myInd, n, Messages(read)));
      var error := state.RoundTimeoutReached();
      if error == None {
        return TaskPanicked(NoTimeoutWasSet);
      }
      return Stopped(HandleIncomingTimeout(error.value));
    }

    /** `handle_incoming`: one item of the stream, or the deadline, whichever comes first. */
    method HandleNext() returns (r: Option<RunResult>)
      requires Valid() && Tracks() && LogMatchesStream() && Waits()
      modifies state.Repr(), this`log, this`incoming, this`read
      ensures Valid() && LogMatchesStream() && read + incoming == old(read + incoming)
      ensures r == None ==> Tracks() && |incoming| < |old(incoming)| && state.Repr() <= old(state.Repr())
      ensures r.Some? ==> Caused(r.value) && !r.value.Completed?
      ensures var items := Visible(DeadlineOf(old(state.View())), old(incoming));
              if items == [] then r == Some(Stopped(RecvEof)) && incoming == []
              else
                && incoming == items[1..]
                && match items[0]
                   case ReceiveError => r == Some(Stopped(Recv))
                   case Elapsed =>
                     && TimeoutError(old(state.View())).Some?
                     && r == Some(Stopped(HandleIncomingTimeout(TimeoutError(old(state.View())).value)))
                   case Received(msg) =>
                     && r == Verdict(Handle(c, old(state.View()), msg).1)
                     && (r == None ==> state.View() == Handle(c, old(state.View()), msg).0)
    {
      hide Proceed, MachineRuns.Run, Handle, MissingFrom, Silent, Messages, Delivered, Visible;
      var item := NextItem();
      match item {
        case None =>
          return Some(Stopped(RecvEof));
        case Some(ReceiveError) =>
          return Some(Stopped(Recv));
        case Some(Elapsed) =>
          var timeout := Timeout();
          return Some(timeout);
        case Some(Received(msg)) =>
          DeliveredSnoc(log, Deliver(msg));
          var status := DeliverToMachine(msg);
          r := Verdict(status);
      }
    }

    method ReadOne()
      requires incoming != []
      modifies this`incoming, this`read
      ensures read == old(read) + [old(incoming)[0]] && incoming == old(incoming)[1..]
      ensures read + incoming == old(read + incoming)
    {
      read := read + [incoming[0]];
      incoming := incoming[1..];
    }

    /** `refresh_timer; proceed_if_needed; send_outgoing; refresh_timer`, up to the first failure. */
    method Advance() returns (failure: Option<RunError>)
      requires Valid() && Tracks() && LogMatchesStream()
      modifies state, this`log, this`sent, this`room, this`state, this`deadline, this`currentRound
      ensures Valid() && LogMatchesStream() && currentRound.Some?
      ensures failure == None ==> state != null && state == old(state) && state.Repr() <= old(state.Repr())
      ensures failure == None ==> Tracks() && currentRound == Some(state.View().CurrentRound())
      ensures failure == None ==> !state.View().WantsToProceed() && state.View().queue == []
      ensures match Progress(c, old(Now()))
              case Running(k) => failure == None && Now() == k
              case Ended(e, all) => failure.Some? && e == Stopped(failure.value) && sent == all && Caused(e)
    {
      hide MachineRuns.Run, Proceed, Caused;
      failure := RefreshTimer();
      failure := ProceedIfNeeded();
      if failure.Some? {
        return;
      }
      failure := SendOutgoing();
      if failure.Some? {
        return;
      }
      failure := RefreshTimer();
    }

    /**
     The output of a run whose stream carried only messages of honest parties, in any order and any
     number of times, is the joint result, and it verifies.
     */
    lemma OutputAmongHonestPeers(su: Setup, i: nat, result: SignResult)
      requires c.q > 0 && ValidIndex(p.myInd, n) && LogMatchesStream() && Caused(Completed(result))
      requires su.Honest() && 1 <= su.N() <= U16_MAX && su.IsParty(i)
      requires c == su.c && p == su.PrepareOf(i) && n == su.N() && AllHonest(su, Messages(read))
      ensures su.AllPrepared() && AllConsistent(c, su.States()) && JointParams(c, su.States(), su.message).Ok?
      ensures result == JointResult(su) && ResultVerifies(su, result)
    {
      hide MachineRuns.Run, AllHonest, Setup.Honest, ResultVerifies, Delivered, Messages;
      HonestRunResult(su, i, log, result);
    }

    /** Advances, then finishes if the machine has; otherwise a deadline runs exactly in Round2. */
    method Settle() returns (r: Option<RunResult>)
      requires Valid() && Tracks() && LogMatchesStream()
      modifies state, this`log, this`sent, this`room, this`state, this`deadline, this`currentRound
      ensures Valid() && LogMatchesStream() && currentRound.Some?
      ensures r == None ==> state != null && state == old(state) && state.Repr() <= old(state.Repr())
      ensures r == None ==> Tracks() && Waits() && (deadline.Some? <==> state.View().round.InRound2?)
      ensures match Settled(c, old(Now()))
              case Running(k) => r == None && Now() == k
              case Ended(e, all) => r == Some(e) && sent == all && Caused(e)
    {
      hide MachineRuns.Run, Silent, Progress;
      var failure := Advance();
      if failure.Some? {
        return Some(Stopped(failure.value));
      }
      r := FinishIfPossible();
    }

    /** One turn of the loop. */
    method Iterate() returns (r: Option<RunResult>)
      requires Valid() && Tracks() && LogMatchesStream() && Waits()
      modifies Repr()
      ensures Valid() && LogMatchesStream() && currentRound.Some? && read + incoming == old(read + incoming)
      ensures r == None ==> state != null && state == old(state) && state.Repr() <= old(state.Repr())
      ensures r == None ==> Tracks() && Waits() && |incoming| < |old(incoming)|
      ensures r.Some? ==> Caused(r.value)
      ensures var seen := Visible(DeadlineOf(old(state.View())), old(incoming));
              if seen == [] then r == Some(Stopped(RecvEof)) && sent == old(sent) && incoming == []
              else
                && incoming == seen[1..]
                && match Turned(c, old(Now()), seen[0])
                   case Running(k) => r == None && Now() == k
                   case Ended(e, all) => r == Some(e) && sent == all
    {
      hide MachineRuns.Run, Silent, Visible, Handle, Proceed, Delivered, Messages, Caused, Settled;
      r := HandleNext();
      if r.Some? {
        return;
      }
      var failure := SendOutgoing();
      if failure.Some? {
        return Some(Stopped(failure.value));
      }
      r := Settle();
    }

    /** A new executor of party i of a setup, whose stream carries only what honest parties send. */
    ghost predicate StartsHonestly(su: Setup, i: nat)
      reads this, state, if state == null then {} else {state.msgs1, state.msgs2}
    {
      && Valid() && state != null && currentRound == None && c == su.c
      && 1 <= su.N() <= U16_MAX && su.IsParty(i) && HonestItems(su, incoming)
      && Now() == Core(Init(su.PrepareOf(i), su.N()), [], room)
    }

    /** The run completes exactly when all computations succeed and stream and sink allow. */
    ghost predicate CompletesIff(su: Setup, i: nat, capacity: nat, items: seq<Incoming>, r: RunResult)
      requires su.c.q > 0 && 1 <= su.N() <= U16_MAX && su.IsParty(i)
    {
      && (r.Completed? <==> Good(su, i) && capacity >= 2 && Brings(i, su.N(), map[], map[], items))
      && (r.Completed? ==> r == Completed(su.Finishing(i).value))
    }

    /**
     `run`. A first run does exactly what `WholeRun` says, and each way to end has its cause; none
     would mean a bug. Every later run is refused.
     */
    method Run() returns (r: RunResult)
      requires Valid() && LogMatchesStream() && (currentRound == None ==> state != null && Tracks())
      modifies Repr()
      ensures Valid() && LogMatchesStream() && currentRound.Some? && read + incoming == old(read + incoming)
      ensures old(currentRound).Some? ==> r == Stopped(Exhausted) && unchanged(this)
      ensures old(currentRound) == None ==>
                && Ending(r, sent, incoming) == WholeRun(c, old(Now()), old(incoming))
                && Caused(r) && !IsInternalBug(r)
      ensures forall su, i ::
                old(StartsHonestly(su, i)) ==> CompletesIff(su, i, old(room), old(incoming), r)
    {
      hide Caused, MachineRuns.Run, Tracks, LogMatchesStream, Musig2Instance.View, Turned, Settled, Visible;
      if currentRound.Some? {
        return Stopped(Exhausted);
      }
      ghost var whole := WholeRun(c, Now(), incoming);
      var stop := Settle();
      while stop == None
        invariant Valid() && LogMatchesStream() && currentRound.Some? && read + incoming == old(read + incoming)
        invariant stop == None ==> Tracks() && state != null && state == old(state)
        invariant stop == None ==> state.Repr() <= old(state.Repr()) && Waits()
        invariant stop == None ==> Looped(c, Now(), incoming) == whole
        invariant stop.Some? ==> Ending(stop.value, sent, incoming) == whole && Caused(stop.value)
        decreases if stop == None then 1 + |incoming| else 0
      {
        stop := Iterate();
      }
      forall su, i | old(StartsHonestly(su, i))
        ensures CompletesIff(su, i, old(room), old(incoming), stop.value)
      {
        RunCompletesIff(su, i, old(room), old(incoming));
      }
      return stop.value;
    }
  }

  /** In Round2 the second store holds exactly the accepted round 2 messages. */
  lemma Round2Store(c: Curve, p: Prepare, n: nat, es: seq<Event>)
    requires c.q > 0 && ValidIndex(p.myInd, n)
    requires MachineRuns.Run(c, p, n, es).machine.round.InRound2?
    ensures MachineRuns.Run(c, p, n, es).machine.msgs2 == Some(AcceptAll2(p.myInd, n, Delivered(es)))
  {
    RunHasNormalForm(c, p, n, es);
    var st := MachineRuns.Run(c, p, n, es);
    hide MachineRuns.Run, SignedStep, FinishedStep, PrepareStep;
    assert Shift(st.drained, st.machine).round == st.machine.round;
  }
}
