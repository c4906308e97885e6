/** The party's round machine as the object whose fields the calls update. */
module Instance {
  import opened Wrappers
  import opened Arith
  import opened Curves
  import opened Musig2
  import opened Broadcast
  import opened Rounds
  import opened Machine
  import opened MachineOutcomes

  class Musig2Instance {
    const c: Curve
    const partyI: nat
    const partyN: nat
    var round: Round
    var msgs1: BroadcastMsgsStore?<MessageRound1>
    var msgs2: BroadcastMsgsStore?<MessageRound2>
    var msgsQueue: seq<Packet>

    ghost function Repr(): set<object>
      reads this
    {
      {this} + (if msgs1 == null then {} else {msgs1}) + (if msgs2 == null then {} else {msgs2})
    }

    ghost predicate Valid()
      reads this, msgs1, msgs2
    {
      && c.q > 0
      && (msgs1 != null ==> msgs1.Valid() && msgs1.partyI == partyI && msgs1.partiesN == partyN)
      && (msgs2 != null ==> msgs2.Valid() && msgs2.partyI == partyI && msgs2.partiesN == partyN)
      && (msgs1 != null && msgs2 != null ==> msgs1 as object != msgs2 as object)
      && ValidIndex(partyI, partyN)
      && (round.InPrepare? ==> round.prepare.myInd == partyI)
      && (round.InRound1? ==> round.round1.myInd == partyI)
    }

    /** The value the object stands for. */
    ghost function View(): (s: Machine)
      requires Valid()
      reads this, msgs1, msgs2
      ensures s.WellFormed()
    {
      Machine(partyI, partyN, round,
              if msgs1 == null then None else Some(msgs1.Contents()),
              if msgs2 == null then None else Some(msgs2.Contents()),
              msgsQueue)
    }

    constructor WithFixedSeed(c: Curve, partyI: nat, partyN: nat, message: seq<byte>, keyPair: KeyPair)
      requires c.q > 0 && ValidIndex(partyI, partyN)
      ensures Valid() && fresh(Repr()) && this.c == c && this.partyI == partyI && this.partyN == partyN
      ensures View() == Init(Prepare(partyI, keyPair, message), partyN)
    {
      this.c := c;
      this.partyI := partyI;
      this.partyN := partyN;
      round := InPrepare(Prepare(partyI, keyPair, message));
      var store1 := new BroadcastMsgsStore<MessageRound1>(partyI, partyN);
      var store2 := new BroadcastMsgsStore<MessageRound2>(partyI, partyN);
      msgs1 := store1;
      msgs2 := store2;
      msgsQueue := [];
    }

    method WantsMore() returns (more1: bool, more2: bool)
      requires Valid()
      ensures more1 == View().WantsMore1() && more2 == View().WantsMore2()
      ensures more1 <==> msgs1 != null && !Full(partyI, partyN, msgs1.Contents())
      ensures more2 <==> msgs2 != null && !Full(partyI, partyN, msgs2.Contents())
    {
      more1, more2 := false, false;
      if msgs1 != null {
        more1 := msgs1.WantsMore();
      }
      if msgs2 != null {
        more2 := msgs2.WantsMore();
      }
    }

    /** `proceed_round`. */
    method ProceedRound() returns (status: Status)
      requires Valid()
      modifies this
      ensures Valid() && (msgs1 == old(msgs1) || msgs1 == null) && (msgs2 == old(msgs2) || msgs2 == null)
      ensures (View(), status) == Proceed(c, old(View()))
      decreases 3 - View().CurrentRound()
    {
      hide PrepareStep, Round1Step, Round2Step;
      var store1WantsMore, store2WantsMore := WantsMore();
      var tryAgain := false;
      match round {
        case InPrepare(p) =>
          round := Gone;
          var o := PrepareProceed(c, p);
          if o.IsFailure() {
            return Failure(o);
          }
          PrepareKeepsIndex(c, p);
          msgsQueue := msgsQueue + [Msg(partyI, None, FromRound1(o.value.1))];
          round := InRound1(o.value.0);
          tryAgain := true;
        case InRound1(r) =>
          if !store1WantsMore {
            round := Gone;
            if msgs1 == null {
              return StoreGone;
            }
            var finished := msgs1.Finish();
            msgs1 := null;
            assert finished.Accepted?;
            var o := Round1Proceed(c, r, finished.value);
            if o.IsFailure() {
              return Failure(o);
            }
            msgsQueue := msgsQueue + [Msg(partyI, None, FromRound2(o.value.1))];
            round := InRound2(o.value.0);
            tryAgain := true;
          }
        case InRound2(r) =>
          if !store2WantsMore {
            round := Gone;
            if msgs2 == null {
              return StoreGone;
            }
            var finished := msgs2.Finish();
            msgs2 := null;
            assert finished.Accepted?;
            var o := Round2Proceed(c, r, finished.value);
            if o.IsFailure() {
              return Failure(o);
            }
            round := Finished(o.value);
          }
        case Finished(_) =>
        case Gone =>
      }
      if tryAgain {
        status := ProceedRound();
      } else {
        status := Done;
      }
    }

    /** `proceed`, with how it ends stated by the computations it reaches. */
    method ProceedNow() returns (status: Status)
      requires Valid()
      modifies this
      ensures Valid() && (msgs1 == old(msgs1) || msgs1 == null) && (msgs2 == old(msgs2) || msgs2 == null)
      ensures (View(), status) == Proceed(c, old(View()))
      ensures Inv(old(View())) ==> Ends(c, old(View()), View(), status)
    {
      hide Proceed, Ends, Inv;
      if Inv(View()) {
        ProceedEnds(c, View());
      }
      status := ProceedRound();
    }

    method HandleIncoming(msg: Packet) returns (status: Status)
      requires Valid()
      modifies Repr()
      ensures Valid() && (msgs1 == old(msgs1) || msgs1 == null) && (msgs2 == old(msgs2) || msgs2 == null)
      ensures (View(), status) == Handle(c, old(View()), msg)
      ensures Inv(old(View())) ==> Handled(c, old(View()), msg, View(), status)
    {
      hide Proceed, Handled, Inv;
      if Inv(View()) {
        HandleEnds(c, View(), msg);
      }
      var currentRound := CurrentRound();
      match msg.body {
        case FromRound1(m) =>
          if msgs1 == null {
            return Failed(OutOfOrderMsg(currentRound, 1));
          }
          var pushed := msgs1.PushMsg(Msg(msg.sender, msg.receiver, m));
          if pushed.Rejected? {
            return Failed(HandleMsg(pushed.error));
          }
          status := ProceedRound();
        case FromRound2(m) =>
          if msgs2 == null {
            return Failed(OutOfOrderMsg(currentRound, 1));
          }
          var pushed := msgs2.PushMsg(Msg(msg.sender, msg.receiver, m));
          if pushed.Rejected? {
            return Failed(HandleMsg(pushed.error));
          }
          status := ProceedRound();
      }
    }

    method WantsToProceed() returns (b: bool)
      requires Valid()
      ensures b == View().WantsToProceed()
      ensures b <==> match round
                     case InPrepare(_) => true
                     case InRound1(_) => msgs1 == null || Full(partyI, partyN, msgs1.Contents())
                     case InRound2(_) => msgs2 == null || Full(partyI, partyN, msgs2.Contents())
                     case Finished(_) => false
                     case Gone => false
    {
      var more1, more2 := WantsMore();
      match round {
        case InPrepare(_) => b := true;
        case InRound1(_) => b := !more1;
        case InRound2(_) => b := !more2;
        case Finished(_) => b := false;
        case Gone => b := false;
      }
    }

    method CurrentRound() returns (r: nat)
      requires Valid()
      ensures r == View().CurrentRound()
      ensures (r == 0 <==> round.InPrepare?) && (r == 1 <==> round.InRound1?) && (r == 2 <==> round.InRound2?)
      ensures r == 3 <==> round.Finished? || round.Gone?
    {
      match round {
        case InPrepare(_) => r := 0;
        case InRound1(_) => r := 1;
        case InRound2(_) => r := 2;
        case Finished(_) => r := 3;
        case Gone => r := 3;
      }
    }

    /** Whether the round has a deadline: five seconds in Round2, none elsewhere. */
    method RoundTimeout() returns (seconds: Option<nat>)
      requires Valid()
      ensures seconds.Some? <==> View().CurrentRound() == 2
      ensures seconds.Some? ==> seconds.value == 5
    {
      seconds := if round.InRound2? then Some(5) else None;
    }

    /** None where the source panics: outside Round2, or with the store gone. */
    method RoundTimeoutReached() returns (error: Option<InstanceError>)
      requires Valid()
      ensures error == TimeoutError(View())
      ensures error.Some? <==> round.InRound2? && msgs2 != null
      ensures error.Some? ==>
                error.value ==
                InstanceError.ProceedRound(PartiesDidntRevealItsSeed(MissingFrom(partyI, partyN, msgs2.Contents(), 0)))
    {
      if !round.InRound2? || msgs2 == null {
        return None;
      }
      var _, parties := msgs2.Blame();
      return Some(InstanceError.ProceedRound(PartiesDidntRevealItsSeed(parties)));
    }

    predicate IsFinished()
      reads this
    {
      round.Finished?
    }

    method PickOutput() returns (output: Option<PickResult>)
      requires Valid()
      modifies this
      ensures Valid() && msgs1 == old(msgs1) && msgs2 == old(msgs2)
      ensures (View(), output) == Pick(old(View()))
      ensures match old(View()).round
              case Finished(result) => output == Some(Picked(result)) && View() == old(View()).(round := Gone)
              case Gone => output == Some(PickFailed(DoublePickResult)) && View() == old(View())
              case _ => output == None && View() == old(View())
    {
      match round {
        case Finished(result) =>
          round := Gone;
          output := Some(Picked(result));
        case Gone => output := Some(PickFailed(DoublePickResult));
        case InPrepare(_) => output := None;
        case InRound1(_) => output := None;
        case InRound2(_) => output := None;
      }
    }

    /** Empties the outbox, as `message_queue().drain(..)` and `append` do. */
    method DrainQueue() returns (out: seq<Packet>)
      requires Valid()
      modifies this
      ensures Valid() && msgs1 == old(msgs1) && msgs2 == old(msgs2)
      ensures Repr() == old(Repr()) && out == old(View()).queue && View() == old(View()).(queue := [])
    {
      out := msgsQueue;
      msgsQueue := [];
    }
  }

  /** `round_timeout_reached`: the parties still missing are blamed. */
  function TimeoutError(s: Machine): Option<InstanceError>
    requires ValidIndex(s.me, s.n)
  {
    if s.round.InRound2? && s.msgs2.Some?
    then Some(InstanceError.ProceedRound(PartiesDidntRevealItsSeed(MissingFrom(s.me, s.n, s.msgs2.value, 0))))
    else None
  }

  lemma PrepareKeepsIndex(c: Curve, p: Prepare)
    requires PrepareStep(c, p).Ok?
    ensures PrepareStep(c, p).value.0.myInd == p.myInd
  {
  }
}
