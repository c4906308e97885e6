/** The lock-step simulation as an object that runs the party objects it was given. */
module Simulation {
  import opened Wrappers
  import opened Curves
  import opened Broadcast
  import opened Rounds
  import opened Machine
  import opened MachineRuns
  import opened HonestRounds
  import opened Instance
  import opened SimulationStages

  /** `NotEnoughParties` stands for the panic of the assertion at the start of `run`. */
  datatype SimulationResult = Outputs(outputs: seq<SignResult>) | Stopped(stop: Stop) | NotEnoughParties

  /** `Party::proceed_if_needed`. */
  method ProceedIfNeeded(party: Musig2Instance) returns (stop: Option<Stop>)
    requires party.Valid()
    modifies party
    ensures party.Valid() && party.Repr() <= old(party.Repr())
    ensures Turn(party.View(), stop) == ProceedTurn(party.c, old(party.View()))
  {
    hide Proceed;
    var wants := party.WantsToProceed();
    if !wants {
      return None;
    }
    var status := party.ProceedNow();
    stop := StopOf(status);
  }

  /** `Party::handle_incoming`. */
  method HandleBatch(party: Musig2Instance, batch: seq<Packet>) returns (stop: Option<Stop>)
    requires party.Valid()
    modifies party.Repr()
    ensures party.Valid() && party.Repr() <= old(party.Repr())
    ensures Turn(party.View(), stop) == Feed(party.c, old(party.View()), batch)
  {
    hide Handle, Feed, Delivers;
    stop := None;
    FeedNothing(party.c, party.View());
    assert batch[..0] == [];
    for k := 0 to |batch|
      invariant party.Valid() && party.Repr() <= old(party.Repr()) && stop == None
      invariant Turn(party.View(), stop) == Feed(party.c, old(party.View()), batch[..k])
    {
      FeedSnoc(party.c, old(party.View()), batch, k + 1);
      if Delivers(party.partyI, batch[k]) {
        var status := party.HandleIncoming(batch[k]);
        stop := StopOf(status);
        if stop.Some? {
          FeedStopped(party.c, old(party.View()), batch, k + 1);
          return;
        }
      }
    }
    assert batch[..|batch|] == batch;
  }

  /** The `expect` and the `?` on the output of a finished party. */
  method TakeOutput(party: Musig2Instance) returns (result: SignResult)
    requires party.Valid() && party.View().round.Finished?
    modifies party
    ensures party.Valid() && party.Repr() == old(party.Repr())
    ensures old(party.View()).round == Finished(result) && party.View() == Pick(old(party.View())).0
  {
    var output := party.PickOutput();
    result := output.value.result;
  }

  /** The party is in order and uses only the given objects. */
  ghost predicate Owns(c: Curve, party: Musig2Instance, objects: set<object>)
    reads party, objects
  {
    party in objects && party.Repr() <= objects && party.Valid() && party.c == c
  }

  ghost function ViewOf(c: Curve, party: Musig2Instance, objects: set<object>): (view: Machine)
    requires Owns(c, party, objects)
    reads party, objects
    ensures view == party.View()
  {
    party.View()
  }

  ghost function Union(sets: seq<set<object>>): (u: set<object>)
    ensures forall k :: 0 <= k < |sets| ==> sets[k] <= u
  {
    set k, o | 0 <= k < |sets| && o in sets[k] :: o
  }

  lemma UnionSnoc(sets: seq<set<object>>, s: set<object>)
    ensures Union(sets + [s]) == Union(sets) + s
  {
    var longer := sets + [s];
    forall o | o in Union(sets) + s
      ensures o in Union(longer)
    {
      if o in Union(sets) {
        var k :| 0 <= k < |sets| && o in sets[k];
        assert o in longer[k];
      } else {
        assert o in longer[|sets|];
      }
    }
  }

  class Simulation {
    const c: Curve
    var parties: seq<Musig2Instance>
    /** The objects of each party; no two parties share one. */
    ghost var owned: seq<set<object>>

    ghost function All(): set<object>
      reads this
    {
      Union(owned)
    }

    ghost predicate Separate()
      reads this
    {
      && c.q > 0 && |parties| == |owned| && this !in All()
      && (forall j, k :: 0 <= j < k < |owned| ==> owned[j] !! owned[k])
      && forall k :: 0 <= k < |parties| ==> parties[k] in owned[k]
    }

    ghost predicate Valid(): (b: bool)
      reads this, All()
      ensures b ==> c.q > 0 && |parties| == |owned| && this !in All()
      ensures b ==> forall k :: 0 <= k < |owned| ==> owned[k] <= All()
    {
      Separate() && forall k :: 0 <= k < |parties| ==> Owns(c, parties[k], owned[k])
    }

    /** What the parties' objects stand for. */
    ghost function Views(): (views: seq<Machine>)
      requires Valid()
      reads this, All()
      ensures |views| == |parties| && AllWellFormed(views)
      ensures forall k :: 0 <= k < |parties| ==> Owns(c, parties[k], owned[k]) && views[k] == parties[k].View()
    {
      ViewsAre(|parties|);
      FirstViews(|parties|)
    }

    ghost function FirstViews(count: nat): (views: seq<Machine>)
      requires Valid() && count <= |parties|
      reads this, All()
      ensures |views| == count
    {
      if count == 0 then []
      else
        hide Union, Owns;
        assert Owns(c, parties[count - 1], owned[count - 1]);
        FirstViews(count - 1) + [ViewOf(c, parties[count - 1], owned[count - 1])]
    }

    lemma {:induction false} ViewsAre(count: nat)
      requires Valid() && count <= |parties|
      ensures forall k :: 0 <= k < count ==> Owns(c, parties[k], owned[k]) && FirstViews(count)[k] == parties[k].View()
    {
      hide Union, Owns, Musig2Instance.View;
      if count == 0 {
      } else {
        ViewsAre(count - 1);
        assert Owns(c, parties[count - 1], owned[count - 1]);
      }
    }

    constructor (c: Curve)
      requires c.q > 0
      ensures Valid() && this.c == c && parties == []
    {
      this.c := c;
      parties := [];
      owned := [];
    }

    method AddParty(party: Musig2Instance)
      requires Valid() && party.Valid() && party.c == c && party.Repr() !! All() && this !in party.Repr()
      modifies this
      ensures Valid() && parties == old(parties) + [party] && Views() == old(Views()) + [party.View()]
    {
      hide Musig2Instance.Valid, Musig2Instance.View, Union;
      assert forall k :: 0 <= k < |owned| ==> owned[k] <= All() && owned[k] !! party.Repr();
      parties := parties + [party];
      owned := owned + [party.Repr()];
      assert forall k :: 0 <= k < |parties| - 1 ==> old(Owns(c, parties[k], owned[k]));
      UnionSnoc(old(owned), party.Repr());
    }

    /** Changing the objects of one party changes its own view only. */
    twostate lemma OthersUntouched(k: nat)
      requires old(Valid()) && unchanged(this) && k < |parties| && unchanged(All() - owned[k])
      requires Owns(c, parties[k], owned[k])
      ensures Valid() && Views() == old(Views())[k := parties[k].View()]
    {
      hide Owns, Musig2Instance.Valid, Musig2Instance.View, Musig2Instance.Repr, Union;
      OthersKept(k);
    }

    twostate lemma OthersKept(k: nat)
      requires old(Valid()) && unchanged(this) && k < |parties| && unchanged(All() - owned[k])
      ensures forall j :: 0 <= j < |parties| && j != k ==>
                            Owns(c, parties[j], owned[j]) && parties[j].View() == old(parties[j].View())
    {
      hide Musig2Instance.Valid, Union;
      forall j | 0 <= j < |parties| && j != k
        ensures Owns(c, parties[j], owned[j]) && parties[j].View() == old(parties[j].View())
      {
        assert old(Owns(c, parties[j], owned[j]));
        assert owned[j] !! owned[k] && owned[j] <= All();
      }
    }

    /** One party handles a batch. */
    method Feeding(k: nat, batch: seq<Packet>) returns (stop: Option<Stop>)
      requires Valid() && k < |parties|
      modifies owned[k]
      ensures Valid()
      ensures var t := Feed(c, old(Views())[k], batch);
              stop == t.stop && Views() == old(Views())[k := t.machine]
    {
      hide Feed, Musig2Instance.Valid, Musig2Instance.View, Musig2Instance.Repr;
      assert Owns(c, parties[k], owned[k]);
      stop := HandleBatch(parties[k], batch);
      OthersUntouched(k);
    }

    /** One party proceeds. */
    method Proceeding(k: nat) returns (stop: Option<Stop>)
      requires Valid() && k < |parties|
      modifies owned[k]
      ensures Valid()
      ensures var t := ProceedTurn(c, old(Views())[k]);
              stop == t.stop && Views() == old(Views())[k := t.machine]
    {
      hide ProceedTurn, Musig2Instance.Valid, Musig2Instance.View, Musig2Instance.Repr;
      assert Owns(c, parties[k], owned[k]);
      stop := ProceedIfNeeded(parties[k]);
      OthersUntouched(k);
    }

    /** `Party::send_outgoing`. */
    method SendOutgoing(k: nat, pull: seq<Packet>) returns (more: seq<Packet>)
      requires Valid() && k < |parties|
      modifies owned[k]
      ensures Valid()
      ensures more == pull + old(Views())[k].queue
      ensures Views() == old(Views())[k := old(Views())[k].(queue := [])]
    {
      hide Musig2Instance.Valid, Musig2Instance.View, Musig2Instance.Repr;
      assert Owns(c, parties[k], owned[k]);
      var out := parties[k].DrainQueue();
      OthersUntouched(k);
      more := pull + out;
    }

    method FeedAndSend(k: nat, batch: seq<Packet>, pull: seq<Packet>) returns (stop: Option<Stop>, more: seq<Packet>)
      requires Valid() && k < |parties|
      modifies owned[k]
      ensures Valid() && |Views()| == |old(Views())|
      ensures var t := Feed(c, old(Views())[k], batch);
              && stop == t.stop
              && (stop == None ==>
                    more == pull + t.machine.queue && Views() == old(Views())[k := t.machine.(queue := [])])
    {
      hide Feed, Valid, Views;
      stop := Feeding(k, batch);
      more := pull;
      if stop == None {
        more := SendOutgoing(k, pull);
      }
    }

    method ProceedAndSend(k: nat, pull: seq<Packet>) returns (stop: Option<Stop>, more: seq<Packet>)
      requires Valid() && k < |parties|
      modifies owned[k]
      ensures Valid() && |Views()| == |old(Views())|
      ensures var t := ProceedTurn(c, old(Views())[k]);
              && stop == t.stop
              && (stop == None ==>
                    more == pull + t.machine.queue && Views() == old(Views())[k := t.machine.(queue := [])])
    {
      hide ProceedTurn, Valid, Views;
      stop := Proceeding(k);
      more := pull;
      if stop == None {
        more := SendOutgoing(k, pull);
      }
    }

    /** Every party handles the batch and sends, up to the first stop. */
    method FeedAll(batch: seq<Packet>) returns (stop: Option<Stop>, pull: seq<Packet>)
      requires Valid()
      modifies All()
      ensures Valid()
      ensures var ts := FeedTurns(c, old(Views()), batch);
              && stop == FirstStop(ts)
              && (stop == None ==> Views() == Flushed(ts) && pull == Outboxes(ts))
    {
      hide Feed, FirstStop, Outboxes, Valid, Views, Union;
      ghost var start := Views();
      ghost var ts := FeedTurns(c, start, batch);
      StartOfTurns(ts);
      stop, pull := None, [];
      for k := 0 to |parties|
        invariant Valid() && stop == None && FirstStop(ts[..k]) == None && pull == Outboxes(ts[..k])
        invariant |Views()| == |ts| && forall j :: 0 <= j < k ==> Views()[j] == Flushed(ts)[j]
        invariant forall j :: k <= j < |ts| ==> Views()[j] == start[j]
      {
        TurnSnoc(ts, k);
        stop, pull := FeedAndSend(k, batch, pull);
        if stop.Some? {
          FirstStopStays(ts, k + 1);
          return;
        }
      }
      assert ts[..|parties|] == ts && Views() == Flushed(ts);
    }

    /** Every party proceeds and sends, up to the first stop. */
    method ProceedAll(before: seq<Packet>) returns (stop: Option<Stop>, pull: seq<Packet>)
      requires Valid()
      modifies All()
      ensures Valid()
      ensures var ts := ProceedTurns(c, old(Views()));
              && stop == FirstStop(ts)
              && (stop == None ==> Views() == Flushed(ts) && pull == before + Outboxes(ts))
    {
      hide ProceedTurn, FirstStop, Outboxes, Valid, Views, Union;
      ghost var start := Views();
      ghost var ts := ProceedTurns(c, start);
      StartOfTurns(ts);
      stop, pull := None, before;
      for k := 0 to |parties|
        invariant Valid() && stop == None && FirstStop(ts[..k]) == None && pull == before + Outboxes(ts[..k])
        invariant |Views()| == |ts| && forall j :: 0 <= j < k ==> Views()[j] == Flushed(ts)[j]
        invariant forall j :: k <= j < |ts| ==> Views()[j] == start[j]
      {
        TurnSnoc(ts, k);
        stop, pull := ProceedAndSend(k, pull);
        if stop.Some? {
          FirstStopStays(ts, k + 1);
          return;
        }
      }
      assert ts[..|parties|] == ts && Views() == Flushed(ts);
    }

    /**
     `finish_if_possible`. Some parties finished and others not is what the warning is about; then
     the simulation goes on.
     */
    method FinishIfPossible() returns (outputs: Option<seq<SignResult>>, warned: bool)
      requires Valid()
      modifies All()
      ensures Valid()
      ensures warned <==> (exists k :: 0 <= k < |parties| && old(Views())[k].round.Finished?) &&
                          (exists k :: 0 <= k < |parties| && !old(Views())[k].round.Finished?)
      ensures outputs.Some? <==> |parties| > 0 && forall k :: 0 <= k < |parties| ==> old(Views())[k].round.Finished?
      ensures outputs.Some? ==> |outputs.value| == |parties|
      ensures outputs.Some? ==> forall k :: 0 <= k < |parties| ==> old(Views())[k].round == Finished(outputs.value[k])
      ensures outputs == None ==> Views() == old(Views())
    {
      hide Valid, Views, Union;
      var someone := exists k :: 0 <= k < |parties| && parties[k].IsFinished();
      var everyone := forall k :: 0 <= k < |parties| ==> parties[k].IsFinished();
      assert forall k :: 0 <= k < |parties| ==> Views()[k].round == parties[k].round;
      if !someone {
        assert |parties| > 0 ==> !parties[0].IsFinished();
        return None, false;
      }
      if !everyone {
        return None, true;
      }
      var results := PickAll();
      return Some(results), false;
    }

    method PickAll() returns (results: seq<SignResult>)
      requires Valid() && forall k :: 0 <= k < |parties| ==> Views()[k].round.Finished?
      modifies All()
      ensures Valid() && |results| == |parties|
      ensures forall k :: 0 <= k < |parties| ==> old(Views())[k].round == Finished(results[k])
    {
      hide Valid, Views, Union;
      ghost var start := Views();
      results := [];
      for k := 0 to |parties|
        invariant Valid() && |results| == k && |Views()| == |start|
        invariant forall j :: 0 <= j < k ==> start[j].round == Finished(results[j])
        invariant forall j :: k <= j < |start| ==> Views()[j] == start[j]
      {
        var result := PickFrom(k);
        results := results + [result];
      }
    }

    method PickFrom(k: nat) returns (result: SignResult)
      requires Valid() && k < |parties| && Views()[k].round.Finished?
      modifies owned[k]
      ensures Valid() && old(Views())[k].round == Finished(result)
      ensures |Views()| == |old(Views())| && forall j :: 0 <= j < |parties| && j != k ==> Views()[j] == old(Views())[j]
    {
      hide Pick, Musig2Instance.Valid, Musig2Instance.View, Musig2Instance.Repr;
      assert Owns(c, parties[k], owned[k]);
      result := TakeOutput(parties[k]);
      OthersUntouched(k);
    }

    /**
     `run` on the parties 1..n of a setup. It ends after at most two batches; it yields outputs
     exactly when all computations of all parties succeed, then after exactly two batches, each
     party's output being its own result of round 2; and some parties are never finished without the
     others.
     */
    method Run(ghost su: Setup) returns (r: SimulationResult, batches: nat, warned: bool)
      requires Valid() && c == su.c && su.N() <= U16_MAX && Views() == Inits(su)
      modifies All()
      ensures Valid() && !warned && batches <= 2
      ensures r.NotEnoughParties? <==> su.N() < 2
      ensures su.N() >= 2 ==> (r.Outputs? <==> AllSucceed(su))
      ensures r.Outputs? ==> batches == 2 && AreOutputs(su, r.outputs)
      ensures r.Stopped? ==> Explained(su, r.stop)
    {
      hide Valid, Views, Union, ProceedTurn, FirstStop, Outboxes, Setup.Signing, Setup.Finishing, Setup.Others1, At,
           AreOutputs;
      batches, warned := 0, false;
      if |parties| < 2 {
        return NotEnoughParties, batches, warned;
      }
      PrepareStage(su);
      var stop, pull := ProceedAll([]);
      if stop.Some? {
        return Stopped(stop.value), batches, warned;
      }
      Stage1Waits(su);
      assert !Views()[0].round.Finished?;
      var outputs;
      outputs, warned := FinishIfPossible();
      while outputs == None
        invariant Valid() && !warned && (if outputs == None then batches == 0 || batches == 1 else batches == 2)
        invariant batches < 2 ==> AtStage(su, batches, pull)
        invariant batches == 2 ==> AreOutputs(su, outputs.value)
        decreases 2 - batches
      {
        stop, pull := Exchange(su, batches, pull);
        if stop.Some? {
          return Stopped(stop.value), batches, warned;
        }
        var mixed;
        ghost var views := Views();
        assert views[0].round.Finished? <==> batches == 1;
        outputs, mixed := FinishIfPossible();
        if batches == 1 {
          FinishedOutputs(su, views, outputs.value);
        }
        warned := warned || mixed;
        batches := batches + 1;
      }
      return Outputs(outputs.value), batches, warned;
    }

    /** Where the parties are, and what is in flight, before each batch and after the last. */
    ghost predicate AtStage(su: Setup, batches: nat, pull: seq<Packet>)
      requires Valid() && su.c.q > 0 && su.N() <= U16_MAX
      reads this, All()
    {
      match batches
      case 0 => su.AllPrepared() && Views() == Stage1(su) && pull == Batch1(su)
      case 1 => su.AllSigning() && Views() == Stage2(su) && pull == Batch2(su)
      case _ => AllFinished(su, Views())
    }

    /** One turn of the loop: everybody handles the frozen batch, then everybody proceeds. */
    method Exchange(ghost su: Setup, ghost batches: nat, frozen: seq<Packet>)
      returns (stop: Option<Stop>, pull: seq<Packet>)
      requires Valid() && c == su.c && 2 <= su.N() <= U16_MAX && batches < 2 && AtStage(su, batches, frozen)
      modifies All()
      ensures Valid()
      ensures stop == None ==> AtStage(su, batches + 1, pull)
      ensures stop == None ==>
                forall k :: 0 <= k < su.N() == |Views()| ==> (Views()[k].round.Finished? <==> batches == 1)
      ensures stop.Some? ==> Explained(su, stop.value) && !AllSucceed(su)
    {
      hide Valid, Views, Union, ProceedTurn, FirstStop, Outboxes, Setup.Signing, Setup.Finishing, Setup.Others1, At;
      if batches == 0 {
        SignStage(su);
      } else {
        FinishStage(su);
      }
      stop, pull := FeedAll(frozen);
      if stop == None {
        if batches == 0 {
          WaitingStage(su);
        } else {
          FinishedStage(su, Views());
        }
        stop, pull := ProceedAll(pull);
      }
    }
  }
}
