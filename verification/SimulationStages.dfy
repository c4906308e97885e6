/**
 The lock-step simulation: every party takes its turn on a frozen batch of messages, then the next
 batch is what they sent.
 */
module SimulationStages {
  import opened Wrappers
  import opened Curves
  import opened Musig2
  import opened SignatureTheory
  import opened SignatureCorrectness
  import opened Broadcast
  import opened Rounds
  import opened Machine
  import opened MachineRuns
  import opened HonestRounds
  import opened Network

  // ---- delivery ----

  /** The simulation hands this message of the batch to party me. */
  predicate Delivers(me: nat, msg: Packet) {
    !(Some(me) != msg.receiver && (msg.receiver.Some? || msg.sender == me))
  }

  /** The asynchronous simulation lets this message through to party me. */
  predicate StreamDelivers(me: nat, msg: Packet) {
    msg.sender != me && (msg.receiver.None? || msg.receiver == Some(me))
  }

  /** The two filters differ only on a message that a party addresses to itself. */
  lemma FiltersAgree(me: nat, msg: Packet)
    ensures Delivers(me, msg) == StreamDelivers(me, msg) <==> !(msg.sender == me && msg.receiver == Some(me))
    ensures msg.receiver == None ==> (Delivers(me, msg) <==> msg.sender != me)
    ensures msg.receiver.Some? ==> (Delivers(me, msg) <==> msg.receiver.value == me)
  {
  }

  // ---- one turn of one party, on values ----

  /** Why a simulation ends early. */
  datatype Stop = Critical(error: InstanceError) | ComputationPanicked(cause: PanicCause) | StorePanicked

  /** A non-critical error is printed and otherwise ignored. */
  function StopOf(status: Status): Option<Stop> {
    match status
    case Done => None
    case Failed(error) => if error.IsCritical() then Some(Critical(error)) else None
    case Panicked(cause) => Some(ComputationPanicked(cause))
    case StoreGone => Some(StorePanicked)
  }

  datatype Turn = Turn(machine: Machine, stop: Option<Stop>)

  function ProceedTurn(c: Curve, s: Machine): Turn
    requires c.q > 0 && s.WellFormed()
  {
    if s.WantsToProceed() then Turn(Proceed(c, s).0, StopOf(Proceed(c, s).1)) else Turn(s, None)
  }

  /** Handles a batch up to the first stop. */
  function Feed(c: Curve, s: Machine, msgs: seq<Packet>): (t: Turn)
    requires c.q > 0 && s.WellFormed()
    ensures t.machine.WellFormed()
  {
    if msgs == [] then Turn(s, None)
    else
      var t, msg := Feed(c, s, msgs[..|msgs| - 1]), msgs[|msgs| - 1];
      if t.stop.Some? || !Delivers(s.me, msg) then t
      else
        StepWellFormed(c, RunState(t.machine, []), Deliver(msg));
        var (u, status) := Handle(c, t.machine, msg);
        Turn(u, StopOf(status))
  }

  lemma FeedSnoc(c: Curve, s: Machine, batch: seq<Packet>, k: nat)
    requires c.q > 0 && s.WellFormed() && 1 <= k <= |batch|
    ensures var t, u := Feed(c, s, batch[..k - 1]), Feed(c, s, batch[..k]);
            if t.stop.Some? || !Delivers(s.me, batch[k - 1]) then u == t
            else u == Turn(Handle(c, t.machine, batch[k - 1]).0, StopOf(Handle(c, t.machine, batch[k - 1]).1))
  {
    assert batch[..k][..|batch[..k]| - 1] == batch[..k - 1];
    hide Handle;
  }

  lemma FeedNothing(c: Curve, s: Machine)
    requires c.q > 0 && s.WellFormed()
    ensures Feed(c, s, []) == Turn(s, None)
  {
  }

  /** A stop ends the turn: the rest of the batch is not looked at. */
  lemma {:induction false} FeedStopped(c: Curve, s: Machine, batch: seq<Packet>, k: nat)
    requires c.q > 0 && s.WellFormed() && k <= |batch| && Feed(c, s, batch[..k]).stop.Some?
    ensures Feed(c, s, batch) == Feed(c, s, batch[..k])
    decreases |batch| - k
  {
    if k < |batch| {
      FeedSnoc(c, s, batch, k + 1);
      FeedStopped(c, s, batch, k + 1);
    } else {
      assert batch[..k] == batch;
    }
  }

  predicate AllWellFormed(views: seq<Machine>) {
    forall k :: 0 <= k < |views| ==> views[k].WellFormed()
  }

  function ProceedTurns(c: Curve, views: seq<Machine>): (ts: seq<Turn>)
    requires c.q > 0 && AllWellFormed(views)
    ensures |ts| == |views|
    ensures forall k :: 0 <= k < |views| ==> ts[k] == ProceedTurn(c, views[k])
  {
    seq(|views|, k requires 0 <= k < |views| => ProceedTurn(c, views[k]))
  }

  function FeedTurns(c: Curve, views: seq<Machine>, batch: seq<Packet>): (ts: seq<Turn>)
    requires c.q > 0 && AllWellFormed(views)
    ensures |ts| == |views|
    ensures forall k :: 0 <= k < |views| ==> ts[k] == Feed(c, views[k], batch)
  {
    seq(|views|, k requires 0 <= k < |views| => Feed(c, views[k], batch))
  }

  /** The party at index k stops, and none before it. */
  ghost predicate IsFirst(ts: seq<Turn>, k: nat) {
    k < |ts| && ts[k].stop.Some? && forall j :: 0 <= j < k ==> ts[j].stop == None
  }

  lemma FirstOfPrefix(ts: seq<Turn>)
    requires ts != []
    ensures forall k: nat :: IsFirst(ts[..|ts| - 1], k) ==> IsFirst(ts, k) && ts[k].stop == ts[..|ts| - 1][k].stop
  {
    forall k: nat | IsFirst(ts[..|ts| - 1], k)
      ensures IsFirst(ts, k) && ts[k].stop == ts[..|ts| - 1][k].stop
    {
      forall j | 0 <= j < k
        ensures ts[j].stop == None
      {
        assert ts[..|ts| - 1][j] == ts[j];
      }
    }
  }

  /** The stop of the first party that has one. */
  function FirstStop(ts: seq<Turn>): (r: Option<Stop>)
    ensures r == None <==> forall k :: 0 <= k < |ts| ==> ts[k].stop == None
    ensures r.Some? ==> exists k: nat :: IsFirst(ts, k) && ts[k].stop == r
  {
    if ts == [] then None
    else
      var before := FirstStop(ts[..|ts| - 1]);
      FirstOfPrefix(ts);
      if before.Some? then before
      else
        assert ts[|ts| - 1].stop.Some? ==> IsFirst(ts, |ts| - 1);
        ts[|ts| - 1].stop
  }

  /** Everything the parties had in their outboxes after their turns, party by party. */
  function Outboxes(ts: seq<Turn>): seq<Packet> {
    if ts == [] then [] else Outboxes(ts[..|ts| - 1]) + ts[|ts| - 1].machine.queue
  }

  /** The machines once the outboxes have been emptied. */
  function Flushed(ts: seq<Turn>): (views: seq<Machine>)
    ensures |views| == |ts|
    ensures forall k :: 0 <= k < |ts| ==> views[k] == ts[k].machine.(queue := [])
  {
    seq(|ts|, k requires 0 <= k < |ts| => ts[k].machine.(queue := []))
  }

  lemma TurnSnoc(ts: seq<Turn>, k: nat)
    requires k < |ts|
    ensures FirstStop(ts[..k + 1]) == if FirstStop(ts[..k]).Some? then FirstStop(ts[..k]) else ts[k].stop
    ensures Outboxes(ts[..k + 1]) == Outboxes(ts[..k]) + ts[k].machine.queue
  {
    assert ts[..k + 1][..|ts[..k + 1]| - 1] == ts[..k];
  }

  lemma StartOfTurns(ts: seq<Turn>)
    ensures FirstStop(ts[..0]) == None && Outboxes(ts[..0]) == [] && ts[..|ts|] == ts
  {
  }

  /** The first stop is not overtaken by later ones. */
  lemma {:induction false} FirstStopStays(ts: seq<Turn>, k: nat)
    requires k <= |ts| && FirstStop(ts[..k]).Some?
    ensures FirstStop(ts) == FirstStop(ts[..k])
    decreases |ts| - k
  {
    if k < |ts| {
      TurnSnoc(ts, k);
      FirstStopStays(ts, k + 1);
    } else {
      assert ts[..k] == ts;
    }
  }

  lemma {:induction false} OutboxesAre(ts: seq<Turn>, batch: seq<Packet>)
    requires |ts| == |batch| && forall k :: 0 <= k < |ts| ==> ts[k].machine.queue == [batch[k]]
    ensures Outboxes(ts) == batch
  {
    if ts == [] {
    } else {
      OutboxesAre(ts[..|ts| - 1], batch[..|ts| - 1]);
      assert batch == batch[..|ts| - 1] + [batch[|ts| - 1]];
    }
  }

  lemma {:induction false} OutboxesEmpty(ts: seq<Turn>)
    requires forall k :: 0 <= k < |ts| ==> ts[k].machine.queue == []
    ensures Outboxes(ts) == []
  {
    if ts == [] {
    } else {
      OutboxesEmpty(ts[..|ts| - 1]);
    }
  }

  // ---- the stages of an honest simulation ----

  /** All computations of all parties succeed. */
  ghost predicate AllSucceed(su: Setup)
    requires su.c.q > 0 && su.N() <= U16_MAX
  {
    su.AllSigning() && forall i {:trigger su.Finishing(i)} :: su.IsParty(i) ==> su.Finishing(i).Ok?
  }

  ghost function Inits(su: Setup): (r: seq<Machine>)
    requires su.N() <= U16_MAX
    ensures |r| == su.N() && AllWellFormed(r)
    ensures forall k :: 0 <= k < su.N() ==> r[k] == Init(su.PrepareOf(k + 1), su.N())
  {
    seq(su.N(), k requires 0 <= k < su.N() => Init(su.PrepareOf(k + 1), su.N()))
  }

  ghost function Packet1(su: Setup, i: nat): Packet
    requires su.IsParty(i) && su.IsPrepared(i)
  {
    Msg(i, None, FromRound1(su.Message1(i)))
  }

  ghost function Packet2(su: Setup, i: nat): Packet
    requires su.c.q > 0 && su.N() <= U16_MAX && su.AllSigning() && su.IsParty(i)
  {
    Msg(i, None, FromRound2(su.Signing(i).value.1))
  }

  ghost function Batch1(su: Setup): (r: seq<Packet>)
    requires su.AllPrepared()
    ensures |r| == su.N() && forall k :: 0 <= k < su.N() ==> r[k] == Packet1(su, k + 1)
  {
    hide Packet1;
    seq(su.N(), k requires 0 <= k < su.N() => Packet1(su, k + 1))
  }

  ghost function Batch2(su: Setup): (r: seq<Packet>)
    requires su.c.q > 0 && su.N() <= U16_MAX && su.AllSigning()
    ensures |r| == su.N() && forall k :: 0 <= k < su.N() ==> r[k] == Packet2(su, k + 1)
  {
    hide Packet2, Setup.AllSigning;
    seq(su.N(), k requires 0 <= k < su.N() => Packet2(su, k + 1))
  }

  /** Party i having accepted m1 and m2, with its outbox flushed. */
  ghost function At(su: Setup, i: nat, m1: Store1, m2: Store2): (s: Machine)
    requires su.c.q > 0 && su.N() <= U16_MAX && su.IsParty(i)
    ensures s.WellFormed() && s.me == i
  {
    ProceedIsIdle(su.c, su.PrepareOf(i), su.N(), m1, m2);
    Closed(su.c, su.PrepareOf(i), su.N(), m1, m2).(queue := [])
  }

  ghost function Stage1(su: Setup): (r: seq<Machine>)
    requires su.c.q > 0 && su.N() <= U16_MAX
    ensures |r| == su.N() && AllWellFormed(r)
    ensures forall k :: 0 <= k < su.N() ==> r[k] == At(su, k + 1, map[], map[])
  {
    hide At;
    seq(su.N(), k requires 0 <= k < su.N() => At(su, k + 1, map[], map[]))
  }

  ghost function Stage2(su: Setup): (r: seq<Machine>)
    requires su.c.q > 0 && su.N() <= U16_MAX && su.AllPrepared()
    ensures |r| == su.N() && AllWellFormed(r)
    ensures forall k :: 0 <= k < su.N() ==> r[k] == At(su, k + 1, su.Others1(k + 1), map[])
  {
    hide At, Setup.Others1, Setup.AllPrepared;
    seq(su.N(), k requires 0 <= k < su.N() => At(su, k + 1, su.Others1(k + 1), map[]))
  }

  /** The round 1 messages among the first k of the batch, without i's own. */
  ghost function First1(su: Setup, i: nat, k: nat): (m: Store1)
    requires su.AllPrepared() && k <= su.N()
  {
    map j: nat | 1 <= j <= k && j != i :: su.Message1(j)
  }

  ghost function First2(su: Setup, i: nat, k: nat): (m: Store2)
    requires su.c.q > 0 && su.N() <= U16_MAX && su.AllSigning() && k <= su.N()
  {
    map j: nat | 1 <= j <= k && j != i :: su.Signing(j).value.1
  }

  /** The very first turn: `proceed` performs Prepare and then waits in Round1. */
  lemma FirstTurn(c: Curve, p: Prepare, n: nat)
    requires c.q > 0 && ValidIndex(p.myInd, n) && n >= 2
    ensures ProceedTurn(c, Init(p, n)) ==
            Turn(Closed(c, p, n, map[], map[]),
                 if PrepareStep(c, p).Ok? then None else StopOf(Failure(PrepareStep(c, p))))
    ensures StopOf(Done) == None && (PrepareStep(c, p).IsFailure() ==> StopOf(Failure(PrepareStep(c, p))).Some?)
    ensures PrepareStep(c, p).Ok? ==>
              Closed(c, p, n, map[], map[]).queue == [Msg(p.myInd, None, FromRound1(PrepareStep(c, p).value.1))]
  {
    hide Round1Step, Round2Step;
    ProceedFromStores(c, p, n, map[], map[]);
    NotFullYet<MessageRound1>(p.myInd, n);
    if PrepareStep(c, p).Ok? {
      var s := Init(p, n);
      var s1 := s.(round := InRound1(PrepareStep(c, p).value.0)).Broadcasting(FromRound1(PrepareStep(c, p).value.1));
      assert Proceed(c, s1) == (s1, Done);
    }
  }

  lemma NotFullYet<B>(me: nat, n: nat)
    requires ValidIndex(me, n) && n >= 2
    ensures !Full<B>(me, n, map[])
  {
    assert IsOther(me, n, if me == 1 then 2 else 1);
    var m: map<nat, B> := map[];
    assert (if me == 1 then 2 else 1) !in m;
  }

  /** How the turn of a party ends that holds m1 and has no round 2 messages. */
  function SigningStop(c: Curve, p: Prepare, n: nat, m1: Store1): Option<Stop>
    requires c.q > 0 && ValidIndex(p.myInd, n) && PrepareStep(c, p).Ok?
  {
    if !Full(p.myInd, n, m1) then None
    else
      var o := SignedStep(c, PrepareStep(c, p).value.0, p.myInd, n, m1);
      if o.Ok? then None else StopOf(Failure(o))
  }

  /** How the turn of a party ends that has signed on m1 and holds m2. */
  function FinishingStop(c: Curve, p: Prepare, n: nat, m1: Store1, m2: Store2): Option<Stop>
    requires c.q > 0 && ValidIndex(p.myInd, n) && PrepareStep(c, p).Ok? && Full(p.myInd, n, m1)
    requires SignedStep(c, PrepareStep(c, p).value.0, p.myInd, n, m1).Ok?
  {
    if !Full(p.myInd, n, m2) then None
    else
      var o := FinishedStep(c, SignedStep(c, PrepareStep(c, p).value.0, p.myInd, n, m1).value.0, p.myInd, n, m2);
      if o.Ok? then None else StopOf(Failure(o))
  }

  /** A new round 1 message: the party signs when it was the last one missing. */
  lemma Round1Turn(c: Curve, p: Prepare, n: nat, m1: Store1, msg: Packet)
    requires c.q > 0 && ValidIndex(p.myInd, n) && n >= 2 && PrepareStep(c, p).Ok?
    requires msg.body.FromRound1? && msg.receiver.None? && IsOther(p.myInd, n, msg.sender) && msg.sender !in m1
    ensures Closed(c, p, n, m1, map[]).WellFormed()
    ensures var m1' := m1[msg.sender := msg.body.m1];
            && Accept1(p.myInd, n, m1, msg) == m1' && Accept2(p.myInd, n, map[], msg) == map[]
            && StopOf(Handle(c, Closed(c, p, n, m1, map[]), msg).1) == SigningStop(c, p, n, m1')
  {
    hide Round1Step, Round2Step;
    NotFullYet<MessageRound2>(p.myInd, n);
    var s := Closed(c, p, n, m1, map[]);
    var m1' := m1[msg.sender := msg.body.m1];
    assert !Full(p.myInd, n, m1);
    var t := s.(msgs1 := Some(m1'));
    assert Handle(c, s, msg) == Proceed(c, t);
    if Full(p.myInd, n, m1') {
      var o := SignedStep(c, PrepareStep(c, p).value.0, p.myInd, n, m1');
      if o.Ok? {
        var u := t.(msgs1 := None, round := InRound2(o.value.0)).Broadcasting(FromRound2(o.value.1));
        assert Proceed(c, u) == (u, Done);
        assert Proceed(c, t) == Proceed(c, u);
      }
    }
  }

  /** A new round 2 message: the party combines the shares when it was the last one missing. */
  lemma Round2Turn(c: Curve, p: Prepare, n: nat, m1: Store1, m2: Store2, msg: Packet)
    requires c.q > 0 && ValidIndex(p.myInd, n) && PrepareStep(c, p).Ok? && Full(p.myInd, n, m1)
    requires SignedStep(c, PrepareStep(c, p).value.0, p.myInd, n, m1).Ok?
    requires msg.body.FromRound2? && msg.receiver.None? && IsOther(p.myInd, n, msg.sender) && msg.sender !in m2
    ensures Closed(c, p, n, m1, m2).WellFormed()
    ensures var m2' := m2[msg.sender := msg.body.m2];
            && Accept1(p.myInd, n, m1, msg) == m1 && Accept2(p.myInd, n, m2, msg) == m2'
            && StopOf(Handle(c, Closed(c, p, n, m1, m2), msg).1) == FinishingStop(c, p, n, m1, m2')
  {
    hide Round1Step, Round2Step;
    var s := Closed(c, p, n, m1, m2);
    assert !Full(p.myInd, n, m2);
    var t := s.(msgs2 := Some(m2[msg.sender := msg.body.m2]));
    assert Handle(c, s, msg) == Proceed(c, t);
  }

  lemma First1Grows(su: Setup, i: nat, k: nat)
    requires su.AllPrepared() && k < su.N()
    ensures First1(su, i, 0) == map[] && k + 1 !in First1(su, i, k)
    ensures su.IsPrepared(k + 1)
    ensures First1(su, i, k + 1) ==
            if k + 1 == i then First1(su, i, k) else First1(su, i, k)[k + 1 := su.Message1(k + 1)]
    ensures su.IsParty(i) && i != k + 1 ==> !Full(i, su.N(), First1(su, i, k))
  {
    if su.IsParty(i) && i != k + 1 {
      assert k + 1 !in First1(su, i, k);
    }
  }

  lemma First2Grows(su: Setup, i: nat, k: nat)
    requires su.c.q > 0 && su.N() <= U16_MAX && su.AllSigning() && k < su.N()
    ensures First2(su, i, 0) == map[] && k + 1 !in First2(su, i, k)
    ensures su.Signing(k + 1).Ok?
    ensures First2(su, i, k + 1) ==
            if k + 1 == i then First2(su, i, k) else First2(su, i, k)[k + 1 := su.Signing(k + 1).value.1]
    ensures su.IsParty(i) && i != k + 1 ==> !Full(i, su.N(), First2(su, i, k))
  {
    hide Setup.Signing;
    assert su.IsParty(k + 1);
    if su.IsParty(i) && i != k + 1 {
      assert k + 1 !in First2(su, i, k);
    }
  }

  /** Party i after the first k messages of the first batch. */
  ghost predicate Fed1(su: Setup, i: nat, k: nat, t: Turn)
    requires su.c.q > 0 && 2 <= su.N() <= U16_MAX && su.AllPrepared() && su.IsParty(i) && k <= su.N()
  {
    && su.IsPrepared(i)
    && t.stop == SigningStop(su.c, su.PrepareOf(i), su.N(), First1(su, i, k))
    && (t.stop == None ==>
          Shift([Packet1(su, i)], t.machine) == Closed(su.c, su.PrepareOf(i), su.N(), First1(su, i, k), map[]))
  }

  lemma {:induction false} FeedRound1(su: Setup, i: nat, k: nat)
    requires su.c.q > 0 && 2 <= su.N() <= U16_MAX && su.AllPrepared() && su.IsParty(i) && k <= su.N()
    ensures Fed1(su, i, k, Feed(su.c, At(su, i, map[], map[]), Batch1(su)[..k]))
  {
    hide PrepareStep, SignedStep, Handle, Closed, At, Full, First1, Feed, Fed1, Setup.Signing;
    var s := At(su, i, map[], map[]);
    if k == 0 {
      FeedRound1Start(su, i);
      FeedNothing(su.c, s);
      assert Batch1(su)[..0] == [];
    } else {
      FeedRound1(su, i, k - 1);
      FeedSnoc(su.c, s, Batch1(su), k);
      FeedRound1Step(su, i, k, Feed(su.c, s, Batch1(su)[..k - 1]));
    }
  }

  lemma FeedRound1Start(su: Setup, i: nat)
    requires su.c.q > 0 && 2 <= su.N() <= U16_MAX && su.AllPrepared() && su.IsParty(i)
    ensures Fed1(su, i, 0, Turn(At(su, i, map[], map[]), None))
  {
    hide PrepareStep, SignedStep, Full, Setup.Signing;
    assert su.IsPrepared(i);
    FirstTurn(su.c, su.PrepareOf(i), su.N());
    NotFullYet<MessageRound1>(i, su.N());
    assert First1(su, i, 0) == map[];
  }

  /** One more message: the party's own is passed over, and nobody stops early. */
  lemma FeedRound1Step(su: Setup, i: nat, k: nat, t: Turn)
    requires su.c.q > 0 && 2 <= su.N() <= U16_MAX && su.AllPrepared() && su.IsParty(i) && 1 <= k <= su.N()
    requires t.machine.WellFormed() && Fed1(su, i, k - 1, t)
    ensures k == i ==> Fed1(su, i, k, t)
    ensures k != i ==> t.stop == None && su.IsPrepared(k)
    ensures k != i ==>
              var (u, status) := Handle(su.c, t.machine, Packet1(su, k));
              Fed1(su, i, k, Turn(u, StopOf(status)))
  {
    hide PrepareStep, SignedStep, Handle, Closed, First1, Setup.Signing;
    First1Grows(su, i, k - 1);
    if k != i {
      var c, p, n, m1, msg := su.c, su.PrepareOf(i), su.N(), First1(su, i, k - 1), Packet1(su, k);
      Round1Turn(c, p, n, m1, msg);
      HandleOnClosed(c, p, n, m1, map[], msg);
      HandleShift(c, [Packet1(su, i)], t.machine, msg);
    }
  }

  lemma First1Full(su: Setup, i: nat, k: nat)
    requires su.AllPrepared() && su.IsParty(i) && k <= su.N()
    ensures Full(i, su.N(), First1(su, i, k)) ==> First1(su, i, k) == su.Others1(i)
    ensures First1(su, i, su.N()) == su.Others1(i)
  {
    if Full(i, su.N(), First1(su, i, k)) {
      assert First1(su, i, k).Keys == su.Others1(i).Keys;
    }
  }

  lemma First2Full(su: Setup, i: nat, k: nat)
    requires su.c.q > 0 && su.N() <= U16_MAX && su.AllSigning() && su.IsParty(i) && k <= su.N()
    ensures Full(i, su.N(), First2(su, i, k)) ==> First2(su, i, k) == su.Others2(i)
    ensures First2(su, i, su.N()) == su.Others2(i)
  {
    hide Setup.Signing;
    if Full(i, su.N(), First2(su, i, k)) {
      assert First2(su, i, k).Keys == su.Others2(i).Keys;
    }
  }

  ghost function BothPackets(su: Setup, i: nat): seq<Packet>
    requires su.c.q > 0 && su.N() <= U16_MAX && su.AllSigning() && su.IsParty(i)
  {
    assert su.IsPrepared(i);
    [Packet1(su, i), Packet2(su, i)]
  }

  /** Party i after the first k messages of the second batch. */
  ghost predicate Fed2(su: Setup, i: nat, k: nat, t: Turn)
    requires su.c.q > 0 && 2 <= su.N() <= U16_MAX && su.AllSigning() && su.IsParty(i) && k <= su.N()
  {
    && su.IsPrepared(i) && su.Signing(i).Ok?
    && t.stop == FinishingStop(su.c, su.PrepareOf(i), su.N(), su.Others1(i), First2(su, i, k))
    && (t.stop == None ==>
          Shift(BothPackets(su, i), t.machine) ==
          Closed(su.c, su.PrepareOf(i), su.N(), su.Others1(i), First2(su, i, k)))
  }

  lemma {:induction false} FeedRound2(su: Setup, i: nat, k: nat)
    requires su.c.q > 0 && 2 <= su.N() <= U16_MAX && su.AllSigning() && su.IsParty(i) && k <= su.N()
    ensures Fed2(su, i, k, Feed(su.c, At(su, i, su.Others1(i), map[]), Batch2(su)[..k]))
  {
    hide PrepareStep, SignedStep, Handle, Closed, At, Full, Feed, Fed2, Setup.Signing;
    var s := At(su, i, su.Others1(i), map[]);
    if k == 0 {
      FeedRound2Start(su, i);
      FeedNothing(su.c, s);
      assert Batch2(su)[..0] == [];
    } else {
      FeedRound2(su, i, k - 1);
      FeedSnoc(su.c, s, Batch2(su), k);
      FeedRound2Step(su, i, k, Feed(su.c, s, Batch2(su)[..k - 1]));
    }
  }

  lemma FeedRound2Start(su: Setup, i: nat)
    requires su.c.q > 0 && 2 <= su.N() <= U16_MAX && su.AllSigning() && su.IsParty(i)
    ensures Fed2(su, i, 0, Turn(At(su, i, su.Others1(i), map[]), None))
  {
    hide PrepareStep, SignedStep, Full, Setup.Finishing;
    NotFullYet<MessageRound2>(i, su.N());
    assert su.IsPrepared(i);
    assert su.Signing(i).Ok?;
    assert First2(su, i, 0) == map[];
  }

  /** One more message: the party's own is passed over, and nobody stops early. */
  lemma FeedRound2Step(su: Setup, i: nat, k: nat, t: Turn)
    requires su.c.q > 0 && 2 <= su.N() <= U16_MAX && su.AllSigning() && su.IsParty(i) && 1 <= k <= su.N()
    requires t.machine.WellFormed() && Fed2(su, i, k - 1, t)
    ensures k == i ==> Fed2(su, i, k, t)
    ensures k != i ==> t.stop == None
    ensures k != i ==>
              var (u, status) := Handle(su.c, t.machine, Packet2(su, k));
              Fed2(su, i, k, Turn(u, StopOf(status)))
  {
    hide PrepareStep, SignedStep, Handle, Closed, Full, First2, Setup.Finishing, BothPackets;
    First2Grows(su, i, k - 1);
    if k != i {
      var c, p, n, m2, msg := su.c, su.PrepareOf(i), su.N(), First2(su, i, k - 1), Packet2(su, k);
      Round2Turn(c, p, n, su.Others1(i), m2, msg);
      HandleOnClosed(c, p, n, su.Others1(i), m2, msg);
      HandleShift(c, BothPackets(su, i), t.machine, msg);
    }
  }

  // ---- the stages, all parties together ----

  /** What a failed computation stops the simulation with: its panic, or the critical error. */
  predicate StopsOver<T>(o: Outcome<T>, stop: Stop) {
    match o
    case Ok(_) => false
    case Err(_) => stop == Critical(InstanceError.ProceedRound(Musig2Failure))
    case Panic(cause) => stop == ComputationPanicked(cause)
  }

  lemma FailureStops<T>(o: Outcome<T>)
    requires o.IsFailure()
    ensures StopOf(Failure(o)).Some? && StopsOver(o, StopOf(Failure(o)).value)
  {
  }

  /** Party i is the first that cannot prepare, sign or finish, and stops the simulation with that. */
  ghost predicate PrepareStopsAt(su: Setup, i: nat, stop: Stop) {
    && su.IsParty(i) && StopsOver(PrepareStep(su.c, su.PrepareOf(i)), stop)
    && forall j :: 1 <= j < i ==> su.IsPrepared(j)
  }

  ghost predicate SignStopsAt(su: Setup, i: nat, stop: Stop)
    requires su.c.q > 0 && su.N() <= U16_MAX && su.AllPrepared()
  {
    su.IsParty(i) && StopsOver(su.Signing(i), stop) && forall j :: 1 <= j < i ==> su.Signing(j).Ok?
  }

  ghost predicate FinishStopsAt(su: Setup, i: nat, stop: Stop)
    requires su.c.q > 0 && su.N() <= U16_MAX && su.AllSigning()
  {
    su.IsParty(i) && StopsOver(su.Finishing(i), stop) && forall j :: 1 <= j < i ==> su.Finishing(j).Ok?
  }

  /** The stop is that of the first failure in the first round that somebody fails. */
  ghost predicate Explained(su: Setup, stop: Stop)
    requires su.c.q > 0 && su.N() <= U16_MAX
  {
    if !su.AllPrepared() then exists i: nat :: PrepareStopsAt(su, i, stop)
    else if !su.AllSigning() then exists i: nat :: SignStopsAt(su, i, stop)
    else exists i: nat :: FinishStopsAt(su, i, stop)
  }

  /** Before the first batch: all parties prepare, or the first that cannot stops the simulation. */
  lemma PrepareStage(su: Setup)
    requires su.c.q > 0 && 2 <= su.N() <= U16_MAX
    ensures var ts := ProceedTurns(su.c, Inits(su));
            && (FirstStop(ts) == None <==> su.AllPrepared())
            && (FirstStop(ts).Some? ==> Explained(su, FirstStop(ts).value) && !AllSucceed(su))
            && (FirstStop(ts) == None ==> Flushed(ts) == Stage1(su) && Outboxes(ts) == Batch1(su))
  {
    hide ProceedTurn, PrepareStep, Closed, Init;
    var ts := ProceedTurns(su.c, Inits(su));
    forall k | 0 <= k < su.N()
      ensures ts[k].stop == None <==> su.IsPrepared(k + 1)
      ensures ts[k].stop.Some? ==> StopsOver(PrepareStep(su.c, su.PrepareOf(k + 1)), ts[k].stop.value)
      ensures ts[k].machine.(queue := []) == At(su, k + 1, map[], map[])
      ensures ts[k].stop == None ==> ts[k].machine.queue == [Packet1(su, k + 1)]
    {
      FirstTurn(su.c, su.PrepareOf(k + 1), su.N());
      if !su.IsPrepared(k + 1) {
        FailureStops(PrepareStep(su.c, su.PrepareOf(k + 1)));
      }
    }
    if FirstStop(ts) == None {
      forall i | su.IsParty(i)
        ensures su.IsPrepared(i)
      {
        assert ts[i - 1].stop == None;
      }
      hide At, Packet1, FirstStop, Setup.IsPrepared;
      OutboxesAre(ts, Batch1(su));
    } else {
      var k: nat :| IsFirst(ts, k) && ts[k].stop == FirstStop(ts);
      hide FirstStop, At, Packet1;
      forall j | 1 <= j < k + 1
        ensures su.IsParty(j) && su.IsPrepared(j)
      {
        assert ts[j - 1].stop == None;
      }
      assert !su.IsPrepared(k + 1) && PrepareStopsAt(su, k + 1, FirstStop(ts).value);
    }
  }

  /** The first batch: all parties sign, or the first that cannot stops the simulation. */
  lemma SignStage(su: Setup)
    requires su.c.q > 0 && 2 <= su.N() <= U16_MAX && su.AllPrepared()
    ensures var ts := FeedTurns(su.c, Stage1(su), Batch1(su));
            && (FirstStop(ts) == None <==> su.AllSigning())
            && (FirstStop(ts).Some? ==> Explained(su, FirstStop(ts).value))
            && (FirstStop(ts) == None ==> Flushed(ts) == Stage2(su) && Outboxes(ts) == Batch2(su))
  {
    hide Feed, At, Packet1, Setup.Signing, Setup.Others1, Closed;
    var ts := FeedTurns(su.c, Stage1(su), Batch1(su));
    forall k | 0 <= k < su.N()
      ensures ts[k].stop == None <==> su.Signing(k + 1).Ok?
      ensures ts[k].stop.Some? ==> StopsOver(su.Signing(k + 1), ts[k].stop.value)
      ensures ts[k].stop == None ==> ts[k].machine.(queue := []) == At(su, k + 1, su.Others1(k + 1), map[])
      ensures ts[k].stop == None ==> ts[k].machine.queue == [Msg(k + 1, None, FromRound2(su.Signing(k + 1).value.1))]
    {
      SignTurn(su, k + 1);
    }
    if FirstStop(ts) == None {
      forall i | su.IsParty(i)
        ensures su.Signing(i).Ok?
      {
        assert ts[i - 1].stop == None;
      }
      hide FirstStop;
      OutboxesAre(ts, Batch2(su));
    } else {
      var k: nat :| IsFirst(ts, k) && ts[k].stop == FirstStop(ts);
      hide FirstStop;
      forall j | 1 <= j < k + 1
        ensures su.IsParty(j) && su.Signing(j).Ok?
      {
        assert ts[j - 1].stop == None;
      }
      assert su.IsParty(k + 1) && !su.Signing(k + 1).Ok? && SignStopsAt(su, k + 1, FirstStop(ts).value);
    }
  }

  lemma SignTurn(su: Setup, i: nat)
    requires su.c.q > 0 && 2 <= su.N() <= U16_MAX && su.AllPrepared() && su.IsParty(i)
    ensures var t := Feed(su.c, At(su, i, map[], map[]), Batch1(su));
            && (t.stop == None <==> su.Signing(i).Ok?)
            && (t.stop.Some? ==> StopsOver(su.Signing(i), t.stop.value))
            && (t.stop == None ==> t.machine.(queue := []) == At(su, i, su.Others1(i), map[]))
            && (t.stop == None ==> t.machine.queue == [Msg(i, None, FromRound2(su.Signing(i).value.1))])
  {
    FeedRound1(su, i, su.N());
    First1Full(su, i, su.N());
    assert Batch1(su)[..su.N()] == Batch1(su);
    if su.Signing(i).IsFailure() {
      FailureStops(su.Signing(i));
    } else {
      NotFullYet<MessageRound2>(i, su.N());
      hide PrepareStep, SignedStep, Feed, Full;
      var t := Feed(su.c, At(su, i, map[], map[]), Batch1(su)).machine;
      assert t.queue == Shift([Packet1(su, i)], t).queue[1..];
      assert t.(queue := []) == Shift([Packet1(su, i)], t).(queue := []);
    }
  }

  /** After the first turns everybody waits in Round1. */
  lemma Stage1Waits(su: Setup)
    requires su.c.q > 0 && 2 <= su.N() <= U16_MAX && su.AllPrepared()
    ensures forall k :: 0 <= k < su.N() ==> Stage1(su)[k].round.InRound1?
  {
    forall k | 0 <= k < su.N()
      ensures Stage1(su)[k].round.InRound1?
    {
      assert su.IsPrepared(k + 1);
      NotFullYet<MessageRound1>(k + 1, su.N());
      hide PrepareStep, SignedStep, Full, Proceed;
    }
  }

  lemma WaitingTurn(su: Setup, i: nat)
    requires su.c.q > 0 && 2 <= su.N() <= U16_MAX && su.AllSigning() && su.IsParty(i)
    ensures var s := At(su, i, su.Others1(i), map[]);
            s.round.InRound2? && s.queue == [] && ProceedTurn(su.c, s) == Turn(s, None)
  {
    assert su.IsPrepared(i);
    assert su.Signing(i).Ok?;
    NotFullYet<MessageRound2>(i, su.N());
    hide PrepareStep, SignedStep, Full, Proceed;
  }

  /** After the first batch nobody wants to proceed, has anything to send, or is finished. */
  lemma WaitingStage(su: Setup)
    requires su.c.q > 0 && 2 <= su.N() <= U16_MAX && su.AllSigning()
    ensures var ts := ProceedTurns(su.c, Stage2(su));
            FirstStop(ts) == None && Flushed(ts) == Stage2(su) && Outboxes(ts) == []
    ensures forall k :: 0 <= k < su.N() ==> Stage2(su)[k].round.InRound2?
  {
    hide At, ProceedTurn, Setup.Others1;
    forall k | 0 <= k < su.N()
      ensures Stage2(su)[k].round.InRound2? && Stage2(su)[k].queue == []
      ensures ProceedTurn(su.c, Stage2(su)[k]) == Turn(Stage2(su)[k], None)
    {
      WaitingTurn(su, k + 1);
    }
    OutboxesEmpty(ProceedTurns(su.c, Stage2(su)));
  }

  /** The second batch: all parties finish, or the first that cannot stops the simulation. */
  lemma FinishStage(su: Setup)
    requires su.c.q > 0 && 2 <= su.N() <= U16_MAX && su.AllSigning()
    ensures var ts := FeedTurns(su.c, Stage2(su), Batch2(su));
            && (FirstStop(ts) == None <==> AllSucceed(su))
            && (FirstStop(ts).Some? ==> Explained(su, FirstStop(ts).value))
            && (FirstStop(ts) == None ==> Outboxes(ts) == [] && AllFinished(su, Flushed(ts)))
  {
    hide Feed, At, Packet1, Setup.Signing, Setup.Others1, Setup.Others2, Closed, Setup.Finishing;
    var ts := FeedTurns(su.c, Stage2(su), Batch2(su));
    forall k | 0 <= k < su.N()
      ensures ts[k].stop == None <==> su.Finishing(k + 1).Ok?
      ensures ts[k].stop.Some? ==> StopsOver(su.Finishing(k + 1), ts[k].stop.value)
      ensures ts[k].stop == None ==>
                ts[k].machine.queue == [] && ts[k].machine.round == Finished(su.Finishing(k + 1).value)
    {
      FinishTurn(su, k + 1);
    }
    if FirstStop(ts) == None {
      forall i | su.IsParty(i)
        ensures su.Finishing(i).Ok?
      {
        assert ts[i - 1].stop == None;
      }
      hide FirstStop;
      OutboxesEmpty(ts);
    } else {
      var k: nat :| IsFirst(ts, k) && ts[k].stop == FirstStop(ts);
      hide FirstStop;
      forall j | 1 <= j < k + 1
        ensures su.IsParty(j) && su.Finishing(j).Ok?
      {
        assert ts[j - 1].stop == None;
      }
      assert su.IsParty(k + 1) && !su.Finishing(k + 1).Ok? && FinishStopsAt(su, k + 1, FirstStop(ts).value);
    }
  }

  /** Everybody has finished, each with its own result of round 2. */
  ghost predicate AllFinished(su: Setup, views: seq<Machine>)
    requires su.c.q > 0 && su.N() <= U16_MAX
  {
    && AllSucceed(su) && |views| == su.N()
    && forall k :: 0 <= k < su.N() ==> views[k].queue == [] && views[k].round == Finished(su.Finishing(k + 1).value)
  }

  /** One output for each party: its result of round 2. */
  ghost predicate AreOutputs(su: Setup, outputs: seq<SignResult>): (b: bool)
    requires su.c.q > 0 && su.N() <= U16_MAX
    ensures b ==> AllSucceed(su)
  {
    && AllSucceed(su) && |outputs| == su.N()
    && forall k :: 0 <= k < su.N() ==> su.Finishing(k + 1) == Ok(outputs[k])
  }

  lemma FinishedOutputs(su: Setup, views: seq<Machine>, outputs: seq<SignResult>)
    requires su.c.q > 0 && su.N() <= U16_MAX && AllFinished(su, views) && |outputs| == su.N()
    requires forall k :: 0 <= k < su.N() ==> views[k].round == Finished(outputs[k])
    ensures AreOutputs(su, outputs)
  {
    hide Setup.Finishing;
    forall k | 0 <= k < su.N()
      ensures su.Finishing(k + 1) == Ok(outputs[k])
    {
      assert su.Finishing(k + 1).Ok?;
      assert views[k].round == Finished(outputs[k]);
    }
  }

  lemma FinishTurn(su: Setup, i: nat)
    requires su.c.q > 0 && 2 <= su.N() <= U16_MAX && su.AllSigning() && su.IsParty(i)
    ensures var t := Feed(su.c, At(su, i, su.Others1(i), map[]), Batch2(su));
            && (t.stop == None <==> su.Finishing(i).Ok?)
            && (t.stop.Some? ==> StopsOver(su.Finishing(i), t.stop.value))
            && (t.stop == None ==> t.machine.queue == [] && t.machine.round == Finished(su.Finishing(i).value))
  {
    FeedRound2(su, i, su.N());
    First2Full(su, i, su.N());
    assert Batch2(su)[..su.N()] == Batch2(su);
    assert su.IsPrepared(i);
    assert su.Signing(i).Ok?;
    if su.Finishing(i).IsFailure() {
      FailureStops(su.Finishing(i));
    } else {
      hide PrepareStep, SignedStep, Feed, FinishedStep, Full;
      var t := Feed(su.c, At(su, i, su.Others1(i), map[]), Batch2(su)).machine;
      assert t.queue == Shift(BothPackets(su, i), t).queue[2..];
      assert t.round == Shift(BothPackets(su, i), t).round;
    }
  }

  /** Finished parties have nothing left to do. */
  lemma FinishedStage(su: Setup, views: seq<Machine>)
    requires su.c.q > 0 && su.N() <= U16_MAX && AllWellFormed(views) && AllFinished(su, views)
    ensures var ts := ProceedTurns(su.c, views);
            FirstStop(ts) == None && Flushed(ts) == views && Outboxes(ts) == []
  {
    hide Proceed, Setup.Finishing;
    OutboxesEmpty(ProceedTurns(su.c, views));
  }

  /** A party's output of an honest simulation is the joint result, and it verifies. */
  lemma SimulationOutput(su: Setup, i: nat)
    requires su.Honest() && su.c.q > 0 && 1 <= su.N() <= U16_MAX && su.IsParty(i) && AllSucceed(su)
    ensures AllConsistent(su.c, su.States()) && JointParams(su.c, su.States(), su.message).Ok?
    ensures su.Finishing(i) == Ok(JointResult(su)) && ResultVerifies(su, JointResult(su))
  {
    assert su.Finishing(i).Ok?;
    HonestFinishing(su, i);
  }

  /** The simulation and every asynchronous schedule give a party the same result. */
  lemma SimulationAgreesWithNetwork(su: Setup, actions: seq<Action>, i: nat)
    requires su.Honest() && su.c.q > 0 && 1 <= su.N() <= U16_MAX && su.IsParty(i) && AllSucceed(su)
    requires Execute(su, actions).parties[i - 1].machine.round.Finished?
    ensures Execute(su, actions).parties[i - 1].machine.round == Finished(su.Finishing(i).value)
  {
    SimulationOutput(su, i);
    FinishedPartiesAgree(su, actions, i);
  }
}
