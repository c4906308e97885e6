/**
 n honest parties and the broadcasts in flight between them. A schedule is any interleaving of
 calls, deliveries of single copies in any order, and flushes of an outbox to the network.
 */
module Network {
  import opened Wrappers
  import opened Arith
  import opened Curves
  import opened Musig2
  import opened SignatureTheory
  import opened SignatureCorrectness
  import opened Broadcast
  import opened Rounds
  import opened Machine
  import opened MachineRuns
  import opened HonestRounds

  /** A copy of a broadcast that has not reached its receiver yet. */
  datatype Copy = Copy(to: nat, packet: Packet)

  /** Party i is parties[i-1]. */
  datatype System = System(parties: seq<RunState>, net: multiset<Copy>)

  datatype Action = Action(party: nat, event: Event)

  /** One copy of each packet for every party up to `to` other than the sender. */
  function CopiesTo(sender: nat, to: nat, packet: Packet): multiset<Copy> {
    if to == 0 then multiset{}
    else CopiesTo(sender, to - 1, packet) + if to == sender then multiset{} else multiset{Copy(to, packet)}
  }

  function Copies(sender: nat, n: nat, queue: seq<Packet>): multiset<Copy> {
    if queue == [] then multiset{}
    else Copies(sender, n, queue[..|queue| - 1]) + CopiesTo(sender, n, queue[|queue| - 1])
  }

  /** Only what is in flight to a party can be delivered to it. */
  predicate Enabled(su: Setup, y: System, a: Action) {
    su.IsParty(a.party) && (a.event.Deliver? ==> Copy(a.party, a.event.msg) in y.net)
  }

  ghost predicate WellFormed(su: Setup, y: System) {
    |y.parties| == su.N() && forall i :: 0 <= i < su.N() ==> y.parties[i].machine.WellFormed()
  }

  ghost function Step(su: Setup, y: System, a: Action): (r: System)
    requires su.c.q > 0 && WellFormed(su, y) && Enabled(su, y, a)
    ensures WellFormed(su, r)
  {
    var st := y.parties[a.party - 1];
    var net := match a.event
      case Call => y.net
      case Deliver(msg) => y.net - multiset{Copy(a.party, msg)}
      case Drain => y.net + Copies(a.party, su.N(), st.machine.queue);
    StepWellFormed(su.c, st, a.event);
    System(y.parties[a.party - 1 := RunStep(su.c, st, a.event)], net)
  }

  ghost function Start(su: Setup): (y: System)
    requires 1 <= su.N() <= U16_MAX
    ensures WellFormed(su, y)
  {
    System(seq(su.N(), k requires 0 <= k < su.N() => RunState(Init(su.PrepareOf(k + 1), su.N()), [])), multiset{})
  }

  /** Where a schedule leads. An action that is not possible when its turn comes is skipped. */
  ghost function Execute(su: Setup, actions: seq<Action>): (y: System)
    requires su.c.q > 0 && 1 <= su.N() <= U16_MAX
    ensures WellFormed(su, y)
  {
    if actions == [] then Start(su)
    else
      var before, last := Execute(su, actions[..|actions| - 1]), actions[|actions| - 1];
      if Enabled(su, before, last) then Step(su, before, last) else before
  }

  lemma ExecuteSnoc(su: Setup, actions: seq<Action>, a: Action)
    requires su.c.q > 0 && 1 <= su.N() <= U16_MAX
    ensures var before := Execute(su, actions);
            Execute(su, actions + [a]) == if Enabled(su, before, a) then Step(su, before, a) else before
  {
    assert (actions + [a])[..|actions + [a]| - 1] == actions;
  }

  /** What happened to party i. */
  ghost function LogOf(su: Setup, actions: seq<Action>, i: nat): seq<Event>
    requires su.c.q > 0 && 1 <= su.N() <= U16_MAX
  {
    if actions == [] then []
    else
      var prefix, last := actions[..|actions| - 1], actions[|actions| - 1];
      LogOf(su, prefix, i) + if last.party == i && Enabled(su, Execute(su, prefix), last) then [last.event] else []
  }

  // ---- every party's state is a run of its own machine ----

  lemma {:induction false} PartyRuns(su: Setup, actions: seq<Action>, i: nat)
    requires su.c.q > 0 && 1 <= su.N() <= U16_MAX && su.IsParty(i)
    ensures Execute(su, actions).parties[i - 1] == Run(su.c, su.PrepareOf(i), su.N(), LogOf(su, actions, i))
  {
    hide RunStep, Init;
    if actions == [] {
    } else {
      var prefix, last := actions[..|actions| - 1], actions[|actions| - 1];
      PartyRuns(su, prefix, i);
      if last.party == i && Enabled(su, Execute(su, prefix), last) {
        RunSnoc(su.c, su.PrepareOf(i), su.N(), LogOf(su, prefix, i), last.event);
      } else {
        assert LogOf(su, actions, i) == LogOf(su, prefix, i);
      }
    }
  }

  // ---- conservation of copies ----

  lemma {:induction false} CopiesToCount(sender: nat, to: nat, packet: Packet, copy: Copy)
    ensures CopiesTo(sender, to, packet)[copy] ==
            if copy.packet == packet && IsOther(sender, to, copy.to) then 1 else 0
  {
    if to == 0 {
    } else {
      CopiesToCount(sender, to - 1, packet, copy);
    }
  }

  lemma CountSnoc<T>(s: seq<T>, x: T, y: T)
    ensures multiset(s + [x])[y] == multiset(s)[y] + if x == y then 1 else 0
  {
  }

  lemma {:induction false} CopiesCount(sender: nat, n: nat, queue: seq<Packet>, copy: Copy)
    ensures Copies(sender, n, queue)[copy] ==
            if IsOther(sender, n, copy.to) then multiset(queue)[copy.packet] else 0
  {
    if queue == [] {
    } else {
      var before, last := queue[..|queue| - 1], queue[|queue| - 1];
      CopiesCount(sender, n, before, copy);
      CopiesToCount(sender, n, last, copy);
      hide CopiesTo;
      assert Copies(sender, n, queue) == Copies(sender, n, before) + CopiesTo(sender, n, last);
      hide Copies, IsOther;
      CountSnoc(before, last, copy.packet);
      assert queue == before + [last];
    }
  }

  /** Everything a machine emits carries its own index and no receiver. */
  lemma EmittedIsOwn(c: Curve, p: Prepare, n: nat, es: seq<Event>, m: Packet)
    requires c.q > 0 && ValidIndex(p.myInd, n)
    requires m in Run(c, p, n, es).drained || m in Run(c, p, n, es).machine.queue
    ensures m.sender == p.myInd && m.receiver.None?
  {
    OutboxDiscipline(c, p, n, es);
    hide Run, PrepareStep, SignedStep;
    var st := Run(c, p, n, es);
    var out := st.drained + st.machine.queue;
    assert m in out;
  }

  /** How many copies of m were flushed towards party i. */
  function Flushed(su: Setup, y: System, i: nat, m: Packet): nat
    requires |y.parties| == su.N()
  {
    if IsOther(i, su.N(), m.sender) then multiset(y.parties[m.sender - 1].drained)[m] else 0
  }

  /** One step keeps the balance between flushed, delivered and in-flight copies. */
  lemma StepBalance(su: Setup, y: System, a: Action, i: nat, m: Packet)
    requires su.c.q > 0 && WellFormed(su, y) && Enabled(su, y, a) && su.IsParty(i)
    requires forall x :: x in y.parties[a.party - 1].machine.queue ==> x.sender == a.party
    ensures var y' := Step(su, y, a);
            y'.net[Copy(i, m)] + (if a == Action(i, Deliver(m)) then 1 else 0) + Flushed(su, y, i, m) ==
            y.net[Copy(i, m)] + Flushed(su, y', i, m)
  {
    hide Proceed, Handle, Copies;
    var st := y.parties[a.party - 1];
    match a.event {
      case Call =>
      case Deliver(msg) =>
      case Drain =>
        CopiesCount(a.party, su.N(), st.machine.queue, Copy(i, m));
        DrainCount(st, m);
        if m.sender != a.party {
          assert m !in st.machine.queue;
        }
    }
  }

  lemma DrainCount(st: RunState, m: Packet)
    ensures multiset(st.drained + st.machine.queue)[m] == multiset(st.drained)[m] + multiset(st.machine.queue)[m]
  {
  }

  /** Copies are conserved: in flight plus delivered equals flushed, receiver by receiver. */
  lemma {:induction false} CopiesConserved(su: Setup, actions: seq<Action>, i: nat, m: Packet)
    requires su.c.q > 0 && 1 <= su.N() <= U16_MAX && su.IsParty(i)
    ensures Execute(su, actions).net[Copy(i, m)] + multiset(Delivered(LogOf(su, actions, i)))[m] ==
            Flushed(su, Execute(su, actions), i, m)
  {
    if actions == [] {
    } else {
      var prefix, last := actions[..|actions| - 1], actions[|actions| - 1];
      assert actions == prefix + [last];
      CopiesConserved(su, prefix, i, m);
      LogSnoc(su, prefix, last, i);
      ExecuteSnoc(su, prefix, last);
      hide Execute, LogOf, Step, Flushed, Delivered;
      var before := Execute(su, prefix);
      if Enabled(su, before, last) {
        QueueIsOwn(su, prefix, last.party);
        StepBalance(su, before, last, i, m);
        DeliveredSnoc(LogOf(su, prefix, i), last.event);
      }
    }
  }

  lemma QueueIsOwn(su: Setup, actions: seq<Action>, k: nat)
    requires su.c.q > 0 && 1 <= su.N() <= U16_MAX && su.IsParty(k)
    ensures forall x :: x in Execute(su, actions).parties[k - 1].machine.queue ==> x.sender == k && x.receiver.None?
    ensures forall x :: x in Execute(su, actions).parties[k - 1].drained ==> x.sender == k && x.receiver.None?
  {
    PartyRuns(su, actions, k);
    hide Execute, LogOf, Run;
    forall x | x in Execute(su, actions).parties[k - 1].machine.queue ||
               x in Execute(su, actions).parties[k - 1].drained
      ensures x.sender == k && x.receiver.None?
    {
      EmittedIsOwn(su.c, su.PrepareOf(k), su.N(), LogOf(su, actions, k), x);
    }
  }

  lemma LogSnoc(su: Setup, actions: seq<Action>, a: Action, i: nat)
    requires su.c.q > 0 && 1 <= su.N() <= U16_MAX
    ensures LogOf(su, actions + [a], i) ==
            if a.party == i && Enabled(su, Execute(su, actions), a) then LogOf(su, actions, i) + [a.event]
            else LogOf(su, actions, i)
  {
    assert (actions + [a])[..|actions + [a]| - 1] == actions;
    assert LogOf(su, actions, i) + [] == LogOf(su, actions, i);
  }

  // ---- what has been received is what honest parties sent ----

  ghost function Received(su: Setup, actions: seq<Action>, i: nat): seq<Packet>
    requires su.c.q > 0 && 1 <= su.N() <= U16_MAX
  {
    Delivered(LogOf(su, actions, i))
  }

  ghost function Got1(su: Setup, actions: seq<Action>, i: nat): Store1
    requires su.c.q > 0 && 1 <= su.N() <= U16_MAX
  {
    AcceptAll1(i, su.N(), Received(su, actions, i))
  }

  ghost function Got2(su: Setup, actions: seq<Action>, i: nat): Store2
    requires su.c.q > 0 && 1 <= su.N() <= U16_MAX
  {
    AcceptAll2(i, su.N(), Received(su, actions, i))
  }

  /** Everything party k ever emitted, flushed or not. */
  ghost function Output(su: Setup, actions: seq<Action>, k: nat): seq<Packet>
    requires su.c.q > 0 && 1 <= su.N() <= U16_MAX && su.IsParty(k)
  {
    var st := Execute(su, actions).parties[k - 1];
    st.drained + st.machine.queue
  }

  lemma OutputShape(su: Setup, actions: seq<Action>, k: nat)
    requires su.c.q > 0 && 1 <= su.N() <= U16_MAX && su.IsParty(k)
    ensures IsOutbox(su.c, su.PrepareOf(k), su.N(), Got1(su, actions, k), Output(su, actions, k))
  {
    hide Execute, LogOf, Run, IsOutbox;
    PartyRuns(su, actions, k);
    OutboxDiscipline(su.c, su.PrepareOf(k), su.N(), LogOf(su, actions, k));
  }

  /** The message m is the round 1 broadcast of party k. */
  ghost predicate IsBroadcast1(su: Setup, k: nat, m: Packet) {
    su.IsParty(k) && su.IsPrepared(k) && m == Msg(k, None, FromRound1(su.Message1(k)))
  }

  /** The message m is the round 2 broadcast party k makes once it holds `got`. */
  ghost predicate IsBroadcast2(su: Setup, k: nat, got: Store1, m: Packet)
    requires su.c.q > 0 && 1 <= su.N() <= U16_MAX
  {
    && su.IsParty(k) && su.IsPrepared(k) && Full(k, su.N(), got)
    && var r1 := PrepareStep(su.c, su.PrepareOf(k)).value.0;
       && SignedStep(su.c, r1, k, su.N(), got).Ok?
       && m == Msg(k, None, FromRound2(SignedStep(su.c, r1, k, su.N(), got).value.1))
  }

  lemma OutputMembers(su: Setup, actions: seq<Action>, k: nat, m: Packet)
    requires su.c.q > 0 && 1 <= su.N() <= U16_MAX && su.IsParty(k)
    ensures m in Output(su, actions, k) ==>
              IsBroadcast1(su, k, m) || IsBroadcast2(su, k, Got1(su, actions, k), m)
    ensures multiset(Output(su, actions, k))[m] <= 1
  {
    OutputShape(su, actions, k);
    hide Execute, LogOf, PrepareStep, SignedStep, Output, Got1;
    var out := Output(su, actions, k);
    if |out| == 2 {
      assert out == [out[0], out[1]];
    } else if |out| == 1 {
      assert out == [out[0]];
    }
  }

  /** A message delivered to i was flushed by its sender, another party. */
  lemma ReceivedWasSent(su: Setup, actions: seq<Action>, i: nat, m: Packet)
    requires su.c.q > 0 && 1 <= su.N() <= U16_MAX && su.IsParty(i)
    requires m in Received(su, actions, i)
    ensures IsOther(i, su.N(), m.sender) && m.receiver.None?
    ensures m in Execute(su, actions).parties[m.sender - 1].drained && m in Output(su, actions, m.sender)
    ensures multiset(Received(su, actions, i))[m] == 1
  {
    hide Execute, LogOf, Delivered, IsBroadcast1, IsBroadcast2, Got1;
    CopiesConserved(su, actions, i, m);
    assert m in multiset(Received(su, actions, i));
    var st := Execute(su, actions).parties[m.sender - 1];
    assert m in multiset(st.drained);
    QueueIsOwn(su, actions, m.sender);
    OutputMembers(su, actions, m.sender, m);
    DrainCount(st, m);
  }

  lemma CountTwice<T>(s: seq<T>, i: nat, j: nat)
    requires i < j < |s| && s[i] == s[j]
    ensures multiset(s)[s[i]] >= 2
  {
    assert s == s[..i] + [s[i]] + s[i + 1..j] + [s[j]] + s[j + 1..];
  }

  /** What a party receives is a valid batch: nothing is duplicated, forged or self-addressed. */
  lemma ReceivedIsBatch(su: Setup, actions: seq<Action>, i: nat)
    requires su.c.q > 0 && 1 <= su.N() <= U16_MAX && su.IsParty(i)
    ensures ValidBatch(i, su.N(), Received(su, actions, i))
  {
    hide Execute, LogOf, Received, Output, Got1, SignedStep, PrepareStep;
    var ms := Received(su, actions, i);
    forall k | 0 <= k < |ms|
      ensures ms[k].receiver.None? && IsOther(i, su.N(), ms[k].sender)
    {
      ReceivedWasSent(su, actions, i, ms[k]);
    }
    forall j, k | 0 <= j < k < |ms|
      ensures !SameSlot(ms[j], ms[k])
    {
      ReceivedWasSent(su, actions, i, ms[j]);
      ReceivedWasSent(su, actions, i, ms[k]);
      if SameSlot(ms[j], ms[k]) {
        OutputMembers(su, actions, ms[j].sender, ms[j]);
        OutputMembers(su, actions, ms[j].sender, ms[k]);
        CountTwice(ms, j, k);
      }
    }
  }

  lemma Got1IsSent(su: Setup, actions: seq<Action>, i: nat, k: nat)
    requires su.c.q > 0 && 1 <= su.N() <= U16_MAX && su.IsParty(i) && k in Got1(su, actions, i)
    ensures IsOther(i, su.N(), k) && su.IsPrepared(k) && Got1(su, actions, i)[k] == su.Message1(k)
  {
    var b := Got1(su, actions, i)[k];
    ReceivedIsBatch(su, actions, i);
    hide Execute, LogOf, Received, Output, SignedStep, PrepareStep;
    assert Holds(Got1(su, actions, i), k, b);
    BatchAccepted1(i, su.N(), Received(su, actions, i), k, b);
    ReceivedWasSent(su, actions, i, Msg(k, None, FromRound1(b)));
    OutputMembers(su, actions, k, Msg(k, None, FromRound1(b)));
  }

  lemma Got2IsSent(su: Setup, actions: seq<Action>, i: nat, k: nat)
    requires su.c.q > 0 && 1 <= su.N() <= U16_MAX && su.IsParty(i) && k in Got2(su, actions, i)
    ensures IsOther(i, su.N(), k)
    ensures IsBroadcast2(su, k, Got1(su, actions, k), Msg(k, None, FromRound2(Got2(su, actions, i)[k])))
  {
    var b := Got2(su, actions, i)[k];
    ReceivedIsBatch(su, actions, i);
    hide Execute, LogOf, Received, Output, SignedStep, PrepareStep;
    assert Holds(Got2(su, actions, i), k, b);
    BatchAccepted2(i, su.N(), Received(su, actions, i), k, b);
    ReceivedWasSent(su, actions, i, Msg(k, None, FromRound2(b)));
    OutputMembers(su, actions, k, Msg(k, None, FromRound2(b)));
  }

  /** A party with all round 1 messages holds exactly what the others broadcast. */
  lemma FullGot1(su: Setup, actions: seq<Action>, i: nat)
    requires su.c.q > 0 && 1 <= su.N() <= U16_MAX && su.IsParty(i) && su.IsPrepared(i)
    requires Full(i, su.N(), Got1(su, actions, i))
    ensures su.AllPrepared() && Got1(su, actions, i) == su.Others1(i)
  {
    hide Got1, PrepareStep, Setup.Message1;
    var got := Got1(su, actions, i);
    forall k | su.IsParty(k)
      ensures su.IsPrepared(k)
    {
      if k != i {
        Got1IsSent(su, actions, i, k);
      }
    }
    forall k: nat | k in got
      ensures k in su.Others1(i) && got[k] == su.Others1(i)[k]
    {
      Got1IsSent(su, actions, i, k);
    }
    assert got == su.Others1(i);
  }

  /** A party that could broadcast in round 2 did so on the honest messages. */
  lemma Broadcast2IsHonest(su: Setup, actions: seq<Action>, k: nat, m: Packet)
    requires su.c.q > 0 && 1 <= su.N() <= U16_MAX && su.IsParty(k)
    requires IsBroadcast2(su, k, Got1(su, actions, k), m)
    ensures su.AllPrepared() && su.Signing(k).Ok? && m == Msg(k, None, FromRound2(su.Signing(k).value.1))
  {
    FullGot1(su, actions, k);
  }

  /** A party with all round 2 messages holds exactly what the others broadcast. */
  lemma FullGot2(su: Setup, actions: seq<Action>, i: nat)
    requires su.c.q > 0 && 1 <= su.N() <= U16_MAX && su.IsParty(i)
    requires su.AllPrepared() && su.Signing(i).Ok?
    requires Full(i, su.N(), Got2(su, actions, i))
    ensures su.AllSigning() && Got2(su, actions, i) == su.Others2(i)
  {
    hide Got1, Got2, PrepareStep, Setup.Signing, SignedStep;
    var got := Got2(su, actions, i);
    forall k | k in got
      ensures IsOther(i, su.N(), k) && su.Signing(k).Ok? && got[k] == su.Signing(k).value.1
    {
      Got2IsSent(su, actions, i, k);
      Broadcast2IsHonest(su, actions, k, Msg(k, None, FromRound2(got[k])));
    }
    assert su.AllSigning();
    assert got == su.Others2(i);
  }

  /** The shape of a party's machine at any point of any schedule. */
  lemma PartyShape(su: Setup, actions: seq<Action>, i: nat)
    requires su.c.q > 0 && 1 <= su.N() <= U16_MAX && su.IsParty(i)
    ensures var st := Execute(su, actions).parties[i - 1];
            Shift(st.drained, st.machine) ==
            NormalForm(su.c, su.PrepareOf(i), su.N(), Started(i, su.N(), LogOf(su, actions, i)),
                       Got1(su, actions, i), Got2(su, actions, i))
  {
    hide Execute, LogOf, Run, NormalForm, AcceptAll1, AcceptAll2, Started, Delivered;
    PartyRuns(su, actions, i);
    RunHasNormalForm(su.c, su.PrepareOf(i), su.N(), LogOf(su, actions, i));
  }

  lemma FinishedShape(c: Curve, p: Prepare, n: nat, started: bool, m1: Store1, m2: Store2, result: SignResult)
    requires c.q > 0 && ValidIndex(p.myInd, n)
    requires NormalForm(c, p, n, started, m1, m2).round == Finished(result)
    ensures PrepareStep(c, p).Ok? && Full(p.myInd, n, m1) && Full(p.myInd, n, m2)
    ensures var signed := SignedStep(c, PrepareStep(c, p).value.0, p.myInd, n, m1);
            signed.Ok? && FinishedStep(c, signed.value.0, p.myInd, n, m2) == Ok(result)
  {
    hide SignedStep, FinishedStep;
  }

  /**
   Safety, over every schedule of any number of honest parties: every party that has finished holds
   the one joint result, a function of the keys and the message alone, and it verifies under the
   aggregate key. No computation is assumed to succeed.
   */
  lemma FinishedPartiesAgree(su: Setup, actions: seq<Action>, i: nat)
    requires su.Honest() && su.c.q > 0 && 1 <= su.N() <= U16_MAX && su.IsParty(i)
    requires Execute(su, actions).parties[i - 1].machine.round.Finished?
    ensures su.AllSigning() && AllConsistent(su.c, su.States()) && JointParams(su.c, su.States(), su.message).Ok?
    ensures Execute(su, actions).parties[i - 1].machine.round == Finished(JointResult(su))
    ensures ResultVerifies(su, JointResult(su))
  {
    hide Setup.Honest, Execute, LogOf, NormalForm, Got1, Got2, PrepareStep, SignedStep, FinishedStep, Started,
         AllConsistent, ResultVerifies, JointParams;
    var st := Execute(su, actions).parties[i - 1];
    PartyShape(su, actions, i);
    FinishedShape(su.c, su.PrepareOf(i), su.N(), Started(i, su.N(), LogOf(su, actions, i)), Got1(su, actions, i),
                  Got2(su, actions, i), st.machine.round.result);
    FullGot1(su, actions, i);
    assert su.IsPrepared(i);
    assert su.Signing(i).Ok?;
    FullGot2(su, actions, i);
    HonestFinishing(su, i);
  }

  /** Any two finished parties hold the same result. */
  lemma Agreement(su: Setup, actions: seq<Action>, i: nat, j: nat)
    requires su.Honest() && su.c.q > 0 && 1 <= su.N() <= U16_MAX && su.IsParty(i) && su.IsParty(j)
    requires Execute(su, actions).parties[i - 1].machine.round.Finished?
    requires Execute(su, actions).parties[j - 1].machine.round.Finished?
    ensures Execute(su, actions).parties[i - 1].machine.round == Execute(su, actions).parties[j - 1].machine.round
  {
    FinishedPartiesAgree(su, actions, i);
    FinishedPartiesAgree(su, actions, j);
  }
}
