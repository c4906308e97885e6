/** Schedules cannot go on usefully for ever, cannot get stuck early, and end with everybody done. */
module Liveness {
  import opened Wrappers
  import opened Arith
  import opened Curves
  import opened Musig2
  import opened SignatureTheory
  import opened SignatureCorrectness
  import opened Broadcast
  import opened Rounds
  import opened Machine
  import opened MachineRuns
  import opened HonestRounds
  import opened Network

  // ---- sizes of stores and batches ----

  function OthersUpTo(me: nat, n: nat): set<nat> {
    set k: nat | 1 <= k <= n && IsOther(me, n, k)
  }

  lemma {:induction false} OthersSize(me: nat, n: nat)
    requires me >= 1
    ensures |OthersUpTo(me, n)| == if me <= n then n - 1 else n
  {
    if n == 0 {
      assert OthersUpTo(me, n) == {};
    } else {
      OthersSize(me, n - 1);
      if n == me {
        assert OthersUpTo(me, n) == OthersUpTo(me, n - 1);
      } else {
        assert OthersUpTo(me, n) == OthersUpTo(me, n - 1) + {n};
      }
    }
  }

  lemma SubsetSize<T>(a: set<T>, b: set<T>)
    requires a <= b
    ensures |a| <= |b|
  {
    assert b == a + (b - a);
  }

  lemma StoreSize<B>(me: nat, n: nat, m: map<nat, B>)
    requires ValidIndex(me, n) && WellKeyed(me, n, m)
    ensures |m| <= n - 1
    ensures Full(me, n, m) ==> |m| == n - 1
  {
    OthersSize(me, n);
    assert m.Keys <= OthersUpTo(me, n);
    SubsetSize(m.Keys, OthersUpTo(me, n));
    if Full(me, n, m) {
      assert m.Keys == OthersUpTo(me, n);
    }
  }

  lemma {:induction false} BatchSize(me: nat, n: nat, msgs: seq<Packet>)
    requires ValidBatch(me, n, msgs)
    ensures |msgs| == |AcceptAll1(me, n, msgs)| + |AcceptAll2(me, n, msgs)|
  {
    if msgs == [] {
    } else {
      var before, last := msgs[..|msgs| - 1], msgs[|msgs| - 1];
      BatchSize(me, n, before);
      assert msgs == before + [last];
      if last.body.FromRound1? {
        var old1 := AcceptAll1(me, n, before);
        if last.sender in old1 {
          BatchAccepted1(me, n, before, last.sender, old1[last.sender]);
        }
        assert AcceptAll1(me, n, msgs) == old1[last.sender := last.body.m1];
      } else {
        var old2 := AcceptAll2(me, n, before);
        if last.sender in old2 {
          BatchAccepted2(me, n, before, last.sender, old2[last.sender]);
        }
        assert AcceptAll2(me, n, msgs) == old2[last.sender := last.body.m2];
      }
    }
  }

  /** A party receives at most one message of each round from each other party. */
  lemma ReceivedBound(su: Setup, actions: seq<Action>, i: nat)
    requires su.c.q > 0 && 1 <= su.N() <= U16_MAX && su.IsParty(i)
    ensures |Received(su, actions, i)| <= 2 * (su.N() - 1)
    ensures Full(i, su.N(), Got1(su, actions, i)) && Full(i, su.N(), Got2(su, actions, i)) ==>
              |Received(su, actions, i)| == 2 * (su.N() - 1)
  {
    var ms := Received(su, actions, i);
    ReceivedIsBatch(su, actions, i);
    BatchSize(i, su.N(), ms);
    AcceptAllWellKeyed(i, su.N(), ms);
    StoreSize(i, su.N(), AcceptAll1(i, su.N(), ms));
    StoreSize(i, su.N(), AcceptAll2(i, su.N(), ms));
  }

  // ---- the measure ----

  /** An action that makes progress: a first call, a delivery, or a flush of something. */
  predicate Useful(su: Setup, y: System, a: Action)
    requires |y.parties| == su.N()
  {
    && Enabled(su, y, a)
    && match a.event
       case Call => y.parties[a.party - 1].machine.round.InPrepare?
       case Deliver(_) => true
       case Drain => y.parties[a.party - 1].machine.queue != []
  }

  /** What one party still has to receive, to flush, and to start. */
  ghost function PartyWork(su: Setup, actions: seq<Action>, i: nat): (w: int)
    requires su.c.q > 0 && 1 <= su.N() <= U16_MAX && su.IsParty(i)
    ensures w >= 0
  {
    var st := Execute(su, actions).parties[i - 1];
    ReceivedBound(su, actions, i);
    OutputLength(su, actions, i);
    2 * (su.N() - 1) - |Received(su, actions, i)| + 2 - |st.drained| + if st.machine.round.InPrepare? then 1 else 0
  }

  lemma OutputLength(su: Setup, actions: seq<Action>, k: nat)
    requires su.c.q > 0 && 1 <= su.N() <= U16_MAX && su.IsParty(k)
    ensures |Execute(su, actions).parties[k - 1].drained| + |Execute(su, actions).parties[k - 1].machine.queue| <= 2
  {
    OutputShape(su, actions, k);
    hide Execute, LogOf, PrepareStep, SignedStep, Got1;
    assert |Output(su, actions, k)| <= 2;
  }

  ghost function Work(su: Setup, actions: seq<Action>, upTo: nat): (w: int)
    requires su.c.q > 0 && 1 <= su.N() <= U16_MAX && upTo <= su.N()
    ensures w >= 0
  {
    if upTo == 0 then 0 else Work(su, actions, upTo - 1) + PartyWork(su, actions, upTo)
  }

  lemma {:induction false} LeavesPrepare(c: Curve, s: Machine)
    requires c.q > 0 && s.WellFormed()
    ensures !Proceed(c, s).0.round.InPrepare?
    decreases 3 - s.CurrentRound()
  {
    hide Round1Step, Round2Step;
    match s.round
    case InPrepare(p) =>
      var o := PrepareStep(c, p);
      if o.Ok? {
        LeavesPrepare(c, s.(round := InRound1(o.value.0)).Broadcasting(FromRound1(o.value.1)));
      }
    case InRound1(r) =>
      if !s.WantsMore1() && s.msgs1.Some? {
        var o := Round1Step(c, r, BroadcastMsgs(s.me, Ascending(s.me, s.n, s.msgs1.value)));
        if o.Ok? {
          LeavesPrepare(c, s.(msgs1 := None, round := InRound2(o.value.0)).Broadcasting(FromRound2(o.value.1)));
        }
      }
    case _ =>
  }

  /** No call or delivery brings a machine back to Prepare. */
  lemma NeverBackToPrepare(c: Curve, st: RunState, ev: Event)
    requires c.q > 0 && st.machine.WellFormed()
    ensures RunStep(c, st, ev).machine.round.InPrepare? ==> st.machine.round.InPrepare?
    ensures ev == Call ==> !RunStep(c, st, ev).machine.round.InPrepare?
    ensures ev != Drain ==> RunStep(c, st, ev).drained == st.drained
  {
    hide Proceed;
    LeavesPrepare(c, st.machine);
    if ev.Deliver? {
      var s, msg := st.machine, ev.msg;
      if msg.body.FromRound1? && s.msgs1.Some? && Push(s.me, s.n, s.msgs1.value, Body1(msg)).Accepted? {
        LeavesPrepare(c, s.(msgs1 := Some(Push(s.me, s.n, s.msgs1.value, Body1(msg)).value)));
      }
      if msg.body.FromRound2? && s.msgs2.Some? && Push(s.me, s.n, s.msgs2.value, Body2(msg)).Accepted? {
        LeavesPrepare(c, s.(msgs2 := Some(Push(s.me, s.n, s.msgs2.value, Body2(msg)).value)));
      }
    }
  }

  lemma UsefulPartyWork(su: Setup, actions: seq<Action>, a: Action, i: nat)
    requires su.c.q > 0 && 1 <= su.N() <= U16_MAX && su.IsParty(i)
    requires Useful(su, Execute(su, actions), a)
    ensures i != a.party ==> PartyWork(su, actions + [a], i) == PartyWork(su, actions, i)
    ensures i == a.party ==> PartyWork(su, actions + [a], i) < PartyWork(su, actions, i)
  {
    hide Execute, LogOf, Delivered, RunStep, Copies, Closed;
    ExecuteSnoc(su, actions, a);
    LogSnoc(su, actions, a, i);
    if i == a.party {
      DeliveredSnoc(LogOf(su, actions, i), a.event);
      UsefulStep(su.c, Execute(su, actions).parties[i - 1], a.event);
    }
  }

  /** What a useful event changes: one more delivery, one message flushed, or Prepare left. */
  lemma UsefulStep(c: Curve, st: RunState, ev: Event)
    requires c.q > 0 && st.machine.WellFormed()
    ensures RunStep(c, st, ev).machine.round.InPrepare? ==> st.machine.round.InPrepare?
    ensures ev == Call ==> !RunStep(c, st, ev).machine.round.InPrepare?
    ensures ev != Drain ==> RunStep(c, st, ev).drained == st.drained
    ensures ev == Drain && st.machine.queue != [] ==> |RunStep(c, st, ev).drained| > |st.drained|
  {
    hide Proceed, Handle;
    NeverBackToPrepare(c, st, ev);
  }

  lemma {:induction false} UsefulWork(su: Setup, actions: seq<Action>, a: Action, upTo: nat)
    requires su.c.q > 0 && 1 <= su.N() <= U16_MAX && upTo <= su.N()
    requires Useful(su, Execute(su, actions), a)
    ensures a.party > upTo ==> Work(su, actions + [a], upTo) == Work(su, actions, upTo)
    ensures a.party <= upTo ==> Work(su, actions + [a], upTo) < Work(su, actions, upTo)
  {
    hide PartyWork, Execute;
    if upTo == 0 {
    } else {
      UsefulWork(su, actions, a, upTo - 1);
      UsefulPartyWork(su, actions, a, upTo);
    }
  }

  ghost predicate AllUseful(su: Setup, actions: seq<Action>)
    requires su.c.q > 0 && 1 <= su.N() <= U16_MAX
  {
    forall k :: 0 <= k < |actions| ==> Useful(su, Execute(su, actions[..k]), actions[k])
  }

  lemma {:induction false} InitialWork(su: Setup, upTo: nat)
    requires su.c.q > 0 && 1 <= su.N() <= U16_MAX && upTo <= su.N()
    ensures Work(su, [], upTo) == upTo * (2 * (su.N() - 1) + 3)
  {
    if upTo == 0 {
    } else {
      InitialWork(su, upTo - 1);
      InitialPartyWork(su, upTo);
      var w := 2 * (su.N() - 1) + 3;
      assert upTo * w == (upTo - 1) * w + w;
    }
  }

  lemma InitialPartyWork(su: Setup, i: nat)
    requires su.c.q > 0 && 1 <= su.N() <= U16_MAX && su.IsParty(i)
    ensures PartyWork(su, [], i) == 2 * (su.N() - 1) + 3
  {
    assert Received(su, [], i) == [];
  }

  /** Termination: a schedule of useful actions has at most 2n(n-1) + 3n of them. */
  lemma UsefulSchedulesAreShort(su: Setup, actions: seq<Action>)
    requires su.c.q > 0 && 1 <= su.N() <= U16_MAX && AllUseful(su, actions)
    ensures |actions| <= su.N() * (2 * (su.N() - 1) + 3)
  {
    WorkBoundsLength(su, actions);
    InitialWork(su, su.N());
  }

  lemma {:induction false} WorkBoundsLength(su: Setup, actions: seq<Action>)
    requires su.c.q > 0 && 1 <= su.N() <= U16_MAX && AllUseful(su, actions)
    ensures |actions| + Work(su, actions, su.N()) <= Work(su, [], su.N())
  {
    hide Work, Execute;
    if actions != [] {
      var prefix, last := actions[..|actions| - 1], actions[|actions| - 1];
      forall k | 0 <= k < |prefix|
        ensures Useful(su, Execute(su, prefix[..k]), prefix[k])
      {
        assert prefix[..k] == actions[..k];
      }
      WorkBoundsLength(su, prefix);
      assert prefix + [last] == actions;
      UsefulWork(su, prefix, last, su.N());
    } else {
      assert actions == [];
    }
  }

  // ---- quiescence ----

  /** Everybody has left Prepare, every outbox is flushed, and no copy is undelivered. */
  ghost predicate Quiescent(su: Setup, y: System)
    requires |y.parties| == su.N()
  {
    && y.net == multiset{}
    && forall i {:trigger y.parties[i - 1]} :: su.IsParty(i) ==>
                                                 && !y.parties[i - 1].machine.round.InPrepare?
                                                 && y.parties[i - 1].machine.queue == []
  }

  /** Only real parties have copies in flight to them. */
  lemma {:induction false} CopiesHaveReceivers(su: Setup, actions: seq<Action>, copy: Copy)
    requires su.c.q > 0 && 1 <= su.N() <= U16_MAX
    ensures copy in Execute(su, actions).net ==> su.IsParty(copy.to)
  {
    if actions == [] {
    } else {
      var prefix, last := actions[..|actions| - 1], actions[|actions| - 1];
      CopiesHaveReceivers(su, prefix, copy);
      ExecuteSnoc(su, prefix, last);
      assert actions == prefix + [last];
      hide Execute, Step;
      if Enabled(su, Execute(su, prefix), last) {
        StepHasReceivers(su, Execute(su, prefix), last, copy);
      }
    }
  }

  lemma StepHasReceivers(su: Setup, y: System, a: Action, copy: Copy)
    requires su.c.q > 0 && Network.WellFormed(su, y) && Enabled(su, y, a)
    requires copy in y.net ==> su.IsParty(copy.to)
    ensures copy in Step(su, y, a).net ==> su.IsParty(copy.to)
  {
    hide Copies, Proceed, Handle;
    if a.event.Drain? {
      CopiesCount(a.party, su.N(), y.parties[a.party - 1].machine.queue, copy);
    }
  }

  /** Deadlock freedom: until everything is quiet, some action makes progress. */
  lemma UsefulUntilQuiescent(su: Setup, actions: seq<Action>) returns (a: Action)
    requires su.c.q > 0 && 1 <= su.N() <= U16_MAX
    ensures !Quiescent(su, Execute(su, actions)) ==> Useful(su, Execute(su, actions), a)
  {
    var y := Execute(su, actions);
    a := Action(1, Call);
    if y.net != multiset{} {
      var copy :| copy in y.net;
      CopiesHaveReceivers(su, actions, copy);
      a := Action(copy.to, Deliver(copy.packet));
    } else if !Quiescent(su, y) {
      hide Execute;
      var i: nat :| su.IsParty(i) &&
                    (y.parties[i - 1].machine.round.InPrepare? || y.parties[i - 1].machine.queue != []);
      a := Action(i, if y.parties[i - 1].machine.round.InPrepare? then Call else Drain);
    }
  }

  /** From wherever a schedule has led, some further actions make everything quiet. */
  lemma QuietIsReachable(su: Setup, actions: seq<Action>) returns (all: seq<Action>)
    requires su.c.q > 0 && 1 <= su.N() <= U16_MAX
    ensures actions <= all && Quiescent(su, Execute(su, all))
    decreases Work(su, actions, su.N())
  {
    hide Work, Execute, Quiescent;
    if Quiescent(su, Execute(su, actions)) {
      all := actions;
    } else {
      var a := UsefulUntilQuiescent(su, actions);
      UsefulParty(su, Execute(su, actions), a);
      UsefulWork(su, actions, a, su.N());
      all := QuietIsReachable(su, actions + [a]);
    }
  }

  lemma UsefulParty(su: Setup, y: System, a: Action)
    requires |y.parties| == su.N() && Useful(su, y, a)
    ensures su.IsParty(a.party)
  {
  }

  /** What a party that has left Prepare has output, all told. */
  lemma StartedOutput(su: Setup, actions: seq<Action>, i: nat)
    requires su.c.q > 0 && 1 <= su.N() <= U16_MAX && su.IsParty(i)
    requires !Execute(su, actions).parties[i - 1].machine.round.InPrepare?
    ensures var st := Execute(su, actions).parties[i - 1];
            var closed := Closed(su.c, su.PrepareOf(i), su.N(), Got1(su, actions, i), Got2(su, actions, i));
            Shift(st.drained, st.machine) == closed && Network.Output(su, actions, i) == closed.queue
  {
    PartyShape(su, actions, i);
    hide Execute, Closed, Got1, Got2, Started, LogOf;
    var st := Execute(su, actions).parties[i - 1];
    assert Shift(st.drained, st.machine).round == st.machine.round;
  }

  /** At quiescence, whatever party k output has reached party i. */
  lemma QuietDelivers(su: Setup, actions: seq<Action>, k: nat, i: nat, m: Packet)
    requires su.c.q > 0 && 1 <= su.N() <= U16_MAX && su.IsParty(k) && su.IsParty(i) && i != k
    requires Quiescent(su, Execute(su, actions)) && m in Network.Output(su, actions, k)
    ensures m in Received(su, actions, i) && m.sender == k && m.receiver.None?
  {
    hide Execute, LogOf, Delivered;
    QueueIsOwn(su, actions, k);
    CopiesConserved(su, actions, i, m);
    var st := Execute(su, actions).parties[k - 1];
    assert st.machine.queue == [];
    assert m in st.drained;
    assert m in multiset(st.drained);
    assert Execute(su, actions).net[Copy(i, m)] == 0;
    assert m in multiset(Received(su, actions, i));
  }

  /** At quiescence everybody has everybody's round 1 message. */
  lemma QuietFull1(su: Setup, actions: seq<Action>, i: nat)
    requires su.c.q > 0 && 1 <= su.N() <= U16_MAX && su.IsParty(i) && su.AllPrepared()
    requires Quiescent(su, Execute(su, actions))
    ensures Full(i, su.N(), Got1(su, actions, i)) && Got1(su, actions, i) == su.Others1(i)
  {
    forall k | 1 <= k <= su.N() && k != i
      ensures k in Got1(su, actions, i)
    {
      assert su.IsParty(k);
      assert su.IsPrepared(k);
      var b := su.Message1(k);
      StartedOutput(su, actions, k);
      ClosedOutputs(su.c, su.PrepareOf(k), su.N(), Got1(su, actions, k), Got2(su, actions, k));
      hide Execute, LogOf, PrepareStep, SignedStep, Network.Output, Closed, Received;
      QuietDelivers(su, actions, k, i, Msg(k, None, FromRound1(b)));
      ReceivedIsBatch(su, actions, i);
      BatchAccepted1(i, su.N(), Received(su, actions, i), k, b);
    }
    assert su.IsPrepared(i);
    hide Execute, LogOf, PrepareStep, Got1;
    FullGot1(su, actions, i);
  }

  lemma ClosedOutputs(c: Curve, p: Prepare, n: nat, m1: Store1, m2: Store2)
    requires c.q > 0 && ValidIndex(p.myInd, n) && PrepareStep(c, p).Ok?
    ensures var out := Closed(c, p, n, m1, m2).queue;
            && Msg(p.myInd, None, FromRound1(PrepareStep(c, p).value.1)) in out
            && (Full(p.myInd, n, m1) && SignedStep(c, PrepareStep(c, p).value.0, p.myInd, n, m1).Ok? ==>
                  Msg(p.myInd, None,
                      FromRound2(SignedStep(c, PrepareStep(c, p).value.0, p.myInd, n, m1).value.1)) in out)
  {
    hide Round1Step, Round2Step;
  }

  /** At quiescence, if every round 1 computation succeeds, everybody has everybody's share. */
  lemma QuietFull2(su: Setup, actions: seq<Action>, i: nat)
    requires su.c.q > 0 && 1 <= su.N() <= U16_MAX && su.IsParty(i) && su.AllSigning()
    requires Quiescent(su, Execute(su, actions))
    ensures Full(i, su.N(), Got2(su, actions, i)) && Got2(su, actions, i) == su.Others2(i)
  {
    forall k | 1 <= k <= su.N() && k != i
      ensures k in Got2(su, actions, i)
    {
      assert su.IsParty(k);
      QuietFull1(su, actions, k);
      assert su.IsPrepared(k);
      assert su.Signing(k).Ok?;
      var b := su.Signing(k).value.1;
      StartedOutput(su, actions, k);
      ClosedOutputs(su.c, su.PrepareOf(k), su.N(), Got1(su, actions, k), Got2(su, actions, k));
      hide Execute, LogOf, PrepareStep, SignedStep, Network.Output, Closed, Received, Got1;
      QuietDelivers(su, actions, k, i, Msg(k, None, FromRound2(b)));
      ReceivedIsBatch(su, actions, i);
      BatchAccepted2(i, su.N(), Received(su, actions, i), k, b);
    }
    assert su.Signing(i).Ok?;
    hide Execute, LogOf, PrepareStep, Got1, Got2;
    FullGot2(su, actions, i);
  }

  /**
   When the network is quiet and every round 1 computation succeeds, each party has received exactly
   2(n-1) messages, and it is Finished exactly when no partial sum in its own combination of the
   shares vanishes.
   */
  lemma QuietMeansDone(su: Setup, actions: seq<Action>, i: nat)
    requires su.Honest() && su.c.q > 0 && 1 <= su.N() <= U16_MAX && su.IsParty(i) && su.AllSigning()
    requires Quiescent(su, Execute(su, actions))
    ensures |Received(su, actions, i)| == 2 * (su.N() - 1)
    ensures var shares := Shares(SignedStates(su));
            Execute(su, actions).parties[i - 1].machine.round.Finished? <==>
            NoPartialSumVanishes(su.c.q, shares[i - 1], RemoveAt(shares, i - 1))
  {
    QuietFull1(su, actions, i);
    QuietFull2(su, actions, i);
    ReceivedBound(su, actions, i);
    StartedOutput(su, actions, i);
    assert su.IsPrepared(i);
    assert su.Signing(i).Ok?;
    HonestFinishing(su, i);
    hide Setup.Honest, Execute, LogOf, Received, Got1, Got2, PrepareStep, SignedStep, FinishedStep,
         NoPartialSumVanishes, AllConsistent, JointParams, ResultVerifies, Setup.Others1, Setup.Others2, SignedStates;
    var st := Execute(su, actions).parties[i - 1];
    assert Shift(st.drained, st.machine).round == st.machine.round;
  }

  // ---- the number of deliveries ----

  /** How many copies a schedule delivers. */
  ghost function Deliveries(su: Setup, actions: seq<Action>): nat
    requires su.c.q > 0 && 1 <= su.N() <= U16_MAX
  {
    if actions == [] then 0
    else
      var prefix, last := actions[..|actions| - 1], actions[|actions| - 1];
      Deliveries(su, prefix) + if last.event.Deliver? && Enabled(su, Execute(su, prefix), last) then 1 else 0
  }

  ghost function ReceivedUpTo(su: Setup, actions: seq<Action>, upTo: nat): nat
    requires su.c.q > 0 && 1 <= su.N() <= U16_MAX
  {
    if upTo == 0 then 0 else ReceivedUpTo(su, actions, upTo - 1) + |Received(su, actions, upTo)|
  }

  lemma {:induction false} ReceivedSnoc(su: Setup, actions: seq<Action>, a: Action, upTo: nat)
    requires su.c.q > 0 && 1 <= su.N() <= U16_MAX
    ensures ReceivedUpTo(su, actions + [a], upTo) == ReceivedUpTo(su, actions, upTo) +
            if a.event.Deliver? && Enabled(su, Execute(su, actions), a) && a.party <= upTo then 1 else 0
  {
    if upTo == 0 {
      hide Execute, Received;
    } else {
      hide *;
      ReceivedSnoc(su, actions, a, upTo - 1);
      OneReceived(su, actions, a, upTo);
      ReceivedStep(su, actions, upTo);
      ReceivedStep(su, actions + [a], upTo);
    }
  }

  lemma ReceivedStep(su: Setup, actions: seq<Action>, upTo: nat)
    requires su.c.q > 0 && 1 <= su.N() <= U16_MAX && upTo > 0
    ensures ReceivedUpTo(su, actions, upTo) == ReceivedUpTo(su, actions, upTo - 1) + |Received(su, actions, upTo)|
  {
    hide Received;
  }

  lemma OneReceived(su: Setup, actions: seq<Action>, a: Action, i: nat)
    requires su.c.q > 0 && 1 <= su.N() <= U16_MAX
    ensures |Received(su, actions + [a], i)| == |Received(su, actions, i)| +
            if a.event.Deliver? && Enabled(su, Execute(su, actions), a) && a.party == i then 1 else 0
  {
    hide Execute, LogOf, Delivered, Enabled;
    LogSnoc(su, actions, a, i);
    DeliveredSnoc(LogOf(su, actions, i), a.event);
  }

  lemma {:induction false} DeliveriesAreReceived(su: Setup, actions: seq<Action>)
    requires su.c.q > 0 && 1 <= su.N() <= U16_MAX
    ensures Deliveries(su, actions) == ReceivedUpTo(su, actions, su.N())
  {
    hide Execute;
    if actions == [] {
      NothingReceived(su, su.N());
    } else {
      var prefix, last := actions[..|actions| - 1], actions[|actions| - 1];
      DeliveriesAreReceived(su, prefix);
      assert actions == prefix + [last];
      ReceivedSnoc(su, prefix, last, su.N());
    }
  }

  lemma {:induction false} NothingReceived(su: Setup, upTo: nat)
    requires su.c.q > 0 && 1 <= su.N() <= U16_MAX
    ensures ReceivedUpTo(su, [], upTo) == 0
  {
    if upTo == 0 {
    } else {
      NothingReceived(su, upTo - 1);
    }
  }

  /** A schedule that runs until all is quiet delivers exactly 2n(n-1) copies. */
  lemma FullRunDeliveries(su: Setup, actions: seq<Action>)
    requires su.Honest() && su.c.q > 0 && 1 <= su.N() <= U16_MAX && su.AllSigning()
    requires Quiescent(su, Execute(su, actions))
    ensures Deliveries(su, actions) == su.N() * (2 * (su.N() - 1))
  {
    hide *;
    DeliveriesAreReceived(su, actions);
    ReceivedWhenQuiet(su, actions, su.N());
  }

  lemma {:induction false} ReceivedWhenQuiet(su: Setup, actions: seq<Action>, upTo: nat)
    requires su.Honest() && su.c.q > 0 && 1 <= su.N() <= U16_MAX && su.AllSigning() && upTo <= su.N()
    requires Quiescent(su, Execute(su, actions))
    ensures ReceivedUpTo(su, actions, upTo) == upTo * (2 * (su.N() - 1))
  {
    if upTo == 0 {
      hide Setup.Honest, Execute, Setup.AllSigning, Quiescent, Received;
    } else {
      hide *;
      ReceivedStep(su, actions, upTo);
      ReceivedWhenQuiet(su, actions, upTo - 1);
      PartyUpTo(su, upTo);
      QuietCount(su, actions, upTo);
      var w := 2 * (su.N() - 1);
      assert upTo * w == (upTo - 1) * w + w;
    }
  }

  lemma PartyUpTo(su: Setup, i: nat)
    requires 1 <= i <= su.N()
    ensures su.IsParty(i)
  {
  }

  lemma QuietCount(su: Setup, actions: seq<Action>, i: nat)
    requires su.Honest() && su.c.q > 0 && 1 <= su.N() <= U16_MAX && su.IsParty(i) && su.AllSigning()
    requires Quiescent(su, Execute(su, actions))
    ensures |Received(su, actions, i)| == 2 * (su.N() - 1)
  {
    hide *;
    QuietMeansDone(su, actions, i);
  }

  /** In particular: if all computations succeed, quiet means that everybody has finished. */
  lemma QuietMeansAllFinished(su: Setup, actions: seq<Action>, i: nat)
    requires su.Honest() && su.c.q > 0 && 1 <= su.N() <= U16_MAX && su.IsParty(i) && su.AllSigning()
    requires su.Finishing(i).Ok? && Quiescent(su, Execute(su, actions))
    ensures Execute(su, actions).parties[i - 1].machine.round == Finished(su.Finishing(i).value)
  {
    HonestFinishing(su, i);
    QuietMeansDone(su, actions, i);
    FinishedPartiesAgree(su, actions, i);
  }
}
