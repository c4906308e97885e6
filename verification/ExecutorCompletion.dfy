/** When a run of the executor among honest peers completes: exactly when its stream and its sink allow. */
module ExecutorCompletion {
  import opened Wrappers
  import opened Curves
  import opened SignatureTheory
  import opened SignatureCorrectness
  import opened Broadcast
  import opened Rounds
  import opened Machine
  import opened MachineRuns
  import opened HonestRounds
  import opened HonestRuns
  import opened Network
  import opened RoundNumbers
  import opened ExecutorSteps

  /**
   The stream fills both stores before anything ends the run. A receive error always ends it. The
   deadline of Round2 ends it once all round 1 messages are there, and so does one more round 1
   message, even a repetition, for which there is no store any more. Before that, an expiry is not
   seen, and refused messages do not matter.
   */
  predicate Brings(me: nat, n: nat, m1: Store1, m2: Store2, items: seq<Incoming>)
    decreases |items|
  {
    || (Full(me, n, m1) && Full(me, n, m2))
    || (&& items != []
        && match items[0]
           case ReceiveError => false
           case Elapsed => !Full(me, n, m1) && Brings(me, n, m1, m2, items[1..])
           case Received(msg) =>
             && (msg.body.FromRound1? ==> !Full(me, n, m1))
             && Brings(me, n, Accept1(me, n, m1, msg), Accept2(me, n, m2, msg), items[1..]))
  }

  ghost predicate HonestItems(su: Setup, items: seq<Incoming>)
    requires su.c.q > 0 && su.N() <= U16_MAX
  {
    forall k :: 0 <= k < |items| && items[k].Received? ==> HonestMessage(su, items[k].msg)
  }

  /** All of party i's computations succeed, and everybody signs. */
  ghost predicate Good(su: Setup, i: nat)
    requires su.c.q > 0 && su.N() <= U16_MAX && su.IsParty(i)
  {
    su.AllSigning() && su.Finishing(i).Ok?
  }

  // ---- where the executor waits ----

  /** The executor waits at k after the events es, all its messages honest. */
  ghost predicate Follows(su: Setup, i: nat, es: seq<Event>, k: Core)
    requires su.c.q > 0 && 1 <= su.N() <= U16_MAX && su.IsParty(i)
  {
    && RunState(k.machine, k.sent) == Run(su.c, su.PrepareOf(i), su.N(), es)
    && AllHonest(su, Delivered(es))
    && k.machine.queue == [] && !k.machine.WantsToProceed()
    && (k.machine.round.InRound1? || k.machine.round.InRound2?)
  }

  /** Sends what there is to send and then finishes if possible: a step without a call. */
  function Finally(k: Core): Stage {
    match Flush(k)
    case Ended(r, sent) => Ended(r, sent)
    case Running(k') => Conclude(k')
  }

  lemma ProceedDone(c: Curve, s: Machine)
    requires c.q > 0 && Inv(s)
    ensures Proceed(c, s).1 == Done && !s.round.Gone? ==> !Proceed(c, s).0.round.Gone?
    decreases 3 - s.CurrentRound()
  {
    hide Round1Step, Round2Step;
    match s.round
    case InPrepare(p) =>
      var o := PrepareStep(c, p);
      if o.Ok? {
        ProceedDone(c, s.(round := InRound1(o.value.0)).Broadcasting(FromRound1(o.value.1)));
      }
    case InRound1(r) =>
      if !s.WantsMore1() {
        var t := s.(msgs1 := None);
        var o := Round1Step(c, r, BroadcastMsgs(s.me, Ascending(s.me, s.n, s.msgs1.value)));
        if o.Ok? {
          ProceedDone(c, t.(round := InRound2(o.value.0)).Broadcasting(FromRound2(o.value.1)));
        }
      }
    case _ =>
  }

  /** What the outcome of a delivery to a waiting machine says about the machine. */
  lemma VerdictOnWaiting(c: Curve, s: Machine, msg: Packet)
    requires c.q > 0 && Inv(s) && !s.WantsToProceed() && (s.round.InRound1? || s.round.InRound2?)
    ensures var (t, status) := Handle(c, s, msg);
            && (Verdict(status) == None ==>
                  && !t.WantsToProceed() && !t.round.Gone? && Inv(t)
                  && (msg.body.FromRound1? ==> s.round.InRound1?))
            && (Verdict(status).Some? ==> t.round.Gone? || (msg.body.FromRound1? && s.round.InRound2?))
  {
    hide Proceed, Inv;
    HandleKeepsInv(c, s, msg);
    assert StoresMatchRound(s) by {
      InvStores(s);
    }
    match msg.body
    case FromRound1(_) =>
      if s.msgs1.Some? && Push(s.me, s.n, s.msgs1.value, Body1(msg)).Accepted? {
        var s' := s.(msgs1 := Some(Push(s.me, s.n, s.msgs1.value, Body1(msg)).value));
        AcceptedKeepsInv(s, msg);
        ProceedKeepsInv(c, s');
        ProceedDone(c, s');
      }
    case FromRound2(_) =>
      if s.msgs2.Some? && Push(s.me, s.n, s.msgs2.value, Body2(msg)).Accepted? {
        var s' := s.(msgs2 := Some(Push(s.me, s.n, s.msgs2.value, Body2(msg)).value));
        AcceptedKeepsInv(s, msg);
        ProceedKeepsInv(c, s');
        ProceedDone(c, s');
      }
  }

  lemma InvStores(s: Machine)
    requires Inv(s)
    ensures StoresMatchRound(s) && s.WellFormed()
  {
  }

  lemma AcceptedKeepsInv(s: Machine, msg: Packet)
    requires Inv(s)
    ensures msg.body.FromRound1? && s.msgs1.Some? && Push(s.me, s.n, s.msgs1.value, Body1(msg)).Accepted? ==>
              Inv(s.(msgs1 := Some(Push(s.me, s.n, s.msgs1.value, Body1(msg)).value)))
    ensures msg.body.FromRound2? && s.msgs2.Some? && Push(s.me, s.n, s.msgs2.value, Body2(msg)).Accepted? ==>
              Inv(s.(msgs2 := Some(Push(s.me, s.n, s.msgs2.value, Body2(msg)).value)))
  {
  }

  /** A machine emits at most two messages, and exactly two by the time it is finished. */
  lemma EmitsTwo(c: Curve, p: Prepare, n: nat, es: seq<Event>)
    requires c.q > 0 && ValidIndex(p.myInd, n)
    ensures var st := Run(c, p, n, es);
            && |st.drained| + |st.machine.queue| <= 2
            && (st.machine.round.Finished? ==> |st.drained| + |st.machine.queue| == 2)
  {
    var st := Run(c, p, n, es);
    RunHasNormalForm(c, p, n, es);
    ClosedEmits(c, p, n, AcceptAll1(p.myInd, n, Delivered(es)), AcceptAll2(p.myInd, n, Delivered(es)));
    hide Run, Closed, AcceptAll1, AcceptAll2, Started;
    assert Shift(st.drained, st.machine).round == st.machine.round;
    assert |Shift(st.drained, st.machine).queue| == |st.drained| + |st.machine.queue|;
  }

  lemma ClosedEmits(c: Curve, p: Prepare, n: nat, m1: Store1, m2: Store2)
    requires c.q > 0 && ValidIndex(p.myInd, n)
    ensures |Closed(c, p, n, m1, m2).queue| <= 2
    ensures Closed(c, p, n, m1, m2).round.Finished? ==> |Closed(c, p, n, m1, m2).queue| == 2
  {
    hide PrepareStep, SignedStep, FinishedStep, Full;
  }

  /** From a machine that is done computing to the next receive. */
  lemma FinallyFollows(su: Setup, i: nat, es: seq<Event>, k: Core)
    requires su.c.q > 0 && 1 <= su.N() <= U16_MAX && su.IsParty(i)
    requires RunState(k.machine, k.sent) == Run(su.c, su.PrepareOf(i), su.N(), es) && AllHonest(su, Delivered(es))
    requires !k.machine.WantsToProceed() && !k.machine.round.Gone?
    ensures match Finally(k)
            case Running(k') =>
              && Follows(su, i, es + [Drain], k') && Delivered(es + [Drain]) == Delivered(es)
              && k'.room + |k'.sent| == k.room + |k.sent|
            case Ended(r, _) =>
              if r.Completed?
              then
                && Good(su, i) && r == Completed(su.Finishing(i).value) && k.room + |k.sent| >= 2
                && Full(i, su.N(), Filled1(su.PrepareOf(i), su.N(), es))
                && Full(i, su.N(), Filled2(su.PrepareOf(i), su.N(), es))
              else k.room + |k.sent| < 2
  {
    var c, p, n := su.c, su.PrepareOf(i), su.N();
    hide Run, AllHonest, Delivered, AcceptAll1, AcceptAll2, Full, Setup.AllSigning, Setup.Finishing;
    EmitsTwo(c, p, n, es);
    RunSnoc(c, p, n, es, Drain);
    DeliveredSnoc(es, Drain);
    if k.machine.round.Finished? {
      HonestRunFinishes(su, i, es, k.machine.round.result);
    }
  }

  /** Without a call, settling sends and concludes; doing so twice is doing it once. */
  lemma SettledIsFinally(c: Curve, k: Core)
    requires c.q > 0 && k.machine.WellFormed() && !k.machine.WantsToProceed()
    ensures Settled(c, k) == Finally(k)
    ensures Flush(k).Running? ==> Settled(c, Flush(k).core) == Finally(k)
  {
    if Flush(k).Running? {
      var k' := Flush(k).core;
      assert k'.sent + [] == k'.sent;
      assert Flush(k') == Running(k');
    }
  }

  /** A message to a waiting executor, if the machine does not end the run over it. */
  lemma TurnedIsFinally(c: Curve, k: Core, msg: Packet)
    requires c.q > 0 && k.machine.WellFormed() && Verdict(Handle(c, k.machine, msg).1) == None
    requires Handle(c, k.machine, msg).0.WellFormed() && !Handle(c, k.machine, msg).0.WantsToProceed()
    ensures Turned(c, k, Received(msg)) == Finally(k.(machine := Handle(c, k.machine, msg).0))
  {
    hide Handle, Settled, Finally, Verdict;
    var k' := k.(machine := Handle(c, k.machine, msg).0);
    SettledIsFinally(c, k');
    FlushEnds(k');
  }

  lemma FlushEnds(k: Core)
    ensures Flush(k).Ended? ==> Finally(k) == Flush(k)
  {
  }

  /** The stores and the round of a waiting executor. */
  lemma WaitingShape(su: Setup, i: nat, es: seq<Event>, k: Core)
    requires su.c.q > 0 && 1 <= su.N() <= U16_MAX && su.IsParty(i) && Follows(su, i, es, k)
    ensures var m1, m2 := Filled1(su.PrepareOf(i), su.N(), es), Filled2(su.PrepareOf(i), su.N(), es);
            && Inv(k.machine)
            && (k.machine.round.InRound1? <==> !Full(i, su.N(), m1))
            && !(Full(i, su.N(), m1) && Full(i, su.N(), m2))
            && (DeadlineOf(k.machine) == None <==> k.machine.round.InRound1?)
  {
    hide Run, AllHonest, Delivered, AcceptAll1, AcceptAll2, Full, Inv;
    RoundAfterRun(su.c, su.PrepareOf(i), su.N(), es);
    RunKeepsInv(su.c, su.PrepareOf(i), su.N(), es);
  }

  lemma FilledSnoc(p: Prepare, n: nat, es: seq<Event>, msg: Packet)
    ensures Delivered(es + [Deliver(msg)]) == Delivered(es) + [msg]
    ensures Filled1(p, n, es + [Deliver(msg)]) == Accept1(p.myInd, n, Filled1(p, n, es), msg)
    ensures Filled2(p, n, es + [Deliver(msg)]) == Accept2(p.myInd, n, Filled2(p, n, es), msg)
  {
    DeliveredSnoc(es, Deliver(msg));
    var longer := Delivered(es) + [msg];
    assert longer[..|longer| - 1] == Delivered(es);
  }

  /** How one honest message moves a waiting executor on. */
  lemma HonestTurn(su: Setup, i: nat, es: seq<Event>, k: Core, msg: Packet)
    requires su.c.q > 0 && 1 <= su.N() <= U16_MAX && su.IsParty(i) && Follows(su, i, es, k)
    requires k.machine.WellFormed() && HonestMessage(su, msg)
    ensures var p, n := su.PrepareOf(i), su.N();
            var m1, m2 := Filled1(p, n, es), Filled2(p, n, es);
            var m1', m2' := Accept1(i, n, m1, msg), Accept2(i, n, m2, msg);
            var harmless := msg.body.FromRound1? ==> !Full(i, n, m1);
            match Turned(su.c, k, Received(msg))
            case Running(k') =>
              && harmless && k'.room + |k'.sent| == k.room + |k.sent|
              && Follows(su, i, es + [Deliver(msg), Drain], k')
              && Filled1(p, n, es + [Deliver(msg), Drain]) == m1' && Filled2(p, n, es + [Deliver(msg), Drain]) == m2'
            case Ended(r, _) =>
              if r.Completed?
              then
                && harmless && Full(i, n, m1') && Full(i, n, m2') && k.room + |k.sent| >= 2
                && Good(su, i) && r == Completed(su.Finishing(i).value)
              else !(harmless && Good(su, i) && k.room + |k.sent| >= 2)
  {
    var c, p, n := su.c, su.PrepareOf(i), su.N();
    var es' := es + [Deliver(msg)];
    hide Run, AllHonest, Delivered, AcceptAll1, AcceptAll2, Full, Setup.AllSigning, Setup.Finishing, Handle, Inv,
         Finally, HonestMessage;
    WaitingShape(su, i, es, k);
    FilledSnoc(p, n, es, msg);
    RunSnoc(c, p, n, es, Deliver(msg));
    AllHonestSnoc(su, Delivered(es), msg);
    VerdictOnWaiting(c, k.machine, msg);
    var (t, status) := Handle(c, k.machine, msg);
    if Verdict(status) == None {
      InvStores(t);
      TurnedIsFinally(c, k, msg);
      FinallyFollows(su, i, es', k.(machine := t));
      assert es' + [Drain] == es + [Deliver(msg), Drain];
    } else if t.round.Gone? {
      HonestRunGone(su, i, es');
    }
  }

  lemma AllHonestSnoc(su: Setup, msgs: seq<Packet>, msg: Packet)
    requires su.c.q > 0 && su.N() <= U16_MAX && AllHonest(su, msgs) && HonestMessage(su, msg)
    ensures AllHonest(su, msgs + [msg])
  {
    hide HonestMessage;
  }

  // ---- the run ----

  /** An expiry is passed over by an executor without a deadline and ends one that has one. */
  lemma LoopedOnElapsed(c: Curve, k: Core, items: seq<Incoming>)
    requires c.q > 0 && k.machine.WellFormed() && items != [] && items[0] == Elapsed
    ensures DeadlineOf(k.machine) == None ==> Looped(c, k, items) == Looped(c, k, items[1..])
    ensures DeadlineOf(k.machine) != None ==> !Looped(c, k, items).result.Completed?
  {
  }

  lemma LoopedOnItem(c: Curve, k: Core, items: seq<Incoming>)
    requires c.q > 0 && k.machine.WellFormed() && items != [] && items[0] != Elapsed
    ensures match Turned(c, k, items[0])
            case Ended(r, sent) => Looped(c, k, items) == Ending(r, sent, items[1..])
            case Running(k') => Looped(c, k, items) == Looped(c, k', items[1..])
  {
    hide Turned;
  }

  lemma {:induction false} LoopCompletesIff(su: Setup, i: nat, es: seq<Event>, k: Core, items: seq<Incoming>)
    requires su.c.q > 0 && 1 <= su.N() <= U16_MAX && su.IsParty(i) && Follows(su, i, es, k)
    requires k.machine.WellFormed() && HonestItems(su, items)
    ensures var m1, m2 := Filled1(su.PrepareOf(i), su.N(), es), Filled2(su.PrepareOf(i), su.N(), es);
            var r := Looped(su.c, k, items).result;
            && (r.Completed? <==> Good(su, i) && k.room + |k.sent| >= 2 && Brings(i, su.N(), m1, m2, items))
            && (r.Completed? ==> r == Completed(su.Finishing(i).value))
    decreases |items|
  {
    hide Run, AllHonest, Delivered, Filled1, Filled2, Full, Good, Turned, HonestMessage, Follows, Accept1, Accept2,
         Looped;
    var c, p, n := su.c, su.PrepareOf(i), su.N();
    WaitingShape(su, i, es, k);
    if items == [] {
      LoopedOnNothing(c, k);
    } else {
      var rest := items[1..];
      assert HonestItems(su, rest) by {
        HonestRest(su, items);
      }
      match items[0]
      case ReceiveError =>
        LoopedOnItem(c, k, items);
        assert Turned(c, k, ReceiveError) == Ended(Stopped(Recv), k.sent) by {
          TurnedOnError(c, k);
        }
      case Elapsed =>
        LoopedOnElapsed(c, k, items);
        if DeadlineOf(k.machine) == None {
          LoopCompletesIff(su, i, es, k, rest);
        }
      case Received(msg) =>
        LoopedOnItem(c, k, items);
        HonestTurn(su, i, es, k, msg);
        var t := Turned(c, k, items[0]);
        if t.Running? {
          LoopCompletesIff(su, i, es + [Deliver(msg), Drain], t.core, rest);
        }
    }
  }

  lemma LoopedOnNothing(c: Curve, k: Core)
    requires c.q > 0 && k.machine.WellFormed()
    ensures Looped(c, k, []) == Ending(Stopped(RecvEof), k.sent, [])
  {
  }

  lemma TurnedOnError(c: Curve, k: Core)
    requires c.q > 0 && k.machine.WellFormed()
    ensures Turned(c, k, ReceiveError) == Ended(Stopped(Recv), k.sent)
  {
  }

  lemma HonestRest(su: Setup, items: seq<Incoming>)
    requires su.c.q > 0 && su.N() <= U16_MAX && HonestItems(su, items) && items != []
    ensures HonestItems(su, items[1..])
    ensures items[0].Received? ==> HonestMessage(su, items[0].msg)
  {
    hide HonestMessage;
  }

  lemma StartedRun(su: Setup, i: nat)
    requires su.c.q > 0 && 1 <= su.N() <= U16_MAX && su.IsParty(i)
    ensures var p, n := su.PrepareOf(i), su.N();
            && Init(p, n).WellFormed() && Inv(Init(p, n))
            && Run(su.c, p, n, [Call]) == RunState(Proceed(su.c, Init(p, n)).0, [])
            && Delivered([Call]) == [] && AllHonest(su, Delivered([Call]))
            && Filled1(p, n, [Call]) == map[] && Filled2(p, n, [Call]) == map[]
  {
    hide Proceed;
    var es: seq<Event> := [];
    RunSnoc(su.c, su.PrepareOf(i), su.N(), es, Call);
    DeliveredSnoc(es, Call);
    assert es + [Call] == [Call];
  }

  lemma SettledAfterCall(c: Curve, k: Core)
    requires c.q > 0 && k.machine.WellFormed() && k.machine.WantsToProceed()
    requires Proceed(c, k.machine).0.WellFormed()
    ensures var (t, status) := Proceed(c, k.machine);
            if status == Done then Settled(c, k) == Finally(k.(machine := t))
            else (status.Failed? ==> status.error.IsCritical()) ==>
                   Settled(c, k).Ended? && !Settled(c, k).result.Completed?
  {
    hide Proceed;
  }

  /**
   A run of the executor of party i among honest peers completes if and only if everybody signs, the
   party's own combination succeeds, the sink takes two messages, and the stream brings all messages
   before it ends the run; and its output is then what round 2 computes.
   */
  lemma RunCompletesIff(su: Setup, i: nat, room: nat, items: seq<Incoming>)
    requires su.c.q > 0 && 1 <= su.N() <= U16_MAX && su.IsParty(i) && HonestItems(su, items)
    ensures Init(su.PrepareOf(i), su.N()).WellFormed()
    ensures var r := WholeRun(su.c, Core(Init(su.PrepareOf(i), su.N()), [], room), items).result;
            && (r.Completed? <==> Good(su, i) && room >= 2 && Brings(i, su.N(), map[], map[], items))
            && (r.Completed? ==> r == Completed(su.Finishing(i).value))
  {
    var c, p, n := su.c, su.PrepareOf(i), su.N();
    var k := Core(Init(p, n), [], room);
    hide Run, AllHonest, Delivered, Full, Proceed, Inv, Looped, Setup.AllSigning, Setup.Finishing, HonestMessage;
    StartedRun(su, i);
    ProceedKeepsInv(c, k.machine);
    ProceedDone(c, k.machine);
    var (t, status) := Proceed(c, k.machine);
    InvStores(t);
    SettledAfterCall(c, k);
    if status == Done {
      FinallyFollows(su, i, [Call], k.(machine := t));
      var f := Finally(k.(machine := t));
      if f.Running? {
        LoopCompletesIff(su, i, [Call] + [Drain], f.core, items);
      }
    } else {
      HonestRunGone(su, i, [Call]);
    }
  }

  /** If moreover the parties are honest, the output is the joint result, and it verifies. */
  lemma HonestRunCompletes(su: Setup, i: nat, room: nat, items: seq<Incoming>)
    requires su.Honest() && 1 <= su.N() <= U16_MAX && su.IsParty(i) && HonestItems(su, items)
    requires su.AllSigning() && su.Finishing(i).Ok? && room >= 2 && Brings(i, su.N(), map[], map[], items)
    ensures Init(su.PrepareOf(i), su.N()).WellFormed()
    ensures AllConsistent(su.c, su.States()) && JointParams(su.c, su.States(), su.message).Ok?
    ensures WholeRun(su.c, Core(Init(su.PrepareOf(i), su.N()), [], room), items).result == Completed(JointResult(su))
    ensures ResultVerifies(su, JointResult(su))
  {
    hide Setup.Honest, WholeRun, Brings, HonestItems, ResultVerifies, Setup.AllSigning, AllConsistent, JointParams;
    HonestFinishing(su, i);
    RunCompletesIff(su, i, room, items);
  }

  // ---- which streams do ----

  /** All messages of the two rounds, each once, in any order. */
  lemma AnyOrderBrings(me: nat, n: nat, msgs: seq<Packet>)
    requires ValidIndex(me, n) && ValidBatch(me, n, msgs)
    requires Full(me, n, AcceptAll1(me, n, msgs)) && Full(me, n, AcceptAll2(me, n, msgs))
    ensures Brings(me, n, map[], map[], Stream(msgs))
  {
    assert msgs[..0] == [] && msgs[0..] == msgs;
    SuffixBrings(me, n, msgs, 0);
  }

  function Stream(msgs: seq<Packet>): (items: seq<Incoming>)
    ensures |items| == |msgs| && forall k :: 0 <= k < |msgs| ==> items[k] == Received(msgs[k])
  {
    seq(|msgs|, k requires 0 <= k < |msgs| => Received(msgs[k]))
  }

  lemma {:induction false} SuffixBrings(me: nat, n: nat, msgs: seq<Packet>, k: nat)
    requires ValidIndex(me, n) && ValidBatch(me, n, msgs) && k <= |msgs|
    requires Full(me, n, AcceptAll1(me, n, msgs)) && Full(me, n, AcceptAll2(me, n, msgs))
    ensures Brings(me, n, AcceptAll1(me, n, msgs[..k]), AcceptAll2(me, n, msgs[..k]), Stream(msgs[k..]))
    decreases |msgs| - k
  {
    if k == |msgs| {
      assert msgs[..k] == msgs;
    } else {
      SuffixBrings(me, n, msgs, k + 1);
      assert msgs[..k + 1][..k] == msgs[..k];
      assert Stream(msgs[k..])[1..] == Stream(msgs[k + 1..]);
      if msgs[k].body.FromRound1? {
        NotYetFull(me, n, msgs, k);
      }
    }
  }

  /** Before a round 1 message of a valid batch its sender's slot is empty. */
  lemma NotYetFull(me: nat, n: nat, msgs: seq<Packet>, k: nat)
    requires ValidBatch(me, n, msgs) && k < |msgs| && msgs[k].body.FromRound1?
    ensures !Full(me, n, AcceptAll1(me, n, msgs[..k]))
  {
    var m, before := msgs[k], msgs[..k];
    var store := AcceptAll1(me, n, before);
    if m.sender in store {
      BatchAccepted1(me, n, before, m.sender, store[m.sender]);
    }
  }

  /** A repetition is harmless only in time: one round 1 message too many in Round2 ends the run. */
  lemma LateRepetitionEndsRun(c: Curve, k: Core, msg: Packet)
    requires c.q > 0 && Inv(k.machine) && k.machine.round.InRound2? && msg.body.FromRound1?
    ensures Turned(c, k, Received(msg)) == Ended(Stopped(HandleIncoming(OutOfOrderMsg(2, 1))), k.sent)
  {
  }
}
