/**
 How the round number moves. The documentation of the state machine lets it grow by 1 per call of
 `proceed` or `handle_incoming`; this module says exactly when it stays, grows by 1, or jumps.
 */
module RoundNumbers {
  import opened Wrappers
  import opened Curves
  import opened Broadcast
  import opened Rounds
  import opened Machine
  import opened MachineRuns

  /** The round computation succeeds on a store that is complete. */
  predicate Signs(c: Curve, p: Prepare, n: nat, m1: Store1)
    requires c.q > 0 && ValidIndex(p.myInd, n)
  {
    && PrepareStep(c, p).Ok? && Full(p.myInd, n, m1)
    && SignedStep(c, PrepareStep(c, p).value.0, p.myInd, n, m1).Ok?
  }

  /** The round number of a machine that has left Prepare, by what it has accepted. */
  lemma RoundOfClosed(c: Curve, p: Prepare, n: nat, m1: Store1, m2: Store2)
    requires c.q > 0 && ValidIndex(p.myInd, n)
    ensures var r := Closed(c, p, n, m1, m2).CurrentRound();
            && 1 <= r <= 3
            && (r == 1 <==> PrepareStep(c, p).Ok? && !Full(p.myInd, n, m1))
            && (r == 2 <==> Signs(c, p, n, m1) && !Full(p.myInd, n, m2))
  {
    hide PrepareStep, SignedStep, FinishedStep, Full;
  }

  /**
   A message in Round1. The round stays exactly while a round 1 message is missing, grows by exactly
   1 when the last one arrives, signing succeeds and a round 2 message is missing, and jumps to 3
   otherwise.
   */
  lemma MessageInRound1(c: Curve, p: Prepare, n: nat, m1: Store1, m2: Store2, msg: Packet)
    requires c.q > 0 && ValidIndex(p.myInd, n)
    requires Closed(c, p, n, m1, m2).CurrentRound() == 1
    ensures Closed(c, p, n, m1, m2).WellFormed()
    ensures var r := Handle(c, Closed(c, p, n, m1, m2), msg).0.CurrentRound();
            var m1' := Accept1(p.myInd, n, m1, msg);
            && (r == 1 <==> !Full(p.myInd, n, m1'))
            && (r == 2 <==> Signs(c, p, n, m1') && !Full(p.myInd, n, m2))
            && (r == 3 <==> Full(p.myInd, n, m1') && !(Signs(c, p, n, m1') && !Full(p.myInd, n, m2)))
  {
    RoundOfClosed(c, p, n, m1, m2);
    RoundOfClosed(c, p, n, Accept1(p.myInd, n, m1, msg), Accept2(p.myInd, n, m2, msg));
    hide PrepareStep, SignedStep, FinishedStep, Full, Closed, Handle;
    HandleOnClosed(c, p, n, m1, m2, msg);
  }

  /** A message in Round2: the round grows, by exactly 1, exactly when the last share arrives. */
  lemma MessageInRound2(c: Curve, p: Prepare, n: nat, m1: Store1, m2: Store2, msg: Packet)
    requires c.q > 0 && ValidIndex(p.myInd, n)
    requires Closed(c, p, n, m1, m2).CurrentRound() == 2
    ensures Closed(c, p, n, m1, m2).WellFormed()
    ensures var r := Handle(c, Closed(c, p, n, m1, m2), msg).0.CurrentRound();
            var m2' := Accept2(p.myInd, n, m2, msg);
            (r == 2 <==> !Full(p.myInd, n, m2')) && (r == 3 <==> Full(p.myInd, n, m2'))
  {
    RoundOfClosed(c, p, n, m1, m2);
    if msg.body.FromRound1? {
      AcceptKeepsFull(p.myInd, n, m1, Body1(msg));
    }
    RoundOfClosed(c, p, n, Accept1(p.myInd, n, m1, msg), Accept2(p.myInd, n, m2, msg));
    hide PrepareStep, SignedStep, FinishedStep, Full, Closed, Handle;
    HandleOnClosed(c, p, n, m1, m2, msg);
  }

  /**
   The first message, before any call of `proceed`. Refused, it leaves the round at 0; accepted, it
   takes it to 1 exactly when the preparation succeeds and another round 1 message is missing.
   */
  lemma MessageInPrepare(c: Curve, p: Prepare, n: nat, msg: Packet)
    requires c.q > 0 && ValidIndex(p.myInd, n)
    ensures var r := Handle(c, Init(p, n), msg).0.CurrentRound();
            var m1', m2' := Accept1(p.myInd, n, map[], msg), Accept2(p.myInd, n, map[], msg);
            var accepted := m1' != map[] || m2' != map[];
            && (r == 0 <==> !accepted)
            && (r == 1 <==> accepted && PrepareStep(c, p).Ok? && !Full(p.myInd, n, m1'))
            && (r == 2 <==> accepted && Signs(c, p, n, m1') && !Full(p.myInd, n, m2'))
  {
    RoundOfClosed(c, p, n, Accept1(p.myInd, n, map[], msg), Accept2(p.myInd, n, map[], msg));
    hide PrepareStep, SignedStep, FinishedStep, Full, Closed, Handle, Accept;
    HandleOnInit(c, p, n, msg);
  }

  // ---- over all runs ----

  /** The stores a run has filled, and whether it has left Prepare. */
  ghost function Filled1(p: Prepare, n: nat, es: seq<Event>): Store1 {
    AcceptAll1(p.myInd, n, Delivered(es))
  }

  ghost function Filled2(p: Prepare, n: nat, es: seq<Event>): Store2 {
    AcceptAll2(p.myInd, n, Delivered(es))
  }

  /** The round number after any run. */
  lemma RoundAfterRun(c: Curve, p: Prepare, n: nat, es: seq<Event>)
    requires c.q > 0 && ValidIndex(p.myInd, n)
    ensures var r := Run(c, p, n, es).machine.CurrentRound();
            var m1, m2 := Filled1(p, n, es), Filled2(p, n, es);
            && (r == 0 <==> !Started(p.myInd, n, es))
            && (r == 1 <==> Started(p.myInd, n, es) && PrepareStep(c, p).Ok? && !Full(p.myInd, n, m1))
            && (r == 2 <==> Started(p.myInd, n, es) && Signs(c, p, n, m1) && !Full(p.myInd, n, m2))
            && r <= 3
  {
    var st := Run(c, p, n, es);
    RunHasNormalForm(c, p, n, es);
    RoundOfClosed(c, p, n, Filled1(p, n, es), Filled2(p, n, es));
    hide PrepareStep, SignedStep, FinishedStep, Full, Closed, Run, AcceptAll1, AcceptAll2, Started, Signs;
    assert Shift(st.drained, st.machine).round == st.machine.round;
  }

  lemma StoresGrow(p: Prepare, n: nat, es: seq<Event>, ev: Event)
    ensures Started(p.myInd, n, es) ==> Started(p.myInd, n, es + [ev])
    ensures Full(p.myInd, n, Filled1(p, n, es)) ==> Filled1(p, n, es + [ev]) == Filled1(p, n, es)
    ensures Full(p.myInd, n, Filled2(p, n, es)) ==> Filled2(p, n, es + [ev]) == Filled2(p, n, es)
  {
    var me, m1, m2 := p.myInd, Filled1(p, n, es), Filled2(p, n, es);
    DeliveredSnoc(es, ev);
    assert Call in es ==> Call in es + [ev];
    if ev.Deliver? {
      var msg := ev.msg;
      var longer := Delivered(es) + [msg];
      assert longer[..|longer| - 1] == Delivered(es);
      AcceptGrows(me, n, m1, m2, msg);
      if msg.body.FromRound1? && Full(me, n, m1) {
        AcceptKeepsFull(me, n, m1, Body1(msg));
      }
      if msg.body.FromRound2? && Full(me, n, m2) {
        AcceptKeepsFull(me, n, m2, Body2(msg));
      }
    }
  }

  /**
   One event of any run jumps over a round number exactly in two cases: it takes the machine out of
   Prepare although the preparation fails or no round 1 message is missing; or, in Round1, it
   completes the first store although signing fails or no round 2 message is missing.
   */
  lemma JumpsIff(c: Curve, p: Prepare, n: nat, es: seq<Event>, ev: Event)
    requires c.q > 0 && ValidIndex(p.myInd, n)
    ensures var r, r' := Run(c, p, n, es).machine.CurrentRound(), Run(c, p, n, es + [ev]).machine.CurrentRound();
            var m1', m2' := Filled1(p, n, es + [ev]), Filled2(p, n, es + [ev]);
            && r <= r' <= 3
            && (r' > r + 1 <==>
                  || (&& r == 0 && Started(p.myInd, n, es + [ev])
                      && !(PrepareStep(c, p).Ok? && !Full(p.myInd, n, m1')))
                  || (&& r == 1 && Full(p.myInd, n, m1')
                      && !(Signs(c, p, n, m1') && !Full(p.myInd, n, m2'))))
  {
    hide PrepareStep, SignedStep, Run, AcceptAll1, AcceptAll2, Started, Delivered, Full;
    RoundAfterRun(c, p, n, es);
    RoundAfterRun(c, p, n, es + [ev]);
    StoresGrow(p, n, es, ev);
  }

  /** A call of `proceed` on a new machine grows the round by exactly 1 iff it works and n >= 2. */
  lemma FirstCallAdvancesIff(c: Curve, p: Prepare, n: nat)
    requires c.q > 0 && ValidIndex(p.myInd, n)
    ensures Proceed(c, Init(p, n)).0.CurrentRound() == 1 <==> PrepareStep(c, p).Ok? && n >= 2
  {
    var m1: Store1, m2: Store2 := map[], map[];
    RoundOfClosed(c, p, n, m1, m2);
    ProceedFromStores(c, p, n, m1, m2);
    if n >= 2 {
      assert IsOther(p.myInd, n, if p.myInd == 1 then 2 else 1);
      assert (if p.myInd == 1 then 2 else 1) !in m1;
    }
  }

  /**
   A crossing, at every party of every size: all shares have overtaken the last round 1
   message, so that one message takes the party from round 1 to round 3.
   */
  lemma LastMessageCrosses(c: Curve, p: Prepare, n: nat, m1: Store1, m2: Store2, msg: Packet)
    requires c.q > 0 && ValidIndex(p.myInd, n) && PrepareStep(c, p).Ok?
    requires msg.body.FromRound1? && msg.receiver.None? && IsOther(p.myInd, n, msg.sender) && msg.sender !in m1
    requires Full(p.myInd, n, m1[msg.sender := msg.body.m1]) && Full(p.myInd, n, m2)
    ensures Closed(c, p, n, m1, m2).WellFormed()
    ensures Closed(c, p, n, m1, m2).CurrentRound() == 1
    ensures Handle(c, Closed(c, p, n, m1, m2), msg).0.CurrentRound() == 3
  {
    assert !Full(p.myInd, n, m1);
    RoundOfClosed(c, p, n, m1, m2);
    MessageInRound1(c, p, n, m1, m2, msg);
    hide PrepareStep, SignedStep, FinishedStep, Full, Closed, Handle;
  }

  /**
   The shortest run with a crossing: of two parties, the other one's share overtakes its round 1
   message, which then takes this party from round 1 to round 3 in one call of `handle_incoming`.
   */
  lemma OvertakenRunCrosses(c: Curve, p: Prepare, other: nat, b1: MessageRound1, b2: MessageRound2)
    requires c.q > 0 && ValidIndex(p.myInd, 2) && IsOther(p.myInd, 2, other) && PrepareStep(c, p).Ok?
    ensures var es := [Call, Deliver(Msg(other, None, FromRound2(b2)))];
            && Run(c, p, 2, es).machine.CurrentRound() == 1
            && Run(c, p, 2, es + [Deliver(Msg(other, None, FromRound1(b1)))]).machine.CurrentRound() == 3
  {
    var share, late := Msg(other, None, FromRound2(b2)), Msg(other, None, FromRound1(b1));
    var es := [Call, Deliver(share)];
    var es' := es + [Deliver(late)];
    var none: seq<Event> := [];
    hide Run, Signs, PrepareStep, SignedStep;
    assert none + [Call] + [Deliver(share)] == es;
    DeliveredSnoc(none, Call);
    DeliveredSnoc(none + [Call], Deliver(share));
    DeliveredSnoc(es, Deliver(late));
    assert Delivered(es) == [share] && Delivered(es') == [share, late];
    AcceptTwo(p.myInd, share, late);
    assert Call in es && Call in es';
    RoundAfterRun(c, p, 2, es);
    RoundAfterRun(c, p, 2, es');
  }

  lemma AcceptTwo(me: nat, share: Packet, late: Packet)
    requires ValidIndex(me, 2) && IsOther(me, 2, share.sender) && late.sender == share.sender
    requires share.receiver == late.receiver == None && share.body.FromRound2? && late.body.FromRound1?
    ensures !Full(me, 2, AcceptAll1(me, 2, [share]))
    ensures Full(me, 2, AcceptAll1(me, 2, [share, late])) && Full(me, 2, AcceptAll2(me, 2, [share, late]))
  {
    var one, two := [share], [share, late];
    assert one[..0] == [] && two[..1] == one;
    assert AcceptAll1(me, 2, one) == map[];
    assert AcceptAll2(me, 2, one) == map[share.sender := share.body.m2];
    assert AcceptAll1(me, 2, two) == map[share.sender := late.body.m1];
    assert share.sender !in AcceptAll1(me, 2, one);
  }
}
