/**
 Runs of one machine. Whatever the schedule of calls, the machine is a function of the messages it
 has accepted; order, rejected messages, repeated calls and draining of the outbox do not matter.
 */
module MachineRuns {
  import opened Wrappers
  import opened Curves
  import opened Broadcast
  import opened Rounds
  import opened Machine

  // ---- the state as a function of the accepted messages ----

  /** The state reached from `p` with m1 and m2 accepted, written out case by case. */
  function Closed(c: Curve, p: Prepare, n: nat, m1: Store1, m2: Store2): Machine
    requires c.q > 0 && ValidIndex(p.myInd, n)
  {
    var me := p.myInd;
    var prepared := PrepareStep(c, p);
    if prepared.IsFailure() then Machine(me, n, Gone, Some(m1), Some(m2), [])
    else
      var r1, out1 := prepared.value.0, [Msg(me, None, FromRound1(prepared.value.1))];
      if !Full(me, n, m1) then Machine(me, n, InRound1(r1), Some(m1), Some(m2), out1)
      else
        var signed := SignedStep(c, r1, me, n, m1);
        if signed.IsFailure() then Machine(me, n, Gone, None, Some(m2), out1)
        else
          var r2, out2 := signed.value.0, out1 + [Msg(me, None, FromRound2(signed.value.1))];
          if !Full(me, n, m2) then Machine(me, n, InRound2(r2), None, Some(m2), out2)
          else
            var finished := FinishedStep(c, r2, me, n, m2);
            Machine(me, n, if finished.Ok? then Finished(finished.value) else Gone, None, None, out2)
  }

  /** The round 1 computation on a full store. */
  function SignedStep(c: Curve, r1: Round1, me: nat, n: nat, m1: Store1): Outcome<(Round2, MessageRound2)>
    requires c.q > 0 && ValidIndex(me, n) && r1.myInd >= 1 && Full(me, n, m1)
  {
    Round1Step(c, r1, BroadcastMsgs(me, Ascending(me, n, m1)))
  }

  /** The round 2 computation on a full store. */
  function FinishedStep(c: Curve, r2: Round2, me: nat, n: nat, m2: Store2): Outcome<SignResult>
    requires c.q > 0 && ValidIndex(me, n) && Full(me, n, m2)
  {
    Round2Step(c, r2, BroadcastMsgs(me, Ascending(me, n, m2)))
  }

  /** Proceeding from Prepare with both stores already filled gives the closed form. */
  lemma ProceedFromStores(c: Curve, p: Prepare, n: nat, m1: Store1, m2: Store2)
    requires c.q > 0 && ValidIndex(p.myInd, n)
    ensures Proceed(c, Machine(p.myInd, n, InPrepare(p), Some(m1), Some(m2), [])).0 == Closed(c, p, n, m1, m2)
  {
    hide Round1Step, Round2Step;
    var s := Machine(p.myInd, n, InPrepare(p), Some(m1), Some(m2), []);
    var prepared := PrepareStep(c, p);
    if prepared.Ok? {
      var s1 := s.(round := InRound1(prepared.value.0)).Broadcasting(FromRound1(prepared.value.1));
      assert s1.queue == [Msg(p.myInd, None, FromRound1(prepared.value.1))];
      assert Proceed(c, s) == Proceed(c, s1);
      ProceedFromRound1(c, s1);
    }
  }

  lemma ProceedFromRound1(c: Curve, s: Machine)
    requires c.q > 0 && s.WellFormed() && s.round.InRound1? && s.msgs1.Some? && s.msgs2.Some?
    ensures var t := Proceed(c, s).0;
            if !Full(s.me, s.n, s.msgs1.value) then t == s
            else
              var signed := SignedStep(c, s.round.round1, s.me, s.n, s.msgs1.value);
              if signed.IsFailure() then t == s.(round := Gone, msgs1 := None)
              else
                var u := s.(round := InRound2(signed.value.0), msgs1 := None);
                t == AfterRound2(c, u.Broadcasting(FromRound2(signed.value.1)))
  {
    hide Round1Step, Round2Step;
  }

  /** What happens in Round2 once everything in the store has been looked at. */
  function AfterRound2(c: Curve, s: Machine): Machine
    requires c.q > 0 && s.WellFormed() && s.round.InRound2? && s.msgs2.Some?
  {
    if !Full(s.me, s.n, s.msgs2.value) then s
    else
      var finished := FinishedStep(c, s.round.round2, s.me, s.n, s.msgs2.value);
      s.(round := if finished.Ok? then Finished(finished.value) else Gone, msgs2 := None)
  }

  /** A call with nothing new to work on changes nothing and returns Ok. */
  lemma ProceedIsIdle(c: Curve, p: Prepare, n: nat, m1: Store1, m2: Store2)
    requires c.q > 0 && ValidIndex(p.myInd, n)
    ensures Closed(c, p, n, m1, m2).WellFormed()
    ensures Proceed(c, Closed(c, p, n, m1, m2)) == (Closed(c, p, n, m1, m2), Done)
  {
    hide Round1Step, Round2Step;
  }

  // ---- accepting messages ----

  function Accept1(me: nat, n: nat, m: Store1, msg: Packet): Store1 {
    if msg.body.FromRound1? then Accept(me, n, m, Body1(msg)) else m
  }

  function Accept2(me: nat, n: nat, m: Store2, msg: Packet): Store2 {
    if msg.body.FromRound2? then Accept(me, n, m, Body2(msg)) else m
  }

  function AcceptAll1(me: nat, n: nat, msgs: seq<Packet>): Store1 {
    if msgs == [] then map[] else Accept1(me, n, AcceptAll1(me, n, msgs[..|msgs| - 1]), msgs[|msgs| - 1])
  }

  function AcceptAll2(me: nat, n: nat, msgs: seq<Packet>): Store2 {
    if msgs == [] then map[] else Accept2(me, n, AcceptAll2(me, n, msgs[..|msgs| - 1]), msgs[|msgs| - 1])
  }

  lemma {:induction false} AcceptAllWellKeyed(me: nat, n: nat, msgs: seq<Packet>)
    ensures WellKeyed(me, n, AcceptAll1(me, n, msgs)) && WellKeyed(me, n, AcceptAll2(me, n, msgs))
  {
    if msgs == [] {
    } else {
      AcceptAllWellKeyed(me, n, msgs[..|msgs| - 1]);
    }
  }

  /** One more message, valid or not, on a machine that has left Prepare: only acceptance counts. */
  lemma HandleOnClosed(c: Curve, p: Prepare, n: nat, m1: Store1, m2: Store2, msg: Packet)
    requires c.q > 0 && ValidIndex(p.myInd, n)
    ensures Closed(c, p, n, m1, m2).WellFormed()
    ensures Handle(c, Closed(c, p, n, m1, m2), msg).0 ==
            Closed(c, p, n, Accept1(p.myInd, n, m1, msg), Accept2(p.myInd, n, m2, msg))
  {
    hide Round1Step, Round2Step;
    var me := p.myInd;
    var s := Closed(c, p, n, m1, m2);
    if msg.body.FromRound1? {
      if Full(me, n, m1) {
        AcceptKeepsFull(me, n, m1, Body1(msg));
      }
      if s.msgs1.Some? && s.round.InRound1? && Push(me, n, m1, Body1(msg)).Accepted? {
        ProceedFromRound1(c, s.(msgs1 := Some(Accept1(me, n, m1, msg))));
      }
    } else {
      if Full(me, n, m2) {
        AcceptKeepsFull(me, n, m2, Body2(msg));
      }
      if s.msgs2.Some? && s.round.InRound1? && Push(me, n, m2, Body2(msg)).Accepted? {
        ProceedFromRound1(c, s.(msgs2 := Some(Accept2(me, n, m2, msg))));
      }
    }
  }

  /** The first message, arriving before `proceed` was ever called. */
  lemma HandleOnInit(c: Curve, p: Prepare, n: nat, msg: Packet)
    requires c.q > 0 && ValidIndex(p.myInd, n)
    ensures var m1, m2 := Accept1(p.myInd, n, map[], msg), Accept2(p.myInd, n, map[], msg);
            Handle(c, Init(p, n), msg).0 ==
            if m1 == map[] && m2 == map[] then Init(p, n) else Closed(c, p, n, m1, m2)
  {
    hide Round1Step, Round2Step;
    var m1, m2 := Accept1(p.myInd, n, map[], msg), Accept2(p.myInd, n, map[], msg);
    ProceedFromStores(c, p, n, m1, m2);
    if msg.body.FromRound1? && Push(p.myInd, n, map[], Body1(msg)).Accepted? {
      assert msg.sender in m1;
    }
    if msg.body.FromRound2? && Push(p.myInd, n, map[], Body2(msg)).Accepted? {
      assert msg.sender in m2;
    }
    if m1 != map[] || m2 != map[] {
      assert Init(p, n).(msgs1 := Some(m1), msgs2 := Some(m2)) ==
             Machine(p.myInd, n, InPrepare(p), Some(m1), Some(m2), []);
    }
  }

  // ---- the outbox does not influence the machine ----

  function Shift(out: seq<Packet>, s: Machine): Machine {
    s.(queue := out + s.queue)
  }

  lemma {:induction false} ProceedShift(c: Curve, out: seq<Packet>, s: Machine)
    requires c.q > 0 && s.WellFormed()
    ensures Shift(out, s).WellFormed()
    ensures Proceed(c, Shift(out, s)) == (Shift(out, Proceed(c, s).0), Proceed(c, s).1)
    decreases 3 - s.CurrentRound()
  {
    hide Round1Step, Round2Step;
    match s.round
    case InPrepare(p) =>
      var o := PrepareStep(c, p);
      if o.Ok? {
        var t := s.(round := InRound1(o.value.0)).Broadcasting(FromRound1(o.value.1));
        ProceedShift(c, out, t);
        BroadcastingShift(out, s.(round := InRound1(o.value.0)), FromRound1(o.value.1));
      }
    case InRound1(r) =>
      if !s.WantsMore1() && s.msgs1.Some? {
        var o := Round1Step(c, r, BroadcastMsgs(s.me, Ascending(s.me, s.n, s.msgs1.value)));
        if o.Ok? {
          var t := s.(msgs1 := None, round := InRound2(o.value.0));
          ProceedShift(c, out, t.Broadcasting(FromRound2(o.value.1)));
          BroadcastingShift(out, t, FromRound2(o.value.1));
        }
      }
    case _ =>
  }

  lemma BroadcastingShift(out: seq<Packet>, s: Machine, body: ProtocolMessage)
    ensures Shift(out, s).Broadcasting(body) == Shift(out, s.Broadcasting(body))
  {
    assert out + s.queue + [Msg(s.me, None, body)] == out + (s.queue + [Msg(s.me, None, body)]);
  }

  lemma HandleShift(c: Curve, out: seq<Packet>, s: Machine, msg: Packet)
    requires c.q > 0 && s.WellFormed()
    ensures Shift(out, s).WellFormed()
    ensures Handle(c, Shift(out, s), msg) == (Shift(out, Handle(c, s, msg).0), Handle(c, s, msg).1)
  {
    if msg.body.FromRound1? {
      if s.msgs1.Some? && Push(s.me, s.n, s.msgs1.value, Body1(msg)).Accepted? {
        ProceedShift(c, out, s.(msgs1 := Some(Push(s.me, s.n, s.msgs1.value, Body1(msg)).value)));
      }
    } else if s.msgs2.Some? && Push(s.me, s.n, s.msgs2.value, Body2(msg)).Accepted? {
      ProceedShift(c, out, s.(msgs2 := Some(Push(s.me, s.n, s.msgs2.value, Body2(msg)).value)));
    }
  }

  // ---- runs ----

  datatype Event = Call | Deliver(msg: Packet) | Drain

  /** A machine together with everything that was drained from its outbox so far. */
  datatype RunState = RunState(machine: Machine, drained: seq<Packet>)

  function RunStep(c: Curve, st: RunState, ev: Event): (r: RunState)
    requires c.q > 0 && st.machine.WellFormed()
  {
    match ev
    case Call => st.(machine := Proceed(c, st.machine).0)
    case Deliver(msg) => st.(machine := Handle(c, st.machine, msg).0)
    case Drain => RunState(st.machine.(queue := []), st.drained + st.machine.queue)
  }

  lemma {:induction false} ProceedWellFormed(c: Curve, s: Machine)
    requires c.q > 0 && s.WellFormed()
    ensures Proceed(c, s).0.WellFormed()
    decreases 3 - s.CurrentRound()
  {
    hide Round1Step, Round2Step;
    match s.round
    case InPrepare(p) =>
      var o := PrepareStep(c, p);
      if o.Ok? {
        ProceedWellFormed(c, s.(round := InRound1(o.value.0)).Broadcasting(FromRound1(o.value.1)));
      }
    case InRound1(r) =>
      if !s.WantsMore1() && s.msgs1.Some? {
        var o := Round1Step(c, r, BroadcastMsgs(s.me, Ascending(s.me, s.n, s.msgs1.value)));
        if o.Ok? {
          ProceedWellFormed(c, s.(msgs1 := None, round := InRound2(o.value.0)).Broadcasting(FromRound2(o.value.1)));
        }
      }
    case _ =>
  }

  lemma StepWellFormed(c: Curve, st: RunState, ev: Event)
    requires c.q > 0 && st.machine.WellFormed()
    ensures RunStep(c, st, ev).machine.WellFormed()
  {
    hide Proceed;
    ProceedWellFormed(c, st.machine);
    if ev.Deliver? {
      var s, msg := st.machine, ev.msg;
      if msg.body.FromRound1? && s.msgs1.Some? && Push(s.me, s.n, s.msgs1.value, Body1(msg)).Accepted? {
        ProceedWellFormed(c, s.(msgs1 := Some(Push(s.me, s.n, s.msgs1.value, Body1(msg)).value)));
      }
      if msg.body.FromRound2? && s.msgs2.Some? && Push(s.me, s.n, s.msgs2.value, Body2(msg)).Accepted? {
        ProceedWellFormed(c, s.(msgs2 := Some(Push(s.me, s.n, s.msgs2.value, Body2(msg)).value)));
      }
    }
  }

  ghost function Run(c: Curve, p: Prepare, n: nat, es: seq<Event>): (st: RunState)
    requires c.q > 0 && ValidIndex(p.myInd, n)
    ensures st.machine.WellFormed()
  {
    if es == [] then RunState(Init(p, n), [])
    else
      var before := Run(c, p, n, es[..|es| - 1]);
      StepWellFormed(c, before, es[|es| - 1]);
      RunStep(c, before, es[|es| - 1])
  }

  /** The machine invariant holds after every run. */
  lemma {:induction false} RunKeepsInv(c: Curve, p: Prepare, n: nat, es: seq<Event>)
    requires c.q > 0 && ValidIndex(p.myInd, n)
    ensures Inv(Run(c, p, n, es).machine)
    ensures Run(c, p, n, es).machine.me == p.myInd && Run(c, p, n, es).machine.n == n
  {
    hide Proceed, Handle;
    if es == [] {
    } else {
      var before, ev := es[..|es| - 1], es[|es| - 1];
      RunKeepsInv(c, p, n, before);
      ProceedKeepsInv(c, Run(c, p, n, before).machine);
      if ev.Deliver? {
        HandleKeepsInv(c, Run(c, p, n, before).machine, ev.msg);
      }
    }
  }

  /** The delivered messages, in order. */
  function Delivered(es: seq<Event>): seq<Packet> {
    if es == [] then []
    else Delivered(es[..|es| - 1]) + (if es[|es| - 1].Deliver? then [es[|es| - 1].msg] else [])
  }

  lemma DeliveredSnoc(es: seq<Event>, ev: Event)
    ensures Delivered(es + [ev]) == if ev.Deliver? then Delivered(es) + [ev.msg] else Delivered(es)
  {
    assert (es + [ev])[..|es + [ev]| - 1] == es;
    assert Delivered(es) + [] == Delivered(es);
  }

  /** The machine has left Prepare: it was called, or it accepted a message. */
  predicate Started(me: nat, n: nat, es: seq<Event>) {
    Call in es || AcceptAll1(me, n, Delivered(es)) != map[] || AcceptAll2(me, n, Delivered(es)) != map[]
  }

  /** The state as a function of what was accepted. */
  function NormalForm(c: Curve, p: Prepare, n: nat, started: bool, m1: Store1, m2: Store2): Machine
    requires c.q > 0 && ValidIndex(p.myInd, n)
  {
    if started then Closed(c, p, n, m1, m2) else Init(p, n)
  }

  /**
   After any run whatsoever, the machine with its drained output put back equals the closed form on
   the accepted messages.
   */
  lemma {:induction false} RunHasNormalForm(c: Curve, p: Prepare, n: nat, es: seq<Event>)
    requires c.q > 0 && ValidIndex(p.myInd, n)
    ensures var st := Run(c, p, n, es);
            Shift(st.drained, st.machine) ==
            NormalForm(c, p, n, Started(p.myInd, n, es), AcceptAll1(p.myInd, n, Delivered(es)),
                       AcceptAll2(p.myInd, n, Delivered(es)))
  {
    if es == [] {
    } else {
      var before, ev := es[..|es| - 1], es[|es| - 1];
      assert es == before + [ev];
      RunHasNormalForm(c, p, n, before);
      StepOnNormalForm(c, p, n, before, ev);
    }
  }

  lemma StepOnNormalForm(c: Curve, p: Prepare, n: nat, before: seq<Event>, ev: Event)
    requires c.q > 0 && ValidIndex(p.myInd, n)
    requires var st := Run(c, p, n, before);
             Shift(st.drained, st.machine) ==
             NormalForm(c, p, n, Started(p.myInd, n, before), AcceptAll1(p.myInd, n, Delivered(before)),
                        AcceptAll2(p.myInd, n, Delivered(before)))
    ensures var es := before + [ev];
            var st := Run(c, p, n, es);
            Shift(st.drained, st.machine) ==
            NormalForm(c, p, n, Started(p.myInd, n, es), AcceptAll1(p.myInd, n, Delivered(es)),
                       AcceptAll2(p.myInd, n, Delivered(es)))
  {
    hide Proceed, Handle, Closed, Push, PrepareStep;
    var es := before + [ev];
    assert es[..|es| - 1] == before && es[|es| - 1] == ev;
    var st := Run(c, p, n, before);
    var me, old1, old2 := p.myInd, AcceptAll1(p.myInd, n, Delivered(before)), AcceptAll2(p.myInd, n, Delivered(before));
    match ev {
      case Call =>
        assert Delivered(es) == Delivered(before);
        assert Call in es;
        ProceedShift(c, st.drained, st.machine);
        ProceedFromStores(c, p, n, map[], map[]);
        ProceedIsIdle(c, p, n, old1, old2);
      case Deliver(msg) =>
        assert Delivered(es)[..|Delivered(es)| - 1] == Delivered(before);
        assert Call in es <==> Call in before;
        HandleShift(c, st.drained, st.machine, msg);
        HandleOnClosed(c, p, n, old1, old2, msg);
        HandleOnInit(c, p, n, msg);
        AcceptGrows(me, n, old1, old2, msg);
      case Drain =>
        assert Delivered(es) == Delivered(before);
        assert Call in es <==> Call in before;
        assert st.drained + st.machine.queue + [] == st.drained + st.machine.queue;
    }
  }

  lemma AcceptGrows(me: nat, n: nat, m1: Store1, m2: Store2, msg: Packet)
    ensures m1 != map[] ==> Accept1(me, n, m1, msg) != map[]
    ensures m2 != map[] ==> Accept2(me, n, m2, msg) != map[]
  {
    if m1 != map[] {
      var k :| k in m1;
      assert k in Accept1(me, n, m1, msg);
    }
    if m2 != map[] {
      var k :| k in m2;
      assert k in Accept2(me, n, m2, msg);
    }
  }

  /** What a party broadcasts in round 1 and, once it has all messages, in round 2. */
  ghost predicate IsOutbox(c: Curve, p: Prepare, n: nat, m1: Store1, out: seq<Packet>)
    requires c.q > 0 && ValidIndex(p.myInd, n)
  {
    || out == []
    || (&& PrepareStep(c, p).Ok?
        && var (r1, b1) := PrepareStep(c, p).value;
           || out == [Msg(p.myInd, None, FromRound1(b1))]
           || (&& Full(p.myInd, n, m1) && SignedStep(c, r1, p.myInd, n, m1).Ok?
               && out == [Msg(p.myInd, None, FromRound1(b1)),
                          Msg(p.myInd, None, FromRound2(SignedStep(c, r1, p.myInd, n, m1).value.1))]))
  }

  /**
   Over every run, what was drained and what is still queued together are a prefix of one round 1
   broadcast and one round 2 broadcast, the second only after all n-1 round 1 messages were
   accepted and the round 1 computation succeeded on them.
   */
  lemma OutboxDiscipline(c: Curve, p: Prepare, n: nat, es: seq<Event>)
    requires c.q > 0 && ValidIndex(p.myInd, n)
    ensures IsOutbox(c, p, n, AcceptAll1(p.myInd, n, Delivered(es)),
                     Run(c, p, n, es).drained + Run(c, p, n, es).machine.queue)
  {
    RunHasNormalForm(c, p, n, es);
    hide PrepareStep, Round1Step, Round2Step, Run;
    var m1, m2 := AcceptAll1(p.myInd, n, Delivered(es)), AcceptAll2(p.myInd, n, Delivered(es));
    var st := Run(c, p, n, es);
    assert Shift(st.drained, st.machine).queue == st.drained + st.machine.queue;
    ClosedQueue(c, p, n, m1, m2);
  }

  lemma ClosedQueue(c: Curve, p: Prepare, n: nat, m1: Store1, m2: Store2)
    requires c.q > 0 && ValidIndex(p.myInd, n)
    ensures IsOutbox(c, p, n, m1, Closed(c, p, n, m1, m2).queue)
  {
    var prepared := PrepareStep(c, p);
    if prepared.Ok? {
      var r1, b1 := prepared.value.0, prepared.value.1;
      hide Round1Step, Round2Step;
      if Full(p.myInd, n, m1) && SignedStep(c, r1, p.myInd, n, m1).Ok? {
        var b2 := SignedStep(c, r1, p.myInd, n, m1).value.1;
        assert [Msg(p.myInd, None, FromRound1(b1))] + [Msg(p.myInd, None, FromRound2(b2))] ==
               [Msg(p.myInd, None, FromRound1(b1)), Msg(p.myInd, None, FromRound2(b2))];
      }
    }
  }

  // ---- confluence ----

  predicate SameSlot(a: Packet, b: Packet) {
    a.sender == b.sender && a.body.FromRound1? == b.body.FromRound1?
  }

  /** Broadcasts of other parties, at most one of each round from each of them. */
  predicate ValidBatch(me: nat, n: nat, msgs: seq<Packet>) {
    && (forall i :: 0 <= i < |msgs| ==> msgs[i].receiver.None? && IsOther(me, n, msgs[i].sender))
    && (forall i, j :: 0 <= i < j < |msgs| ==> !SameSlot(msgs[i], msgs[j]))
  }

  ghost predicate Holds<B(!new)>(m: map<nat, B>, k: nat, b: B) {
    k in m && m[k] == b
  }

  /** In a valid batch every round 1 message is accepted, and nothing else is in the store. */
  lemma {:induction false} BatchAccepted1(me: nat, n: nat, msgs: seq<Packet>, k: nat, b: MessageRound1)
    requires ValidBatch(me, n, msgs)
    ensures Holds(AcceptAll1(me, n, msgs), k, b) <==> Msg(k, None, FromRound1(b)) in msgs
  {
    if msgs == [] {
    } else {
      var before, last := msgs[..|msgs| - 1], msgs[|msgs| - 1];
      BatchAccepted1(me, n, before, k, b);
      assert msgs == before + [last];
      var old1 := AcceptAll1(me, n, before);
      if last.body.FromRound1? && last.sender == k {
        if k in old1 {
          BatchAccepted1(me, n, before, k, old1[k]);
        }
        assert last == Msg(k, None, FromRound1(last.body.m1));
      }
    }
  }

  lemma {:induction false} BatchAccepted2(me: nat, n: nat, msgs: seq<Packet>, k: nat, b: MessageRound2)
    requires ValidBatch(me, n, msgs)
    ensures Holds(AcceptAll2(me, n, msgs), k, b) <==> Msg(k, None, FromRound2(b)) in msgs
  {
    if msgs == [] {
    } else {
      var before, last := msgs[..|msgs| - 1], msgs[|msgs| - 1];
      BatchAccepted2(me, n, before, k, b);
      assert msgs == before + [last];
      var old2 := AcceptAll2(me, n, before);
      if last.body.FromRound2? && last.sender == k {
        if k in old2 {
          BatchAccepted2(me, n, before, k, old2[k]);
        }
        assert last == Msg(k, None, FromRound2(last.body.m2));
      }
    }
  }

  lemma SameGraph<B(!new)>(m: map<nat, B>, m': map<nat, B>)
    requires forall k, b :: Holds(m, k, b) <==> Holds(m', k, b)
    ensures m == m'
  {
    forall k: nat | k in m
      ensures k in m' && m'[k] == m[k]
    {
      assert Holds(m, k, m[k]);
      assert Holds(m', k, m[k]);
    }
    forall k: nat | k in m'
      ensures k in m
    {
      assert Holds(m', k, m'[k]);
      assert Holds(m, k, m'[k]);
    }
  }

  lemma BatchStores(me: nat, n: nat, ms: seq<Packet>, ms': seq<Packet>)
    requires ValidBatch(me, n, ms) && ValidBatch(me, n, ms') && multiset(ms) == multiset(ms')
    ensures AcceptAll1(me, n, ms) == AcceptAll1(me, n, ms') && AcceptAll2(me, n, ms) == AcceptAll2(me, n, ms')
  {
    hide AcceptAll1, AcceptAll2, ValidBatch;
    forall m: Packet
      ensures m in ms <==> m in ms'
    {
      assert m in ms <==> m in multiset(ms);
      assert m in ms' <==> m in multiset(ms');
    }
    forall k, b
      ensures Holds(AcceptAll1(me, n, ms), k, b) <==> Holds(AcceptAll1(me, n, ms'), k, b)
    {
      BatchAccepted1(me, n, ms, k, b);
      BatchAccepted1(me, n, ms', k, b);
    }
    forall k, b
      ensures Holds(AcceptAll2(me, n, ms), k, b) <==> Holds(AcceptAll2(me, n, ms'), k, b)
    {
      BatchAccepted2(me, n, ms, k, b);
      BatchAccepted2(me, n, ms', k, b);
    }
    SameGraph(AcceptAll1(me, n, ms), AcceptAll1(me, n, ms'));
    SameGraph(AcceptAll2(me, n, ms), AcceptAll2(me, n, ms'));
  }

  /**
   Confluence: two runs that deliver the same valid messages in any two orders, with calls and
   drains anywhere, end in the same round with the same stores and the same total output. Only runs
   that deliver nothing differ, by whether they ever call `proceed`.
   */
  lemma Confluence(c: Curve, p: Prepare, n: nat, es: seq<Event>, es': seq<Event>)
    requires c.q > 0 && ValidIndex(p.myInd, n)
    requires ValidBatch(p.myInd, n, Delivered(es)) && ValidBatch(p.myInd, n, Delivered(es'))
    requires multiset(Delivered(es)) == multiset(Delivered(es'))
    requires Delivered(es) == [] ==> (Call in es <==> Call in es')
    ensures var st, st' := Run(c, p, n, es), Run(c, p, n, es');
            Shift(st.drained, st.machine) == Shift(st'.drained, st'.machine)
  {
    hide Run, Closed, ValidBatch, AcceptAll1, AcceptAll2, Delivered;
    RunHasNormalForm(c, p, n, es);
    RunHasNormalForm(c, p, n, es');
    BatchStores(p.myInd, n, Delivered(es), Delivered(es'));
    if Delivered(es) != [] {
      assert |multiset(Delivered(es))| == |multiset(Delivered(es'))|;
      BatchStarts(p.myInd, n, Delivered(es));
      BatchStarts(p.myInd, n, Delivered(es'));
    } else {
      assert |multiset(Delivered(es'))| == 0;
    }
  }

  /** A nonempty valid batch leaves something in a store. */
  lemma BatchStarts(me: nat, n: nat, msgs: seq<Packet>)
    requires ValidBatch(me, n, msgs) && msgs != []
    ensures AcceptAll1(me, n, msgs) != map[] || AcceptAll2(me, n, msgs) != map[]
  {
    var m := msgs[0];
    match m.body
    case FromRound1(b) =>
      BatchAccepted1(me, n, msgs, m.sender, b);
      assert m == Msg(m.sender, None, FromRound1(b));
    case FromRound2(b) =>
      BatchAccepted2(me, n, msgs, m.sender, b);
      assert m == Msg(m.sender, None, FromRound2(b));
  }

  lemma RunSnoc(c: Curve, p: Prepare, n: nat, es: seq<Event>, ev: Event)
    requires c.q > 0 && ValidIndex(p.myInd, n)
    ensures Run(c, p, n, es + [ev]) == RunStep(c, Run(c, p, n, es), ev)
  {
    hide RunStep;
    assert (es + [ev])[..|es + [ev]| - 1] == es;
  }

  /** A delivery that was refused can be deleted from a run without a trace. */
  lemma {:induction false} RefusedLeavesNoTrace(c: Curve, p: Prepare, n: nat, pre: seq<Event>, msg: Packet,
                                                post: seq<Event>)
    requires c.q > 0 && ValidIndex(p.myInd, n)
    requires Handle(c, Run(c, p, n, pre).machine, msg).1.Failed?
    requires !Handle(c, Run(c, p, n, pre).machine, msg).1.error.ProceedRound?
    ensures Run(c, p, n, pre + [Deliver(msg)] + post) == Run(c, p, n, pre + post)
    decreases |post|
  {
    hide Run, Handle, Proceed;
    if post == [] {
      assert pre + [Deliver(msg)] + [] == pre + [Deliver(msg)];
      assert pre + [] == pre;
      RunSnoc(c, p, n, pre, Deliver(msg));
      ProceedErrors(c, Run(c, p, n, pre).machine, msg);
    } else {
      var init, last := post[..|post| - 1], post[|post| - 1];
      RefusedLeavesNoTrace(c, p, n, pre, msg, init);
      assert post == init + [last];
      assert pre + [Deliver(msg)] + post == (pre + [Deliver(msg)] + init) + [last];
      assert pre + post == (pre + init) + [last];
      RunSnoc(c, p, n, pre + [Deliver(msg)] + init, last);
      RunSnoc(c, p, n, pre + init, last);
    }
  }

  /** A refused message (of either kind of refusal) leaves the machine as it was. */
  lemma ProceedErrors(c: Curve, s: Machine, msg: Packet)
    requires c.q > 0 && s.WellFormed()
    requires Handle(c, s, msg).1.Failed? && !Handle(c, s, msg).1.error.ProceedRound?
    ensures Handle(c, s, msg).0 == s
  {
    hide Proceed;
    if msg.body.FromRound1? && s.msgs1.Some? && Push(s.me, s.n, s.msgs1.value, Body1(msg)).Accepted? {
      OnlyProceedErrors(c, s.(msgs1 := Some(Push(s.me, s.n, s.msgs1.value, Body1(msg)).value)));
    }
    if msg.body.FromRound2? && s.msgs2.Some? && Push(s.me, s.n, s.msgs2.value, Body2(msg)).Accepted? {
      OnlyProceedErrors(c, s.(msgs2 := Some(Push(s.me, s.n, s.msgs2.value, Body2(msg)).value)));
    }
  }

  lemma {:induction false} OnlyProceedErrors(c: Curve, s: Machine)
    requires c.q > 0 && s.WellFormed()
    ensures Proceed(c, s).1.Failed? ==> Proceed(c, s).1.error == ProceedRound(Musig2Failure)
    decreases 3 - s.CurrentRound()
  {
    hide Round1Step, Round2Step;
    match s.round
    case InPrepare(p) =>
      var o := PrepareStep(c, p);
      if o.Ok? {
        OnlyProceedErrors(c, s.(round := InRound1(o.value.0)).Broadcasting(FromRound1(o.value.1)));
      }
    case InRound1(r) =>
      if !s.WantsMore1() && s.msgs1.Some? {
        var o := Round1Step(c, r, BroadcastMsgs(s.me, Ascending(s.me, s.n, s.msgs1.value)));
        if o.Ok? {
          OnlyProceedErrors(c, s.(msgs1 := None, round := InRound2(o.value.0)).Broadcasting(FromRound2(o.value.1)));
        }
      }
    case _ =>
  }
}
