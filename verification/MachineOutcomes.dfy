/**
 How each call of the machine ends: which computation it reaches, what it reports of it, and what is
 left of the round, the stores and the outbox.
 */
module MachineOutcomes {
  import opened Wrappers
  import opened Arith
  import opened Curves
  import opened Keys
  import opened Musig2
  import opened SignatureTheory
  import opened SignatureCorrectness
  import opened Broadcast
  import opened Rounds
  import opened Machine
  import opened MachineRuns
  import opened RoundTwoOutcome
  import opened RoundOneOutcome

  // ---- which computations a call reaches ----

  /** The call gets to round 1, possibly through Prepare. */
  ghost predicate GetsTo1(c: Curve, s: Machine) {
    s.round.InRound1? || (s.round.InPrepare? && PrepareStep(c, s.round.prepare).Ok?)
  }

  ghost function Round1Of(c: Curve, s: Machine): Round1
    requires GetsTo1(c, s)
  {
    if s.round.InRound1? then s.round.round1 else PrepareStep(c, s.round.prepare).value.0
  }

  /** It computes round 1: all round 1 messages are there. */
  ghost predicate Computes1(c: Curve, s: Machine) {
    GetsTo1(c, s) && s.msgs1.Some? && Full(s.me, s.n, s.msgs1.value)
  }

  ghost function Computation1(c: Curve, s: Machine): Outcome<(Round2, MessageRound2)>
    requires c.q > 0 && s.WellFormed() && Computes1(c, s)
  {
    Round1Step(c, Round1Of(c, s), BroadcastMsgs(s.me, Ascending(s.me, s.n, s.msgs1.value)))
  }

  ghost predicate GetsTo2(c: Curve, s: Machine)
    requires c.q > 0 && s.WellFormed()
  {
    s.round.InRound2? || (Computes1(c, s) && Computation1(c, s).Ok?)
  }

  ghost function Round2Of(c: Curve, s: Machine): Round2
    requires c.q > 0 && s.WellFormed() && GetsTo2(c, s)
  {
    if s.round.InRound2? then s.round.round2 else Computation1(c, s).value.0
  }

  /** It computes round 2: all round 2 messages are there. */
  ghost predicate Computes2(c: Curve, s: Machine)
    requires c.q > 0 && s.WellFormed()
  {
    GetsTo2(c, s) && s.msgs2.Some? && Full(s.me, s.n, s.msgs2.value)
  }

  ghost function Computation2(c: Curve, s: Machine): Outcome<SignResult>
    requires c.q > 0 && s.WellFormed() && Computes2(c, s)
  {
    Round2Step(c, Round2Of(c, s), BroadcastMsgs(s.me, Ascending(s.me, s.n, s.msgs2.value)))
  }

  /** How a computation goes wrong, and in which round. */
  datatype Fault = NoFault | ErrorIn(round: nat) | PanicIn(round: nat, cause: PanicCause)

  function FaultIn<T>(round: nat, o: Outcome<T>): Fault {
    match o
    case Ok(_) => NoFault
    case Err(_) => ErrorIn(round)
    case Panic(cause) => PanicIn(round, cause)
  }

  /** The first computation that goes wrong, among those the call reaches. */
  ghost function FaultOf(c: Curve, s: Machine): Fault
    requires c.q > 0 && s.WellFormed()
  {
    if s.round.InPrepare? && !PrepareStep(c, s.round.prepare).Ok? then FaultIn(0, PrepareStep(c, s.round.prepare))
    else if Computes1(c, s) && !Computation1(c, s).Ok? then FaultIn(1, Computation1(c, s))
    else if Computes2(c, s) then FaultIn(2, Computation2(c, s))
    else NoFault
  }

  /** What the call adds to the outbox. */
  ghost function Emitted(c: Curve, s: Machine): seq<Packet>
    requires c.q > 0 && s.WellFormed()
  {
    (if s.round.InPrepare? && PrepareStep(c, s.round.prepare).Ok?
     then [Msg(s.me, None, FromRound1(PrepareStep(c, s.round.prepare).value.1))] else []) +
    (if Computes1(c, s) && Computation1(c, s).Ok?
     then [Msg(s.me, None, FromRound2(Computation1(c, s).value.1))] else [])
  }

  /** Where the call leaves the machine, if nothing goes wrong. */
  ghost function RoundReached(c: Curve, s: Machine): Round
    requires c.q > 0 && s.WellFormed() && FaultOf(c, s) == NoFault
  {
    if Computes2(c, s) then Finished(Computation2(c, s).value)
    else if GetsTo2(c, s) then InRound2(Round2Of(c, s))
    else if GetsTo1(c, s) then InRound1(Round1Of(c, s))
    else s.round
  }

  ghost predicate Ends(c: Curve, s: Machine, t: Machine, status: Status)
    requires c.q > 0 && s.WellFormed()
  {
    && (match FaultOf(c, s)
        case NoFault => status == Done && t.round == RoundReached(c, s)
        case ErrorIn(_) => status == Failed(InstanceError.ProceedRound(Musig2Failure)) && t.round == Gone
        case PanicIn(_, cause) => status == Panicked(cause) && t.round == Gone)
    && t.me == s.me && t.n == s.n && t.queue == s.queue + Emitted(c, s)
    && t.msgs1 == (if Computes1(c, s) then None else s.msgs1)
    && t.msgs2 == (if Computes2(c, s) then None else s.msgs2)
  }

  /**
   A call of `proceed_round` panics exactly when a computation that it reaches panics, and with that
   panic; it fails exactly when one returns an error, and otherwise returns Ok. A store is used up
   exactly when its round is computed, and each round completed emits its broadcast.
   */
  lemma ProceedEnds(c: Curve, s: Machine)
    requires c.q > 0 && Inv(s)
    ensures Ends(c, s, Proceed(c, s).0, Proceed(c, s).1)
  {
    hide Round1Step, Round2Step;
    match s.round
    case InPrepare(p) =>
      PrepareEnds(c, s);
    case InRound1(r) =>
      Round1Ends(c, s);
    case _ =>
      assert s.queue + [] == s.queue;
  }

  lemma Round1Ends(c: Curve, s: Machine)
    requires c.q > 0 && Inv(s) && s.round.InRound1?
    ensures Ends(c, s, Proceed(c, s).0, Proceed(c, s).1)
  {
    hide Round1Step, Round2Step, PrepareStep;
    assert s.queue + [] == s.queue;
    if Computes1(c, s) && Computation1(c, s).Ok? {
      var o := Computation1(c, s);
      var u := s.(msgs1 := None, round := InRound2(o.value.0)).Broadcasting(FromRound2(o.value.1));
      assert Proceed(c, s) == Proceed(c, u);
      assert [] + [Msg(s.me, None, FromRound2(o.value.1))] == [Msg(s.me, None, FromRound2(o.value.1))];
    }
  }

  lemma PrepareEnds(c: Curve, s: Machine)
    requires c.q > 0 && Inv(s) && s.round.InPrepare?
    ensures Ends(c, s, Proceed(c, s).0, Proceed(c, s).1)
  {
    var o := PrepareStep(c, s.round.prepare);
    assert s.queue + [] == s.queue;
    if o.Ok? {
      var u := s.(round := InRound1(o.value.0)).Broadcasting(FromRound1(o.value.1));
      assert Inv(u) && Proceed(c, s) == Proceed(c, u);
      hide Round1Step, Round2Step, PrepareStep, Proceed;
      Round1Ends(c, u);
      assert Computes1(c, u) == Computes1(c, s) && Computes2(c, u) == Computes2(c, s);
      assert FaultOf(c, u) == FaultOf(c, s);
      assert s.queue + [Msg(s.me, None, FromRound1(o.value.1))] + Emitted(c, u) == s.queue + Emitted(c, s);
    }
  }

  // ---- incoming messages ----

  /** The machine with this round 1 message accepted, and then what a call makes of it. */
  ghost predicate Takes1(c: Curve, s: Machine, m: Store1, t: Machine, status: Status)
    requires c.q > 0 && s.WellFormed()
  {
    Ends(c, s.(msgs1 := Some(m)), t, status)
  }

  ghost predicate Takes2(c: Curve, s: Machine, m: Store2, t: Machine, status: Status)
    requires c.q > 0 && s.WellFormed()
  {
    Ends(c, s.(msgs2 := Some(m)), t, status)
  }

  /**
   A message whose store is gone is out of order, and is reported with the current round and, for
   either kind of message, with message round 1.
   */
  ghost predicate OutOfOrder(s: Machine, t: Machine, status: Status) {
    t == s && status.Failed? && status.error.OutOfOrderMsg? && status.error.msgRound == 1 &&
    status.error.currentRound == (match s.round
                                  case InPrepare(_) => 0
                                  case InRound1(_) => 1
                                  case InRound2(_) => 2
                                  case Finished(_) => 3
                                  case Gone => 3)
  }

  /** A refused message changes nothing and is reported with the answer of the store. */
  ghost predicate Refused(s: Machine, t: Machine, status: Status, error: StoreErr) {
    t == s && status == Failed(HandleMsg(error))
  }

  ghost predicate Handled1(c: Curve, s: Machine, msg: Msg<MessageRound1>, t: Machine, status: Status)
    requires c.q > 0 && s.WellFormed()
  {
    if s.msgs1.None? then OutOfOrder(s, t, status)
    else forall answer :: IsAnswer(s.me, s.n, s.msgs1.value, msg, answer) ==>
      match answer
      case Accepted(m) => Takes1(c, s, m, t, status)
      case Rejected(e) => Refused(s, t, status, e)
  }

  ghost predicate Handled2(c: Curve, s: Machine, msg: Msg<MessageRound2>, t: Machine, status: Status)
    requires c.q > 0 && s.WellFormed()
  {
    if s.msgs2.None? then OutOfOrder(s, t, status)
    else forall answer :: IsAnswer(s.me, s.n, s.msgs2.value, msg, answer) ==>
      match answer
      case Accepted(m) => Takes2(c, s, m, t, status)
      case Rejected(e) => Refused(s, t, status, e)
  }

  ghost predicate Handled(c: Curve, s: Machine, msg: Packet, t: Machine, status: Status)
    requires c.q > 0 && s.WellFormed()
  {
    match msg.body
    case FromRound1(b) => Handled1(c, s, Msg(msg.sender, msg.receiver, b), t, status)
    case FromRound2(b) => Handled2(c, s, Msg(msg.sender, msg.receiver, b), t, status)
  }

  /** How an incoming message ends, by the answer of its store. */
  lemma HandleEnds(c: Curve, s: Machine, msg: Packet)
    requires c.q > 0 && Inv(s)
    ensures Handled(c, s, msg, Handle(c, s, msg).0, Handle(c, s, msg).1)
  {
    hide Proceed, Ends, IsAnswer;
    match msg.body
    case FromRound1(b) =>
      if s.msgs1.Some? {
        var m := Msg(msg.sender, msg.receiver, b);
        var push := Push(s.me, s.n, s.msgs1.value, m);
        PushAnswers(s.me, s.n, s.msgs1.value, m);
        forall answer | IsAnswer(s.me, s.n, s.msgs1.value, m, answer)
          ensures answer == push
        {
          AnswerIsDetermined(s.me, s.n, s.msgs1.value, m, answer, push);
        }
        if push.Accepted? {
          ProceedEnds(c, s.(msgs1 := Some(push.value)));
        }
      }
    case FromRound2(b) =>
      if s.msgs2.Some? {
        var m := Msg(msg.sender, msg.receiver, b);
        var push := Push(s.me, s.n, s.msgs2.value, m);
        PushAnswers(s.me, s.n, s.msgs2.value, m);
        forall answer | IsAnswer(s.me, s.n, s.msgs2.value, m, answer)
          ensures answer == push
        {
          AnswerIsDetermined(s.me, s.n, s.msgs2.value, m, answer, push);
        }
        if push.Accepted? {
          ProceedEnds(c, s.(msgs2 := Some(push.value)));
        }
      }
  }

  /** A valid new message is stored, and then it is as if the machine had been called. */
  lemma Accepted1IsCall(c: Curve, s: Machine, msg: Packet)
    requires c.q > 0 && Inv(s) && msg.body.FromRound1? && s.msgs1.Some?
    requires msg.receiver.None? && IsOther(s.me, s.n, msg.sender) && msg.sender !in s.msgs1.value
    ensures s.WellFormed() && Inv(s.(msgs1 := Some(s.msgs1.value[msg.sender := msg.body.m1])))
    ensures Handle(c, s, msg) == Proceed(c, s.(msgs1 := Some(s.msgs1.value[msg.sender := msg.body.m1])))
  {
    hide Proceed;
  }

  lemma Accepted2IsCall(c: Curve, s: Machine, msg: Packet)
    requires c.q > 0 && Inv(s) && msg.body.FromRound2? && s.msgs2.Some?
    requires msg.receiver.None? && IsOther(s.me, s.n, msg.sender) && msg.sender !in s.msgs2.value
    ensures s.WellFormed() && Inv(s.(msgs2 := Some(s.msgs2.value[msg.sender := msg.body.m2])))
    ensures Handle(c, s, msg) == Proceed(c, s.(msgs2 := Some(s.msgs2.value[msg.sender := msg.body.m2])))
  {
    hide Proceed;
  }

  /**
   The last share in Round2, honest or not: a fragment that is no scalar, or a vanishing partial sum,
   is an error; a sum that does not verify is a panic; one that does is the result.
   */
  lemma LastShareEnds(c: Curve, s: Machine, msg: Packet)
    requires c.Valid() && Inv(s) && s.round.InRound2? && msg.body.FromRound2?
    requires c.OnCurve(s.round.round2.r) && s.round.round2.state2.s < c.q
    requires msg.receiver.None? && IsOther(s.me, s.n, msg.sender) && s.msgs2.Some? && msg.sender !in s.msgs2.value
    requires Full(s.me, s.n, s.msgs2.value[msg.sender := msg.body.m2])
    ensures var r := s.round.round2;
            var msgs := Ascending(s.me, s.n, s.msgs2.value[msg.sender := msg.body.m2]);
            var (t, status) := Handle(c, s, msg);
            && (status == Failed(InstanceError.ProceedRound(Musig2Failure)) <==>
                  forall shares :: !Combine(c, r.state2.s, msgs, shares))
            && (forall shares :: Combine(c, r.state2.s, msgs, shares) ==>
                  if RoundTwoOutcome.Accepted(c, r, shares)
                  then status == Done && t.round == Finished(SignResult(r.r, SignatureOf(c, r, shares).s, r.commit))
                  else status == Panicked(CauseOf(c, r)) && t.round == Gone)
  {
    hide Curve.Valid, Curve.OnCurve, Round1Step, Round2Step, PrepareStep, Combine, RoundTwoOutcome.Accepted, Proceed,
         Handle, Inv;
    FieldFits(c);
    Accepted2IsCall(c, s, msg);
    var m := s.msgs2.value[msg.sender := msg.body.m2];
    var r := s.round.round2;
    var input := BroadcastMsgs(s.me, Ascending(s.me, s.n, m));
    var s' := s.(msgs2 := Some(m));
    Round2Outcome(c, r, input);
    ProceedEnds(c, s');
    assert FaultOf(c, s') == FaultIn(2, Round2Step(c, r, input));
  }

  /** The last round 1 message panics the call when a key or a nonce that is then read is not 65 bytes. */
  lemma MalformedKeyPanics(c: Curve, s: Machine, msg: Packet)
    requires c.Valid() && Inv(s) && s.round.InRound1? && msg.body.FromRound1?
    requires Consistent(c, s.round.round1.state1) && c.OnCurve(s.round.round1.keyPair.pub)
    requires msg.receiver.None? && IsOther(s.me, s.n, msg.sender) && s.msgs1.Some? && msg.sender !in s.msgs1.value
    requires Full(s.me, s.n, s.msgs1.value[msg.sender := msg.body.m1])
    requires !WellSized(Ascending(s.me, s.n, s.msgs1.value[msg.sender := msg.body.m1]))
    ensures Handle(c, s, msg).1 == Panicked(SliceLengthMismatch) && Handle(c, s, msg).0.round == Gone
  {
    hide Curve.Valid, Curve.OnCurve, Consistent, Round1Step, Round2Step, PrepareStep, WellSized, Proceed, EndsOn,
         Handle, Inv;
    FieldFits(c);
    Accepted1IsCall(c, s, msg);
    var m := s.msgs1.value[msg.sender := msg.body.m1];
    var input := BroadcastMsgs(s.me, Ascending(s.me, s.n, m));
    var s' := s.(msgs1 := Some(m));
    Round1Outcome(c, s.round.round1, input);
    ProceedEnds(c, s');
    assert FaultOf(c, s') == PanicIn(1, SliceLengthMismatch);
  }

  // ---- the output ----

  /** The outputs of picking k times. */
  ghost function Picks(s: Machine, k: nat): (outputs: seq<Option<PickResult>>)
    ensures |outputs| == k
    decreases k
  {
    if k == 0 then [] else [Pick(s).1] + Picks(Pick(s).0, k - 1)
  }

  /** A result is handed out once, and every later pick is a critical error; before that there is none. */
  lemma {:induction false} OnlyFirstPick(s: Machine, k: nat)
    ensures s.round.Finished? && k > 0 ==> Picks(s, k)[0] == Some(Picked(s.round.result))
    ensures s.round.Finished? ==> forall i :: 1 <= i < k ==> Picks(s, k)[i] == Some(PickFailed(DoublePickResult))
    ensures s.round.Gone? ==> forall i :: 0 <= i < k ==> Picks(s, k)[i] == Some(PickFailed(DoublePickResult))
    ensures !s.round.Finished? && !s.round.Gone? ==> forall i :: 0 <= i < k ==> Picks(s, k)[i] == None
    ensures InstanceError.DoublePickResult.IsCritical()
    decreases k
  {
    if k == 0 {
    } else {
      OnlyFirstPick(Pick(s).0, k - 1);
    }
  }
}
