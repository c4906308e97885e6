/**
 The per-party round machine as a function on values: what one call does to the round, the two
 message stores (as maps from sender to body) and the outbox.
 */
module Machine {
  import opened Wrappers
  import opened Curves
  import opened Broadcast
  import opened Rounds

  datatype ProtocolMessage = FromRound1(m1: MessageRound1) | FromRound2(m2: MessageRound2)

  type Packet = Msg<ProtocolMessage>

  datatype Round =
    | InPrepare(prepare: Prepare)
    | InRound1(round1: Round1)
    | InRound2(round2: Round2)
    | Finished(result: SignResult)
    | Gone

  datatype ProceedError = PartiesDidntRevealItsSeed(partyInd: seq<nat>) | Musig2Failure

  datatype InstanceError =
    | ProceedRound(error: ProceedError)
    | HandleMsg(storeError: StoreErr)
    | OutOfOrderMsg(currentRound: nat, msgRound: nat)
    | DoublePickResult
  {
    predicate IsCritical() {
      !HandleMsg?
    }
  }

  /** How a call ends: Ok, an error, a panic in a round computation, or the "store gone" panic. */
  datatype Status = Done | Failed(error: InstanceError) | Panicked(cause: PanicCause) | StoreGone

  type Store1 = map<nat, MessageRound1>
  type Store2 = map<nat, MessageRound2>

  datatype Machine = Machine(me: nat, n: nat, round: Round, msgs1: Option<Store1>, msgs2: Option<Store2>,
                             queue: seq<Packet>)
  {
    predicate WellFormed() {
      && ValidIndex(me, n)
      && (round.InPrepare? ==> round.prepare.myInd == me)
      && (round.InRound1? ==> round.round1.myInd == me)
    }

    predicate WantsMore1() {
      msgs1.Some? && !Full(me, n, msgs1.value)
    }

    predicate WantsMore2() {
      msgs2.Some? && !Full(me, n, msgs2.value)
    }

    predicate WantsToProceed() {
      match round
      case InPrepare(_) => true
      case InRound1(_) => !WantsMore1()
      case InRound2(_) => !WantsMore2()
      case Finished(_) => false
      case Gone => false
    }

    function CurrentRound(): nat {
      match round
      case InPrepare(_) => 0
      case InRound1(_) => 1
      case InRound2(_) => 2
      case Finished(_) => 3
      case Gone => 3
    }

    /** The round that is left when a computation fails or panics. */
    function Dropped(): Machine {
      this.(round := Gone)
    }

    function Broadcasting(body: ProtocolMessage): Machine {
      this.(queue := queue + [Msg(me, None, body)])
    }
  }

  function Failure<T>(o: Outcome<T>): Status
    requires o.IsFailure()
  {
    if o.Err? then Failed(ProceedRound(Musig2Failure)) else Panicked(o.cause)
  }

  /** `with_fixed_seed`. */
  function Init(p: Prepare, n: nat): Machine {
    Machine(p.myInd, n, InPrepare(p), Some(map[]), Some(map[]), [])
  }

  /**
   `proceed_round`. It calls itself after each round it completes, so one call can cross several
   rounds. No round is expensive, so `may_block` has no influence.
   */
  function Proceed(c: Curve, s: Machine): (Machine, Status)
    requires c.q > 0 && s.WellFormed()
    decreases 3 - s.CurrentRound()
  {
    match s.round
    case InPrepare(p) =>
      var o := PrepareStep(c, p);
      if o.IsFailure() then (s.Dropped(), Failure(o))
      else Proceed(c, s.(round := InRound1(o.value.0)).Broadcasting(FromRound1(o.value.1)))
    case InRound1(r) =>
      if s.WantsMore1() then (s, Done)
      else if s.msgs1.None? then (s.Dropped(), StoreGone)
      else
        var t := s.(msgs1 := None);
        var o := Round1Step(c, r, BroadcastMsgs(s.me, Ascending(s.me, s.n, s.msgs1.value)));
        if o.IsFailure() then (t.Dropped(), Failure(o))
        else Proceed(c, t.(round := InRound2(o.value.0)).Broadcasting(FromRound2(o.value.1)))
    case InRound2(r) =>
      if s.WantsMore2() then (s, Done)
      else if s.msgs2.None? then (s.Dropped(), StoreGone)
      else
        var t := s.(msgs2 := None);
        var o := Round2Step(c, r, BroadcastMsgs(s.me, Ascending(s.me, s.n, s.msgs2.value)));
        if o.IsFailure() then (t.Dropped(), Failure(o))
        else (t.(round := Finished(o.value)), Done)
    case Finished(_) => (s, Done)
    case Gone => (s, Done)
  }

  function Body1(msg: Packet): Msg<MessageRound1>
    requires msg.body.FromRound1?
  {
    Msg(msg.sender, msg.receiver, msg.body.m1)
  }

  function Body2(msg: Packet): Msg<MessageRound2>
    requires msg.body.FromRound2?
  {
    Msg(msg.sender, msg.receiver, msg.body.m2)
  }

  /** `handle_incoming`. A late message of either round reports `msg_round: 1`. */
  function Handle(c: Curve, s: Machine, msg: Packet): (Machine, Status)
    requires c.q > 0 && s.WellFormed()
  {
    match msg.body
    case FromRound1(_) =>
      if s.msgs1.None? then (s, Failed(OutOfOrderMsg(s.CurrentRound(), 1)))
      else (match Push(s.me, s.n, s.msgs1.value, Body1(msg))
            case Rejected(e) => (s, Failed(HandleMsg(e)))
            case Accepted(m) => Proceed(c, s.(msgs1 := Some(m))))
    case FromRound2(_) =>
      if s.msgs2.None? then (s, Failed(OutOfOrderMsg(s.CurrentRound(), 1)))
      else (match Push(s.me, s.n, s.msgs2.value, Body2(msg))
            case Rejected(e) => (s, Failed(HandleMsg(e)))
            case Accepted(m) => Proceed(c, s.(msgs2 := Some(m))))
  }

  /** `pick_output`. */
  function Pick(s: Machine): (Machine, Option<PickResult>)
  {
    match s.round
    case Finished(result) => (s.Dropped(), Some(Picked(result)))
    case Gone => (s, Some(PickFailed(DoublePickResult)))
    case _ => (s, None)
  }

  datatype PickResult = Picked(result: SignResult) | PickFailed(error: InstanceError)

  // ---- the invariant ----

  /** Which stores a machine holds in each round. */
  predicate StoresMatchRound(s: Machine) {
    match s.round
    case InPrepare(_) => s.msgs1.Some? && s.msgs2.Some?
    case InRound1(_) => s.msgs1.Some? && s.msgs2.Some?
    case InRound2(_) => s.msgs1.None? && s.msgs2.Some?
    case Finished(_) => s.msgs1.None? && s.msgs2.None?
    case Gone => true
  }

  predicate Inv(s: Machine) {
    && s.WellFormed()
    && StoresMatchRound(s)
    && (s.msgs1.Some? ==> WellKeyed(s.me, s.n, s.msgs1.value))
    && (s.msgs2.Some? ==> WellKeyed(s.me, s.n, s.msgs2.value))
  }

  /**
   A call of `proceed_round` keeps the invariant, never goes back a round, meets neither the
   "store gone" panic nor an error from `finish`, and leaves nothing to do when it returns Ok.
   */
  lemma {:induction false} ProceedKeepsInv(c: Curve, s: Machine)
    requires c.q > 0 && Inv(s)
    ensures var (t, status) := Proceed(c, s);
            && Inv(t) && t.me == s.me && t.n == s.n
            && t.CurrentRound() >= s.CurrentRound()
            && status != StoreGone
            && (status.Failed? ==> status.error == ProceedRound(Musig2Failure))
            && (status == Done ==> !t.WantsToProceed())
            && (status != Done ==> t.round == Gone)
            && s.queue <= t.queue
    decreases 3 - s.CurrentRound()
  {
    hide Round1Step, Round2Step;
    match s.round
    case InPrepare(p) =>
      var o := PrepareStep(c, p);
      if o.Ok? {
        ProceedKeepsInv(c, s.(round := InRound1(o.value.0)).Broadcasting(FromRound1(o.value.1)));
      }
    case InRound1(r) =>
      if !s.WantsMore1() {
        var t := s.(msgs1 := None);
        var o := Round1Step(c, r, BroadcastMsgs(s.me, Ascending(s.me, s.n, s.msgs1.value)));
        if o.Ok? {
          ProceedKeepsInv(c, t.(round := InRound2(o.value.0)).Broadcasting(FromRound2(o.value.1)));
        }
      }
    case _ =>
  }

  /** The same for `handle_incoming`, whose only further errors are the two kinds of rejection. */
  lemma HandleKeepsInv(c: Curve, s: Machine, msg: Packet)
    requires c.q > 0 && Inv(s)
    ensures var (t, status) := Handle(c, s, msg);
            && Inv(t) && t.me == s.me && t.n == s.n
            && t.CurrentRound() >= s.CurrentRound()
            && status != StoreGone
            && (status == Done ==> !t.WantsToProceed())
            && s.queue <= t.queue
  {
    match msg.body
    case FromRound1(_) =>
      if s.msgs1.Some? && Push(s.me, s.n, s.msgs1.value, Body1(msg)).Accepted? {
        ProceedKeepsInv(c, s.(msgs1 := Some(Push(s.me, s.n, s.msgs1.value, Body1(msg)).value)));
      }
    case FromRound2(_) =>
      if s.msgs2.Some? && Push(s.me, s.n, s.msgs2.value, Body2(msg)).Accepted? {
        ProceedKeepsInv(c, s.(msgs2 := Some(Push(s.me, s.n, s.msgs2.value, Body2(msg)).value)));
      }
  }

  /** A step that reports a non-critical error changes nothing at all. */
  lemma NonCriticalIsStutter(c: Curve, s: Machine, msg: Packet)
    requires c.q > 0 && Inv(s)
    ensures var (t, status) := Handle(c, s, msg);
            status.Failed? && !status.error.IsCritical() ==> t == s
    ensures var (_, status) := Proceed(c, s);
            status.Failed? ==> status.error.IsCritical()
  {
    ProceedKeepsInv(c, s);
    match msg.body
    case FromRound1(_) =>
      if s.msgs1.Some? && Push(s.me, s.n, s.msgs1.value, Body1(msg)).Accepted? {
        ProceedKeepsInv(c, s.(msgs1 := Some(Push(s.me, s.n, s.msgs1.value, Body1(msg)).value)));
      }
    case FromRound2(_) =>
      if s.msgs2.Some? && Push(s.me, s.n, s.msgs2.value, Body2(msg)).Accepted? {
        ProceedKeepsInv(c, s.(msgs2 := Some(Push(s.me, s.n, s.msgs2.value, Body2(msg)).value)));
      }
  }
}
