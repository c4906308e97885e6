/**
 A single party among honest peers, whatever its transport does: messages may be lost, duplicated and
 reordered, as long as each was sent by the party it names.
 */
module HonestRuns {
  import opened Wrappers
  import opened Curves
  import opened Musig2
  import opened SignatureTheory
  import opened SignatureCorrectness
  import opened Broadcast
  import opened Rounds
  import opened Machine
  import opened MachineRuns
  import opened HonestRounds
  import opened Network

  /** A message that the honest party it names sends in some run. */
  ghost predicate HonestMessage(su: Setup, m: Packet)
    requires su.c.q > 0 && su.N() <= U16_MAX
  {
    && su.IsParty(m.sender)
    && match m.body
       case FromRound1(b) => su.IsPrepared(m.sender) && b == su.Message1(m.sender)
       case FromRound2(b) => su.AllPrepared() && su.Signing(m.sender).Ok? && b == su.Signing(m.sender).value.1
  }

  ghost predicate AllHonest(su: Setup, msgs: seq<Packet>)
    requires su.c.q > 0 && su.N() <= U16_MAX
  {
    forall k :: 0 <= k < |msgs| ==> HonestMessage(su, msgs[k])
  }

  lemma {:induction false} OnlyHonestAccepted(su: Setup, i: nat, msgs: seq<Packet>, k: nat)
    requires su.c.q > 0 && su.N() <= U16_MAX && AllHonest(su, msgs)
    ensures k in AcceptAll1(i, su.N(), msgs) ==>
              su.IsParty(k) && su.IsPrepared(k) && AcceptAll1(i, su.N(), msgs)[k] == su.Message1(k)
    ensures k in AcceptAll2(i, su.N(), msgs) ==>
              && su.IsParty(k) && su.AllPrepared() && su.Signing(k).Ok?
              && AcceptAll2(i, su.N(), msgs)[k] == su.Signing(k).value.1
  {
    hide PrepareStep, SignedStep, Setup.Signing, Setup.Message1;
    if msgs == [] {
    } else {
      OnlyHonestAccepted(su, i, msgs[..|msgs| - 1], k);
      assert HonestMessage(su, msgs[|msgs| - 1]);
    }
  }

  /** A complete round 1 store holds the messages of all the others. */
  lemma HonestStore1(su: Setup, i: nat, msgs: seq<Packet>)
    requires su.c.q > 0 && su.N() <= U16_MAX && AllHonest(su, msgs) && su.IsParty(i) && su.IsPrepared(i)
    requires Full(i, su.N(), AcceptAll1(i, su.N(), msgs)) && WellKeyed(i, su.N(), AcceptAll1(i, su.N(), msgs))
    ensures su.AllPrepared() && AcceptAll1(i, su.N(), msgs) == su.Others1(i)
  {
    hide AcceptAll1, PrepareStep, AllHonest, Setup.Message1;
    var got := AcceptAll1(i, su.N(), msgs);
    forall k | su.IsParty(k)
      ensures su.IsPrepared(k)
    {
      if k != i {
        OnlyHonestAccepted(su, i, msgs, k);
      }
    }
    forall k: nat | k in got
      ensures k in su.Others1(i) && got[k] == su.Others1(i)[k]
    {
      OnlyHonestAccepted(su, i, msgs, k);
    }
    assert got == su.Others1(i);
  }

  lemma HonestStore2(su: Setup, i: nat, msgs: seq<Packet>)
    requires su.c.q > 0 && su.N() <= U16_MAX && AllHonest(su, msgs) && su.IsParty(i)
    requires su.AllPrepared() && su.Signing(i).Ok?
    requires Full(i, su.N(), AcceptAll2(i, su.N(), msgs)) && WellKeyed(i, su.N(), AcceptAll2(i, su.N(), msgs))
    ensures su.AllSigning() && AcceptAll2(i, su.N(), msgs) == su.Others2(i)
  {
    hide AcceptAll2, PrepareStep, AllHonest, Setup.Signing;
    var got := AcceptAll2(i, su.N(), msgs);
    forall k: nat | k in got
      ensures su.IsParty(k) && su.Signing(k).Ok? && got[k] == su.Signing(k).value.1
    {
      OnlyHonestAccepted(su, i, msgs, k);
    }
    assert su.AllSigning();
    assert got == su.Others2(i);
  }

  /** A party that finishes on honest messages has completed both stores and finished as computed. */
  lemma HonestRunFinishes(su: Setup, i: nat, es: seq<Event>, result: SignResult)
    requires su.c.q > 0 && 1 <= su.N() <= U16_MAX && su.IsParty(i)
    requires AllHonest(su, Delivered(es))
    requires Run(su.c, su.PrepareOf(i), su.N(), es).machine.round == Finished(result)
    ensures su.AllSigning() && su.Finishing(i) == Ok(result)
    ensures Full(i, su.N(), AcceptAll1(i, su.N(), Delivered(es)))
    ensures Full(i, su.N(), AcceptAll2(i, su.N(), Delivered(es)))
  {
    hide Run, NormalForm, PrepareStep, SignedStep, FinishedStep, Started, AllHonest, Delivered, AcceptAll1, AcceptAll2;
    var p, n, msgs := su.PrepareOf(i), su.N(), Delivered(es);
    var m1, m2 := AcceptAll1(i, n, msgs), AcceptAll2(i, n, msgs);
    var st := Run(su.c, p, n, es);
    RunHasNormalForm(su.c, p, n, es);
    assert Shift(st.drained, st.machine).round == st.machine.round;
    FinishedShape(su.c, p, n, Started(i, n, es), m1, m2, result);
    AcceptAllWellKeyed(i, n, msgs);
    assert su.IsPrepared(i);
    HonestStore1(su, i, msgs);
    assert su.Signing(i).Ok?;
    HonestStore2(su, i, msgs);
  }

  lemma GoneShape(c: Curve, p: Prepare, n: nat, m1: Store1, m2: Store2)
    requires c.q > 0 && ValidIndex(p.myInd, n) && Closed(c, p, n, m1, m2).round.Gone?
    ensures PrepareStep(c, p).Ok? ==> Full(p.myInd, n, m1)
    ensures PrepareStep(c, p).Ok? && SignedStep(c, PrepareStep(c, p).value.0, p.myInd, n, m1).Ok? ==>
              && Full(p.myInd, n, m2)
              && !FinishedStep(c, SignedStep(c, PrepareStep(c, p).value.0, p.myInd, n, m1).value.0, p.myInd, n, m2).Ok?
  {
    hide PrepareStep, SignedStep, FinishedStep, Full;
  }

  /** A party that has given up on honest messages did so over a computation of its own. */
  lemma HonestRunGone(su: Setup, i: nat, es: seq<Event>)
    requires su.c.q > 0 && 1 <= su.N() <= U16_MAX && su.IsParty(i)
    requires AllHonest(su, Delivered(es)) && Run(su.c, su.PrepareOf(i), su.N(), es).machine.round.Gone?
    ensures !(su.AllSigning() && su.Finishing(i).Ok?)
  {
    hide Run, Closed, PrepareStep, SignedStep, FinishedStep, Started, AllHonest, Delivered, AcceptAll1, AcceptAll2;
    var p, n, msgs := su.PrepareOf(i), su.N(), Delivered(es);
    var m1, m2 := AcceptAll1(i, n, msgs), AcceptAll2(i, n, msgs);
    var st := Run(su.c, p, n, es);
    RunHasNormalForm(su.c, p, n, es);
    assert Shift(st.drained, st.machine).round == st.machine.round;
    GoneShape(su.c, p, n, m1, m2);
    AcceptAllWellKeyed(i, n, msgs);
    if su.AllSigning() && su.Finishing(i).Ok? {
      assert su.IsPrepared(i);
      HonestStore1(su, i, msgs);
      assert su.Signing(i).Ok?;
      HonestStore2(su, i, msgs);
      assert false;
    }
  }

  /**
   Whatever honest messages an honest party handles, in whatever order and however often: if it
   finishes, it holds the joint result, and it verifies.
   */
  lemma HonestRunResult(su: Setup, i: nat, es: seq<Event>, result: SignResult)
    requires su.Honest() && su.c.q > 0 && 1 <= su.N() <= U16_MAX && su.IsParty(i)
    requires AllHonest(su, Delivered(es))
    requires Run(su.c, su.PrepareOf(i), su.N(), es).machine.round == Finished(result)
    ensures su.AllSigning() && AllConsistent(su.c, su.States()) && JointParams(su.c, su.States(), su.message).Ok?
    ensures result == JointResult(su) && ResultVerifies(su, result)
  {
    HonestRunFinishes(su, i, es, result);
    HonestFinishing(su, i);
  }
}
