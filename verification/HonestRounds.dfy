/** What honest parties compute: each round's result on the messages the other honest parties send. */
module HonestRounds {
  import opened Wrappers
  import opened Arith
  import opened Curves
  import opened Keys
  import opened Musig2
  import opened SignatureTheory
  import opened SignatureCorrectness
  import opened Broadcast
  import opened Rounds
  import opened MachineRuns

  /** Party i holds keys[i-1]; all sign the same message. */
  datatype Setup = Setup(c: Curve, keys: seq<KeyPair>, message: seq<byte>)
  {
    function N(): nat {
      |keys|
    }

    predicate IsParty(i: nat) {
      1 <= i <= N()
    }

    /**
     Honest parties: indices 1..n, real key pairs, and no nonce that hashes to exactly zero.
     Nothing is assumed of the message, nor that any computation succeeds.
     */
    ghost predicate Honest() {
      && c.Valid()
      && 1 <= N() <= U16_MAX
      && forall i {:trigger HonestParty(i)} :: IsParty(i) ==> HonestParty(i)
    }

    ghost predicate HonestParty(i: nat)
      requires IsParty(i)
    {
      HonestKey(keys[i - 1])
    }

    ghost predicate HonestKey(k: KeyPair) {
      && 0 < k.sec < c.q
      && k.pub == c.Exp(k.sec)
      && (EphemeralKeys(c, k, NV).Ok? ==> forall j :: 0 <= j < NV ==> EphemeralKeys(c, k, NV).value[j].sec > 0)
    }

    function PrepareOf(i: nat): Prepare
      requires IsParty(i)
    {
      Prepare(i, keys[i - 1], message)
    }

    predicate IsPrepared(i: nat)
      requires IsParty(i)
    {
      PrepareStep(c, PrepareOf(i)).Ok?
    }

    ghost predicate AllPrepared() {
      forall i {:trigger IsPrepared(i)} :: IsParty(i) ==> IsPrepared(i)
    }

    /** The signing state and the round 1 broadcast of party i. */
    function StateOf(i: nat): State
      requires IsParty(i) && IsPrepared(i)
    {
      PrepareStep(c, PrepareOf(i)).value.0.state1
    }

    function Message1(i: nat): MessageRound1
      requires IsParty(i) && IsPrepared(i)
    {
      PrepareStep(c, PrepareOf(i)).value.1
    }

    ghost function States(): (r: seq<State>)
      requires AllPrepared()
      ensures |r| == N()
      ensures forall k :: 0 <= k < N() ==> r[k] == StateOf(k + 1)
    {
      seq(N(), k requires 0 <= k < N() => StateOf(k + 1))
    }

    /** The round 1 broadcasts of everyone but i. */
    ghost function Others1(i: nat): (m: map<nat, MessageRound1>)
      requires AllPrepared() && IsParty(i)
      ensures Full(i, N(), m) && WellKeyed(i, N(), m)
    {
      map k: nat | 1 <= k <= N() && k != i :: Message1(k)
    }

    ghost function Signing(i: nat): Outcome<(Round2, MessageRound2)>
      requires c.q > 0 && AllPrepared() && IsParty(i) && N() <= U16_MAX
    {
      assert IsPrepared(i);
      SignedStep(c, PrepareStep(c, PrepareOf(i)).value.0, i, N(), Others1(i))
    }

    ghost predicate AllSigning()
      requires c.q > 0 && N() <= U16_MAX
    {
      AllPrepared() && forall i {:trigger Signing(i)} :: IsParty(i) ==> Signing(i).Ok?
    }

    /** The round 2 broadcasts of everyone but i. */
    ghost function Others2(i: nat): (m: map<nat, MessageRound2>)
      requires c.q > 0 && N() <= U16_MAX && AllSigning() && IsParty(i)
      ensures Full(i, N(), m) && WellKeyed(i, N(), m)
    {
      map k: nat | 1 <= k <= N() && k != i :: Signing(k).value.1
    }

    ghost function Finishing(i: nat): Outcome<SignResult>
      requires c.q > 0 && N() <= U16_MAX && AllSigning() && IsParty(i)
    {
      FinishedStep(c, Signing(i).value.0, i, N(), Others2(i))
    }
  }

  // ---- round 1 ----

  lemma PreparedState(su: Setup, i: nat)
    requires su.Honest() && su.IsParty(i) && su.IsPrepared(i)
    ensures var st := su.StateOf(i);
            && st.keyPair == su.keys[i - 1] && Consistent(su.c, st) && su.c.Finite(st.keyPair.pub)
            && forall j :: 0 <= j < NV ==> su.c.Finite(st.ephk[j].pub)
    ensures su.Message1(i) ==
            MessageRound1(EncodeAll(Publics(su.StateOf(i).ephk)), su.message, SerializePoint(su.keys[i - 1].pub))
    ensures PrepareStep(su.c, su.PrepareOf(i)).value.0 == Round1(i, su.StateOf(i), su.keys[i - 1], su.message)
  {
    var c, k := su.c, su.keys[i - 1];
    var st := su.StateOf(i);
    assert su.HonestParty(i);
    EphemeralKeysConsistent(c, k, NV);
    forall j | 0 <= j < NV
      ensures c.Finite(st.ephk[j].pub)
    {
      ExpFinite(c, st.ephk[j].sec);
    }
    ExpFinite(c, k.sec);
  }

  lemma ExpFinite(c: Curve, k: nat)
    requires c.Valid() && 0 < k < c.q
    ensures c.Finite(c.Exp(k))
  {
    c.ExpOnCurve(k);
    c.ExpIsInfinity(k);
    ModUnique(k, 0, k, c.q);
  }

  lemma {:induction false} EphemeralKeysConsistent(c: Curve, x: KeyPair, count: nat)
    requires EphemeralKeys(c, x, count).Ok?
    ensures forall j :: 0 <= j < count ==>
                          var e := EphemeralKeys(c, x, count).value[j];
                          e.pub == c.Exp(e.sec) && e.sec < c.q
  {
    if count == 0 {
    } else {
      EphemeralKeysConsistent(c, x, count - 1);
    }
  }

  lemma RemoveInsert<T>(s: seq<T>, i: nat)
    requires i < |s|
    ensures InsertAt(RemoveAt(s, i), i, s[i]) == s
  {
  }

  lemma StatesConsistent(su: Setup)
    requires su.Honest() && su.AllPrepared()
    ensures AllConsistent(su.c, su.States())
    ensures forall k :: 0 <= k < su.N() ==> su.States()[k].keyPair == su.keys[k]
  {
    forall k | 0 <= k < su.N()
      ensures Consistent(su.c, su.States()[k]) && su.States()[k].keyPair == su.keys[k]
    {
      PreparedState(su, k + 1);
    }
  }

  /** The k-th of the other signers, in the order the store hands out their messages. */
  lemma OtherAtSlot(su: Setup, i: nat, slot: nat)
    requires su.Honest() && su.AllPrepared() && su.IsParty(i) && slot < su.N() - 1
    ensures var k := PartyAt(i, slot);
            && su.IsParty(k)
            && RemoveAt(su.States(), i - 1)[slot] == su.StateOf(k)
            && RemoveAt(Pks(su.States()), i - 1)[slot] == su.StateOf(k).keyPair.pub
            && Ascending(i, su.N(), su.Others1(i))[slot] == su.Message1(k)
  {
  }

  lemma HonestInputsParse(su: Setup, i: nat)
    requires su.Honest() && su.AllPrepared() && su.IsParty(i)
    ensures AllParse(su.c, Ascending(i, su.N(), su.Others1(i)), RemoveAt(Pks(su.States()), i - 1),
                     Nonces(RemoveAt(su.States(), i - 1)))
  {
    var msgs, others := Ascending(i, su.N(), su.Others1(i)), RemoveAt(su.States(), i - 1);
    var keys := RemoveAt(Pks(su.States()), i - 1);
    hide ParsePoint, DecodeAll, Setup.Honest;
    forall slot | 0 <= slot < |msgs|
      ensures |msgs[slot].pubkey| == 65 && ParsePoint(su.c, msgs[slot].pubkey) == Ok(keys[slot])
      ensures DecodeAll(su.c, msgs[slot].ephemeralKeys) == Ok(Nonces(others)[slot])
    {
      OtherAtSlot(su, i, slot);
      HonestMessageParses(su, PartyAt(i, slot));
    }
  }

  /**
   Every honest party reads the same list of keys, with its own at its own index, and the nonces of
   the others, so that its round 1 is `sign_prime` on the common key list.
   */
  lemma HonestRound1(su: Setup, i: nat)
    requires su.Honest() && su.AllPrepared() && su.IsParty(i)
    ensures AllConsistent(su.c, su.States())
    ensures var others := RemoveAt(su.States(), i - 1);
            && Completes(su.States(), i - 1, others)
            && var msgs := Ascending(i, su.N(), su.Others1(i));
               Collect(su.c, i, su.keys[i - 1].pub, msgs, |msgs|).Ok? &&
               var collected := Collect(su.c, i, su.keys[i - 1].pub, msgs, |msgs|).value;
               && WithOwnKey(i, su.keys[i - 1].pub, msgs, collected.0) == Pks(su.States())
               && collected.1 == Nonces(others)
  {
    StatesConsistent(su);
    HonestInputsParse(su, i);
    RemovePermutes(su.States(), i - 1);
    RemoveInsert(Pks(su.States()), i - 1);
    hide AllParse, Collect, InsertAt, RemoveAt, Curve.Valid;
    var msgs := Ascending(i, su.N(), su.Others1(i));
    CollectInsertsOwnKey(su.c, i, su.keys[i - 1].pub, msgs, RemoveAt(Pks(su.States()), i - 1),
                         Nonces(RemoveAt(su.States(), i - 1)));
  }

  lemma HonestMessageParses(su: Setup, k: nat)
    requires su.Honest() && su.IsParty(k) && su.IsPrepared(k)
    ensures var m := su.Message1(k);
            && |m.pubkey| == 65 && ParsePoint(su.c, m.pubkey) == Ok(su.StateOf(k).keyPair.pub)
            && DecodeAll(su.c, m.ephemeralKeys) == Ok(Publics(su.StateOf(k).ephk))
  {
    PreparedState(su, k);
    PointRoundTrip(su.c, su.keys[k - 1].pub);
    VectorRoundTrip(su.c, Publics(su.StateOf(k).ephk));
  }

  /** A successful round 1: a signed share under the joint parameters and the joint key. */
  lemma HonestSigning(su: Setup, i: nat)
    requires su.Honest() && su.AllPrepared() && su.IsParty(i) && su.Signing(i).Ok?
    ensures AllConsistent(su.c, su.States()) && JointParams(su.c, su.States(), su.message).Ok?
    ensures var (r2, m2) := su.Signing(i).value;
            var params := JointParams(su.c, su.States(), su.message).value;
            && HasSigned(su.c, su.States(), su.message, i - 1, RemoveAt(su.States(), i - 1), r2.state2)
            && r2.state2.s < su.c.q && r2.state2.r == params.r
            && m2 == MessageRound2(SerializeScalar(r2.state2.s))
            && r2.r == params.r && r2.commit == params.c && r2.message == su.message
            && r2.keyAgg.xTilde == JointKey(su.c, su.States())
  {
    var c, states := su.c, su.States();
    var others := RemoveAt(states, i - 1);
    HonestValid(su);
    hide Setup.Honest, Collect, KeyAggregation, GlobalParameters, SignPrime, Nonces, Pks, AllConsistent, Curve.Valid,
         JointParams, JointKeyLog, Round1Step, RemoveAt, Completes;
    HonestRound1(su, i);
    PreparedState(su, i);
    var r1 := Round1(i, su.StateOf(i), su.keys[i - 1], su.message);
    var input := BroadcastMsgs(i, Ascending(i, su.N(), su.Others1(i)));
    assert su.Signing(i) == Round1Step(c, r1, input);
    Round1Result(c, r1, input, Pks(states), Nonces(others));
    ParametersAreJoint(c, states, su.message, i - 1, others);
    SignedShare(c, states, su.message, i - 1, others, su.Signing(i).value.0.state2);
  }

  // ---- round 2 ----

  /** All first-round states, once everybody has signed. */
  ghost function SignedStates(su: Setup): (r: seq<StatePrime>)
    requires su.c.q > 0 && su.N() <= U16_MAX && su.AllSigning()
    ensures |r| == su.N()
    ensures forall k :: 0 <= k < su.N() ==> r[k] == su.Signing(k + 1).value.0.state2
  {
    seq(su.N(), k requires 0 <= k < su.N() => su.Signing(k + 1).value.0.state2)
  }

  ghost function Orders(su: Setup): (r: seq<seq<State>>)
    requires su.AllPrepared()
    ensures |r| == su.N()
    ensures forall k :: 0 <= k < su.N() ==> r[k] == RemoveAt(su.States(), k)
  {
    seq(su.N(), k requires 0 <= k < su.N() => RemoveAt(su.States(), k))
  }

  lemma HonestAllSigned(su: Setup)
    requires su.Honest() && su.AllSigning()
    ensures AllConsistent(su.c, su.States())
    ensures AllSigned(su.c, su.States(), su.message, Orders(su), SignedStates(su))
  {
    StatesConsistent(su);
    hide Setup.Honest, AllConsistent, HasSigned, Setup.Signing;
    forall k | 0 <= k < su.N()
      ensures HasSigned(su.c, su.States(), su.message, k, Orders(su)[k], SignedStates(su)[k])
    {
      HonestSigning(su, k + 1);
    }
  }

  lemma HonestShareAt(su: Setup, i: nat, slot: nat)
    requires su.Honest() && su.AllSigning() && su.IsParty(i) && slot < su.N() - 1
    ensures ParseSlice(su.c, Ascending(i, su.N(), su.Others2(i))[slot].signFragment) ==
            Ok(RemoveAt(Shares(SignedStates(su)), i - 1)[slot])
  {
    HonestValid(su);
    hide Setup.Honest, Setup.Signing, ParseSlice, SerializeScalar, Setup.AllSigning, Curve.Valid;
    var k := PartyAt(i, slot);
    assert su.IsParty(k) && k != i;
    HonestSigning(su, k);
    var s := su.Signing(k).value.0.state2.s;
    ScalarRoundTrip(su.c, SerializeScalar(s), s);
    MessageSlot(su, i, slot);
    SignedShareOf(su, k);
    RemovedSlot(Shares(SignedStates(su)), i, slot);
  }

  lemma SignedShareOf(su: Setup, k: nat)
    requires su.c.q > 0 && su.N() <= U16_MAX && su.AllSigning() && su.IsParty(k)
    ensures Shares(SignedStates(su))[k - 1] == su.Signing(k).value.0.state2.s
  {
    hide Setup.Signing;
  }

  lemma MessageSlot(su: Setup, i: nat, slot: nat)
    requires su.Honest() && su.AllSigning() && su.IsParty(i) && slot < su.N() - 1
    ensures su.IsParty(PartyAt(i, slot))
    ensures Ascending(i, su.N(), su.Others2(i))[slot] == su.Signing(PartyAt(i, slot)).value.1
  {
    HonestValid(su);
    hide Setup.Honest, Setup.Signing;
    assert PartyAt(i, slot) in su.Others2(i);
  }

  lemma RemovedSlot<T>(s: seq<T>, i: nat, slot: nat)
    requires 1 <= i <= |s| && slot < |s| - 1
    ensures PartyAt(i, slot) <= |s| && RemoveAt(s, i - 1)[slot] == s[PartyAt(i, slot) - 1]
  {
  }

  /** The shares party i reads are those of the others, in ascending order. */
  lemma HonestShares(su: Setup, i: nat, msgs: seq<MessageRound2>, shares: seq<nat>)
    requires su.Honest() && su.AllSigning() && su.IsParty(i)
    requires msgs == Ascending(i, su.N(), su.Others2(i))
    requires shares == RemoveAt(Shares(SignedStates(su)), i - 1)
    ensures ParseShares(su.c, msgs, |msgs|) == Ok(shares)
  {
    hide Setup.Honest, Setup.AllSigning, ParseSlice, RemoveAt, SignedStates, Setup.Signing;
    forall slot | 0 <= slot < |msgs|
      ensures ParseSlice(su.c, msgs[slot].signFragment) == Ok(shares[slot])
    {
      HonestShareAt(su, i, slot);
    }
    hide *;
    ParseSharesAll(su.c, msgs, shares, |msgs|);
    assert shares[..|msgs|] == shares;
  }

  lemma HonestValid(su: Setup)
    requires su.Honest()
    ensures su.c.Valid() && su.c.q > 2 && 1 <= su.N() <= U16_MAX
  {
  }

  /** The result every party should hold, as a function of the keys and the message. */
  ghost function JointResult(su: Setup): SignResult
    requires su.Honest() && su.AllPrepared() && AllConsistent(su.c, su.States())
    requires JointParams(su.c, su.States(), su.message).Ok?
  {
    var params := JointParams(su.c, su.States(), su.message).value;
    SignResult(params.r, JointResponse(su.c, su.States(), su.message), params.c)
  }

  /** The result verifies under the full aggregate key. */
  ghost predicate ResultVerifies(su: Setup, result: SignResult)
    requires su.c.q > 0 && su.AllPrepared()
  {
    && AggCoefficients(su.c, Pks(su.States())).Ok? && ParseMessage(su.c, su.message).Ok?
    && Verify(su.c, Signature(XOf(result.r), result.s), ParseMessage(su.c, su.message).value,
              JointKey(su.c, su.States())) == Ok(true)
  }

  /**
   Round 2 of an honest party never panics, so its verification assertion never fires. It succeeds
   exactly when no partial sum of the shares, own share first, vanishes; and then it yields the joint
   result, which verifies.
   */
  lemma HonestFinishing(su: Setup, i: nat)
    requires su.Honest() && su.AllSigning() && su.IsParty(i)
    ensures AllConsistent(su.c, su.States()) && JointParams(su.c, su.States(), su.message).Ok?
    ensures !su.Finishing(i).Panic?
    ensures su.Finishing(i).Ok? ==> su.Finishing(i).value == JointResult(su) && ResultVerifies(su, JointResult(su))
    ensures var shares := Shares(SignedStates(su));
            su.Finishing(i).Ok? <==> NoPartialSumVanishes(su.c.q, shares[i - 1], RemoveAt(shares, i - 1))
  {
    HonestValid(su);
    hide Setup.Honest, AllConsistent, Setup.Signing, Curve.Valid, RemoveAt, ParseShares, Setup.AllSigning, Verify,
         JointParams, JointKeyLog, JointResponse, ResultVerifies, AllSigned, Round2Step, PartialSum,
         NoPartialSumVanishes;
    var shares := Shares(SignedStates(su));
    var received := RemoveAt(shares, i - 1);
    var r2 := su.Signing(i).value.0;
    var input := BroadcastMsgs(i, Ascending(i, su.N(), su.Others2(i)));
    HonestShares(su, i, input.msgs, received);
    RemovePermutes(shares, i - 1);
    HonestRound2(su, i, r2, input, received);
    HonestSigning(su, i);
    FoldScalarsSum(su.c, shares[i - 1], received);
    FoldScalarsSucceedsIff(su.c, shares[i - 1], received);
  }

  /** Round 2 on the shares of all the others, in terms of how the combination ends. */
  lemma HonestRound2(su: Setup, i: nat, r2: Round2, input: BroadcastMsgs<MessageRound2>, received: seq<nat>)
    requires su.Honest() && su.AllSigning() && su.IsParty(i) && r2 == su.Signing(i).value.0
    requires ParseShares(su.c, input.msgs, |input.msgs|) == Ok(received)
    requires multiset([r2.state2.s] + received) == multiset(Shares(SignedStates(su)))
    ensures AllConsistent(su.c, su.States()) && JointParams(su.c, su.States(), su.message).Ok?
    ensures match SignDoublePrime(su.c, r2.state2, received)
            case Ok(_) => Round2Step(su.c, r2, input) == Ok(JointResult(su)) && ResultVerifies(su, JointResult(su))
            case Err(_) => Round2Step(su.c, r2, input).Err?
            case Panic(_) => true
  {
    var c, states, sps := su.c, su.States(), SignedStates(su);
    HonestAllSigned(su);
    HonestSigning(su, i);
    HonestValid(su);
    assert r2.state2 == sps[i - 1];
    hide Setup.Honest, AllConsistent, AllSigned, HasSigned, Setup.Signing, Curve.Valid, Verify, ParseShares,
         SignDoublePrime, JointParams, JointKeyLog, Setup.AllSigning, AggCoefficients, JointResponse, ParseMessage,
         Round2Step;
    var o := SignDoublePrime(c, r2.state2, received);
    if o.Ok? {
      CombinedSignatureVerifies(c, states, su.message, Orders(su), sps, i - 1, received, o.value);
      Round2Succeeds(c, r2, input, received, o.value, XOf(r2.r), ParseMessage(c, su.message).value);
    } else if o.Err? {
      Round2Fails(c, r2, input, received);
    }
  }
}
