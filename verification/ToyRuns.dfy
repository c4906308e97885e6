/**
 Complete runs on the toy curve. Three honest parties all sign and all finish; with one key changed
 all sign, but the third party's combination meets a vanishing partial sum while the first finishes.
 So what the theorems about honest parties assume does occur, and so does the failure they allow for.
 */
module ToyRuns {
  import opened Wrappers
  import opened Arith
  import opened Curves
  import opened Keys
  import opened Musig2
  import opened SignatureTheory
  import opened SignatureCorrectness
  import opened Broadcast
  import opened Rounds
  import opened Machine
  import opened MachineRuns
  import opened RoundNumbers
  import opened HonestRounds
  import opened SigningGuards
  import opened Network
  import opened Liveness
  import opened SimulationStages
  import opened ToyCurve

  function ToyKey(x: nat): KeyPair {
    KeyPair(Toy().Exp(x), x)
  }

  /** Three parties with the secrets 1, 2 and x, and the message whose value is 1. */
  function ToySetup(x: nat): (su: Setup)
    ensures su.N() == 3 && su.c == Toy()
  {
    Setup(Toy(), [ToyKey(1), ToyKey(2), ToyKey(x)], ToBytes(1, 32))
  }

  predicate Chosen(x: nat) {
    x == 9 || x == 27
  }

  // ---- evaluation ----

  lemma HashIsTwo(ks: seq<nat>)
    ensures HashValue(Toy(), ks) == 2
  {
    Pow256AtLeast(32);
    FromToBytes(2, 32);
  }

  lemma ToyChallenge(rx: nat, pk: Point, m: nat)
    ensures ChallengeOf(Toy(), rx, pk, m) == 2
  {
    hide SerializeScalar, XCoor;
    Pow256AtLeast(32);
    FromToBytes(2, 32);
  }

  lemma ToyExp(k: nat)
    ensures Toy().Exp(k) == PointOf(k % 31)
  {
    ExpIsTable(k);
  }

  lemma MessageIsOne()
    ensures |ToBytes(1, 32)| == 32 && FromBytes(ToBytes(1, 32)) == 1
  {
    Pow256AtLeast(32);
    FromToBytes(1, 32);
  }

  lemma TwoPartialSums(q: nat, own: nat, a: nat, b: nat)
    requires q > 0
    ensures NoPartialSumVanishes(q, own, [a, b]) <==> (own + a) % q != 0 && (own + a + b) % q != 0
  {
    assert [a, b][1..] == [b] && [b][1..] == [];
    VanishingStep(q, own, [a, b]);
    VanishingStep(q, own + a, [b]);
    NoneVanishes(q, own + a + b);
  }

  // ---- preparation ----

  lemma ToyHonest(x: nat)
    requires Chosen(x)
    ensures ToySetup(x).Honest() && ToySetup(x).AllPrepared()
  {
    var su := ToySetup(x);
    ToyIsValid();
    hide Curve.Valid, Curve.Exp, HashValue, EphemeralKeys, PrepareStep;
    forall i | su.IsParty(i)
      ensures su.HonestParty(i) && su.IsPrepared(i)
    {
      assert su.keys[i - 1] == ToyKey(if i == 1 then 1 else if i == 2 then 2 else x);
      EphemeralKeysIff(su.c, su.keys[i - 1], NV);
      HashIsTwo([su.keys[i - 1].sec, 0]);
      HashIsTwo([su.keys[i - 1].sec, 1]);
      PrepareIff(su.c, su.PrepareOf(i));
    }
  }

  /** All nonce secrets are 2. */
  lemma ToyNonceSecrets(x: nat, i: nat)
    requires Chosen(x) && 1 <= i <= 3
    ensures ToySetup(x).IsParty(i) && ToySetup(x).IsPrepared(i)
    ensures var st := ToySetup(x).StateOf(i);
            |st.ephk| == NV && st.ephk[0].sec == 2 && st.ephk[1].sec == 2 && st.keyPair == ToySetup(x).keys[i - 1]
  {
    var su := ToySetup(x);
    ToyHonest(x);
    HonestValid(su);
    hide Setup.Honest, Curve.Valid, Curve.Exp, HashValue, EphemeralKeys;
    assert su.IsPrepared(i);
    PreparedState(su, i);
    hide PrepareStep, HashScalars;
    PrepareIff(su.c, su.PrepareOf(i));
    HashIsTwo([su.keys[i - 1].sec, 0]);
    HashIsTwo([su.keys[i - 1].sec, 1]);
  }

  lemma ToyStates(x: nat)
    requires Chosen(x)
    ensures ToySetup(x).Honest() && ToySetup(x).AllPrepared() && AllConsistent(Toy(), ToySetup(x).States())
    ensures var states := ToySetup(x).States();
            && Secrets(states) == [1, 2, x] && Pks(states) == ToyPks(x)
            && forall k :: 0 <= k < 3 ==>
                 && |states[k].ephk| == NV && states[k].ephk[0].sec == 2 && states[k].ephk[1].sec == 2
                 && states[k].keyPair == ToySetup(x).keys[k]
  {
    hide *;
    var su := ToySetup(x);
    ToyHonest(x);
    StatesConsistent(su);
    ToyNonceSecrets(x, 1);
    ToyNonceSecrets(x, 2);
    ToyNonceSecrets(x, 3);
    ToyKeysAre(x);
    StatesOfThree(su);
    SecretsOfThree(su.StateOf(1), su.StateOf(2), su.StateOf(3));
  }

  lemma ToyKeysAre(x: nat)
    ensures var keys := ToySetup(x).keys;
            && keys[0].sec == 1 && keys[1].sec == 2 && keys[2].sec == x
            && [keys[0].pub, keys[1].pub, keys[2].pub] == ToyPks(x)
  {
    hide Curve.Exp, ToBytes;
  }

  lemma StatesOfThree(su: Setup)
    requires su.AllPrepared() && su.N() == 3
    ensures su.IsParty(1) && su.IsParty(2) && su.IsParty(3)
    ensures su.IsPrepared(1) && su.IsPrepared(2) && su.IsPrepared(3)
    ensures su.States() == [su.StateOf(1), su.StateOf(2), su.StateOf(3)]
  {
    hide Setup.IsPrepared, Setup.StateOf;
    assert su.IsParty(1) && su.IsParty(2) && su.IsParty(3);
  }

  lemma SecretsOfThree(a: State, b: State, d: State)
    ensures Secrets([a, b, d]) == [a.keyPair.sec, b.keyPair.sec, d.keyPair.sec]
    ensures Pks([a, b, d]) == [a.keyPair.pub, b.keyPair.pub, d.keyPair.pub]
  {
  }

  // ---- signing ----

  lemma TableEntries()
    ensures PointOf(1) == Affine(2, 12) && PointOf(2) == Affine(7, 7) && PointOf(6) == Affine(29, 31)
    ensures PointOf(9) == Affine(20, 40) && PointOf(18) == Affine(13, 22) && PointOf(24) == Affine(25, 25)
    ensures PointOf(27) == Affine(21, 25) && PointOf(29) == Affine(7, 36)
  {
  }

  /** The x coordinates that have to be scalars are. */
  lemma ToyXs(x: nat)
    requires Chosen(x)
    ensures var c := Toy();
            && XOf(c.Exp(1)) == 2 && XOf(c.Exp(2)) == 7 && XOf(c.Exp(x)) < 31
            && XOf(c.Exp(6 + 2 * x)) < 31 && XOf(c.Exp(6)) < 31
            && XOf(c.Exp(18)) < 31 && !c.OddY(c.Exp(18))
  {
    TableEntries();
    hide PointOf, Curve.Exp;
    ToyExp(1);
    ToyExp(2);
    ToyExp(x);
    ToyExp(6);
    ToyExp(6 + 2 * x);
    ToyExp(18);
    assert (6 + 2 * x) % 31 == if x == 9 then 24 else 29;
  }

  function ToyPks(x: nat): seq<Point> {
    [Toy().Exp(1), Toy().Exp(2), Toy().Exp(x)]
  }

  lemma ToyKeyHashes(pks: seq<Point>)
    requires |pks| == 3
    ensures KeyHashes(Toy(), Xs(pks), Xs(pks)) == [2, 2, 2]
  {
    hide HashValue, XOf;
    var xs := Xs(pks);
    HashIsTwo([1, xs[0]] + xs);
    HashIsTwo([1, xs[1]] + xs);
    HashIsTwo([1, xs[2]] + xs);
  }

  lemma ToyKeysAggregate(x: nat)
    requires Chosen(x)
    ensures KeysAggregate(Toy(), ToyPks(x), [1, 2, x])
  {
    hide *;
    ToyAllXBelow(x);
    AllTwo();
    ToyKeyHashes(ToyPks(x));
    ToyKeySums(x);
    ToyOrderIs();
    KeysAggregateIs(Toy(), ToyPks(x), [1, 2, x]);
  }

  /** The weighted keys have the logarithms 2, 4 and 2x, and no partial sum of them vanishes. */
  lemma ToyKeySums(x: nat)
    requires Chosen(x)
    ensures |Products([2, 2, 2], [1, 2, x])| == 3
    ensures NoPartialSumVanishes(31, [2, 2, 2][0] * [1, 2, x][0], Products([2, 2, 2], [1, 2, x])[1..])
  {
    assert Products([2, 2, 2], [1, 2, x])[1..] == [4, 2 * x];
    hide NoPartialSumVanishes, Products;
    TwoPartialSums(31, 2, 4, 2 * x);
  }

  lemma ToyOrderIs()
    ensures Toy().q == 31
  {
  }

  lemma AllTwo()
    ensures AllBelow(31, [2, 2, 2]) && AllPositive([2, 2, 2])
  {
  }

  lemma ToyAllXBelow(x: nat)
    requires Chosen(x)
    ensures |ToyPks(x)| == 3 && AllXBelow(Toy(), ToyPks(x))
  {
    ToyXs(x);
    assert Toy().q == 31;
    hide Curve.Exp, XOf, Toy;
  }

  lemma ToyNonces(states: seq<State>, i: nat)
    requires |states| == 3 && i < 3
    requires forall k :: 0 <= k < 3 ==>
               |states[k].ephk| == NV && states[k].ephk[0].sec == 2 && states[k].ephk[1].sec == 2
    ensures NonceSecret(states, 0) == 6 && NonceSecret(states, 1) == 6
    ensures NoncesAggregate(Toy(), states[i], RemoveAt(states, i))
  {
    var others := RemoveAt(states, i);
    NonceSecretOfThree(states, 0);
    NonceSecretOfThree(states, 1);
    assert NonceSecretsOf(others, 0) == [2, 2] && NonceSecretsOf(others, 1) == [2, 2];
    TwoPartialSums(31, 2, 2, 2);
    hide NoPartialSumVanishes;
  }

  lemma NonceSecretOfThree(states: seq<State>, j: nat)
    requires |states| == 3 && forall k :: 0 <= k < 3 ==> j < |states[k].ephk|
    ensures NonceSecret(states, j) == states[0].ephk[j].sec + states[1].ephk[j].sec + states[2].ephk[j].sec
  {
    var two, one := states[1..], states[1..][1..];
    assert one[1..] == [];
    assert NonceSecret(one, j) == states[2].ephk[j].sec + NonceSecret(one[1..], j);
    assert NonceSecret(two, j) == states[1].ephk[j].sec + NonceSecret(one, j);
  }

  lemma ToyDot(x: nat)
    ensures Dot([2, 2, 2], [1, 2, x]) == 6 + 2 * x
  {
    assert [2, 2, 2][1..] == [2, 2] && [1, 2, x][1..] == [2, x];
    assert [2, 2][1..] == [2] && [2, x][1..] == [x];
    assert [2][1..] == [] && [x][1..] == [];
    assert Dot([2], [x]) == 2 * x + Dot([2][1..], [x][1..]);
    assert Dot([2, 2], [2, x]) == 4 + Dot([2, 2][1..], [2, x][1..]);
    assert Dot([2, 2, 2], [1, 2, x]) == 2 + Dot([2, 2, 2][1..], [1, 2, x][1..]);
  }

  /** The global parameters exist: b = (1, 2), R has logarithm 18 and even y, and c = 2. */
  lemma ToyParameters(x: nat)
    requires Chosen(x)
    ensures var c := Toy();
            && BindingHash(c, c.Exp(6 + 2 * x), c.Exp(6), c.Exp(6), 1) == 2
            && ParametersExist(c, ToBytes(1, 32), c.Exp(6 + 2 * x), 6, 6)
            && NonceExponent([1, 2], 6, 6) == 18
            && ChallengeOf(c, XOf(c.Exp(18)), c.Exp(6 + 2 * x), 1 % 31) == 2
  {
    var c := Toy();
    ToyXs(x);
    MessageIsOne();
    HashIsTwo([XOf(c.Exp(6 + 2 * x)), XOf(c.Exp(6)), XOf(c.Exp(6)), 1, 1]);
    ToyChallenge(XOf(c.Exp(18)), c.Exp(6 + 2 * x), 1 % 31);
    hide Curve.Exp, HashScalars, XOf, FromBytes, ToBytes, ChallengeOf;
  }

  lemma ToyShareExists(x: nat)
    requires x == 1 || x == 2 || Chosen(x)
    ensures ShareExists(31, 2, 2, 2, 2, x, 2, 1)
  {
    assert NonceExponent([1, 2], 2, 2) == 6;
  }

  lemma ToyKeyOf(x: nat)
    requires Chosen(x)
    ensures ToySetup(x).AllPrepared()
    ensures var states := ToySetup(x).States();
            && KeyHashes(Toy(), Xs(Pks(states)), Xs(Pks(states))) == [2, 2, 2]
            && KeysAggregate(Toy(), Pks(states), Secrets(states))
            && KeyOf(Toy(), states) == Toy().Exp(6 + 2 * x)
  {
    ToyStates(x);
    ToyKeysAggregate(x);
    ToyDot(x);
    hide Curve.Exp, Setup.AllPrepared, KeyHashes, KeysAggregate, Pks, Secrets;
    KeyOfIs(Toy(), ToySetup(x).States());
  }

  /** The states of the three parties, as far as signing needs them. */
  lemma ToyShape(x: nat, i: nat)
    requires Chosen(x) && 1 <= i <= 3
    ensures Toy().q == 31 && ToySetup(x).AllPrepared() && ToySetup(x).message == ToBytes(1, 32)
    ensures var states := ToySetup(x).States();
            var others := RemoveAt(states, i - 1);
            && |states| == 3 && |others| == 2
            && (forall k :: 0 <= k < 3 ==> |states[k].ephk| == NV)
            && (forall k :: 0 <= k < 2 ==> |others[k].ephk| == NV)
            && states[i - 1].ephk[0].sec == 2 && states[i - 1].ephk[1].sec == 2
            && states[i - 1].keyPair.sec == (if i < 3 then i else x)
            && NonceSecret(states, 0) == 6 && NonceSecret(states, 1) == 6
            && NoncesAggregate(Toy(), states[i - 1], others)
  {
    hide *;
    ToyStates(x);
    ToySecrets(x, i);
    ToyOrderIs();
    OthersSizes(ToySetup(x).States(), i - 1);
    ToyNonces(ToySetup(x).States(), i - 1);
  }

  lemma ToySecrets(x: nat, i: nat)
    requires 1 <= i <= 3
    ensures ToySetup(x).keys[i - 1].sec == (if i < 3 then i else x) && ToySetup(x).message == ToBytes(1, 32)
  {
    hide Curve.Exp, ToBytes;
  }

  lemma OthersSizes(states: seq<State>, i: nat)
    requires |states| == 3 && i < 3 && forall k :: 0 <= k < 3 ==> |states[k].ephk| == NV
    ensures |RemoveAt(states, i)| == 2
    ensures forall k :: 0 <= k < 2 ==> |RemoveAt(states, i)[k].ephk| == NV
  {
  }

  /** Everybody can derive the parameters. */
  lemma ToyDerives(x: nat, i: nat)
    requires Chosen(x) && 1 <= i <= 3
    ensures ToySetup(x).AllPrepared() && Toy().q == 31 && |ToySetup(x).States()| == 3
    ensures forall k :: 0 <= k < 3 ==> |ToySetup(x).States()[k].ephk| == NV
    ensures CanDerive(Toy(), ToySetup(x).States(), ToBytes(1, 32), i - 1, RemoveAt(ToySetup(x).States(), i - 1))
  {
    hide *;
    ToyShape(x, i);
    ToyParameters(x);
    ToyKeyOf(x);
    CanDeriveIs(Toy(), ToySetup(x).States(), ToBytes(1, 32), i - 1, RemoveAt(ToySetup(x).States(), i - 1));
  }

  lemma ToyCanSign(x: nat, i: nat)
    requires Chosen(x) && 1 <= i <= 3
    ensures ToySetup(x).AllPrepared() && Toy().q == 31 && |ToySetup(x).States()| == 3
    ensures forall k :: 0 <= k < 3 ==> |ToySetup(x).States()[k].ephk| == NV
    ensures CanSign(Toy(), ToySetup(x).States(), ToBytes(1, 32), i - 1, RemoveAt(ToySetup(x).States(), i - 1))
  {
    hide *;
    ToyShape(x, i);
    ToyDerives(x, i);
    ToyKeyOf(x);
    ToyParameters(x);
    MessageIsOne();
    EvenNonce(x);
    ToyShareExists(if i < 3 then i else x);
    assert [2, 2, 2][i - 1] == 2;
    CanSignIs(Toy(), ToySetup(x).States(), ToBytes(1, 32), i - 1, RemoveAt(ToySetup(x).States(), i - 1));
  }

  lemma EvenNonce(x: nat)
    requires Chosen(x)
    ensures SignOf(Toy().OddY(Toy().Exp(18))) == 1
  {
    ToyXs(x);
    hide Curve.Exp, Curve.OddY;
  }

  /** Everybody signs. */
  lemma ToySigns(x: nat)
    requires Chosen(x)
    ensures ToySetup(x).Honest() && ToySetup(x).AllSigning()
  {
    var su := ToySetup(x);
    ToyHonest(x);
    HonestValid(su);
    hide Setup.Honest, CanSign, Setup.Signing;
    forall i | su.IsParty(i)
      ensures su.Signing(i).Ok?
    {
      ToyCanSign(x, i);
      SigningIff(su, i);
    }
  }

  // ---- finishing ----

  /** The share of the secret z. */
  function ToyShareValue(z: nat): nat {
    (6 + 4 * z) % 31
  }

  lemma ToyCoefficients(x: nat)
    requires Chosen(x)
    ensures ToySetup(x).AllPrepared() && AggCoefficients(Toy(), Pks(ToySetup(x).States())) == Ok([2, 2, 2])
  {
    hide *;
    ToyStates(x);
    var states := ToySetup(x).States();
    ToyShape(x, 1);
    ToyKeyOf(x);
    ToyIsValid();
    PksHaveLogs(Toy(), states);
    KeyAggregationIff(Toy(), Pks(states), Secrets(states), 0);
    KeysAggregateIs(Toy(), Pks(states), Secrets(states));
  }

  lemma ToyParams(x: nat)
    requires Chosen(x)
    ensures Toy().q == 31
    ensures ParamsFromNonces(Toy(), ToBytes(1, 32), Toy().Exp(6 + 2 * x), [Toy().Exp(6), Toy().Exp(6)]) ==
            Ok(GlobalParams(2, Toy().Exp(18), [1, 2]))
  {
    hide *;
    ToyIsValid();
    ToyOrderIs();
    MessageIsOne();
    ToyParameters(x);
    Toy().ExpOnCurve(6 + 2 * x);
    ParamsIff(Toy(), ToBytes(1, 32), Toy().Exp(6 + 2 * x), 6, 6);
  }

  /** The parameters everybody arrives at. */
  lemma ToyJoint(x: nat)
    requires Chosen(x)
    ensures Toy().q == 31 && ToySetup(x).AllPrepared() && AllConsistent(Toy(), ToySetup(x).States())
    ensures JointParams(Toy(), ToySetup(x).States(), ToBytes(1, 32)) == Ok(GlobalParams(2, Toy().Exp(18), [1, 2]))
    ensures AggCoefficients(Toy(), Pks(ToySetup(x).States())) == Ok([2, 2, 2])
  {
    hide *;
    ToyStates(x);
    ToyShape(x, 1);
    ToyDot(x);
    ToyCoefficients(x);
    ToyParams(x);
    JointParamsIs(Toy(), ToySetup(x).States(), ToBytes(1, 32));
  }

  lemma JointParamsIs(c: Curve, states: seq<State>, message: seq<byte>)
    requires c.q > 0 && AllConsistent(c, states) && AggCoefficients(c, Pks(states)).Ok?
    ensures JointParams(c, states, message) ==
            ParamsFromNonces(c, message, c.Exp(Dot(AggCoefficients(c, Pks(states)).value, Secrets(states))),
                             [c.Exp(NonceSecret(states, 0)), c.Exp(NonceSecret(states, 1))])
  {
    hide AggCoefficients, ParamsFromNonces, Dot, NonceSecret, AllConsistent;
  }

  lemma ShareFromEquation(s: nat, st: State, z: nat)
    requires |st.ephk| == NV && st.ephk[0].sec == 2 && st.ephk[1].sec == 2 && st.keyPair.sec == z && s < 31
    requires IsShare(31, s, st, 2, [1, 2], 2, 1)
    ensures s == ToyShareValue(z)
  {
    DotOfTwo(Secs(st.ephk), [1, 2]);
    ModUnique(s, 0, s, 31);
  }

  lemma ToyShareOf(x: nat, i: nat)
    requires Chosen(x) && 1 <= i <= 3
    ensures ToySetup(x).Honest() && Toy().q == 31 && ToySetup(x).AllSigning()
    ensures ToySetup(x).IsParty(i) && ToySetup(x).Signing(i).Ok?
    ensures ToySetup(x).Signing(i).value.0.state2.s == ToyShareValue(if i < 3 then i else x)
  {
    hide *;
    var su := ToySetup(x);
    ToySigns(x);
    ToyOrderIs();
    ToyIsValid();
    HonestValid(su);
    SignsAt(su, i);
    HonestSigning(su, i);
    ToyJoint(x);
    ToyShape(x, i);
    EvenNonce(x);
    var states := su.States();
    SignedShare(Toy(), states, ToBytes(1, 32), i - 1, RemoveAt(states, i - 1), su.Signing(i).value.0.state2);
    assert [2, 2, 2][i - 1] == 2;
    ShareFromEquation(su.Signing(i).value.0.state2.s, states[i - 1], if i < 3 then i else x);
  }

  lemma SignsAt(su: Setup, i: nat)
    requires su.c.q > 0 && su.N() <= U16_MAX && su.AllSigning() && 1 <= i <= su.N()
    ensures su.AllPrepared() && su.IsParty(i) && su.Signing(i).Ok?
  {
    assert su.IsParty(i);
    hide Setup.Signing;
  }

  lemma ToyShares(x: nat)
    requires Chosen(x)
    ensures ToySetup(x).Honest() && Toy().q == 31 && ToySetup(x).AllSigning()
    ensures Shares(SignedStates(ToySetup(x))) == [10, 14, ToyShareValue(x)]
  {
    hide *;
    var su := ToySetup(x);
    ToySigns(x);
    ToyShareOf(x, 1);
    ToyShareOf(x, 2);
    ToyShareOf(x, 3);
    ToyValues();
    HonestValid(su);
    SignedShareOf(su, 1);
    SignedShareOf(su, 2);
    SignedShareOf(su, 3);
    ListOfThree(Shares(SignedStates(su)));
  }

  lemma ToyValues()
    ensures ToyShareValue(1) == 10 && ToyShareValue(2) == 14 && ToyShareValue(9) == 11 && ToyShareValue(27) == 21
    ensures Chosen(9) && Chosen(27)
  {
  }

  lemma ListOfThree<T>(s: seq<T>)
    requires |s| == 3
    ensures s == [s[0], s[1], s[2]]
  {
  }

  /** A party finishes exactly when its two partial sums of shares do not vanish modulo 31. */
  lemma ToyFinishingIff(x: nat, i: nat, own: nat, a: nat, b: nat)
    requires Chosen(x) && 1 <= i <= 3
    requires [own, a, b] == match i
                            case 1 => [10, 14, ToyShareValue(x)]
                            case 2 => [14, 10, ToyShareValue(x)]
                            case _ => [ToyShareValue(x), 10, 14]
    ensures ToySetup(x).Honest() && Toy().q == 31 && ToySetup(x).AllSigning()
    ensures ToySetup(x).Finishing(i).Ok? <==> (own + a) % 31 != 0 && (own + a + b) % 31 != 0
    ensures !ToySetup(x).Finishing(i).Panic?
    ensures ToySetup(x).IsParty(1) && ToySetup(x).IsParty(2) && ToySetup(x).IsParty(3)
  {
    hide *;
    var su := ToySetup(x);
    PickOfThree(10, 14, ToyShareValue(x), i);
    ToyShares(x);
    PartiesOfThree(x);
    HonestFinishing(su, i);
    TwoPartialSums(31, own, a, b);
  }

  lemma PickOfThree(a: nat, b: nat, d: nat, i: nat)
    requires 1 <= i <= 3
    ensures RemoveAt([a, b, d], i - 1) == (match i case 1 => [b, d] case 2 => [a, d] case _ => [a, b])
  {
  }

  lemma PartiesOfThree(x: nat)
    ensures ToySetup(x).IsParty(1) && ToySetup(x).IsParty(2) && ToySetup(x).IsParty(3)
  {
  }

  /** Three honest parties of whom all computations succeed. */
  lemma EverybodyFinishes()
    ensures ToySetup(9).Honest() && ToySetup(9).N() == 3 && ToySetup(9).c.q > 0 && AllSucceed(ToySetup(9))
  {
    hide *;
    ToyValues();
    ToyFinishingIff(9, 1, 10, 14, 11);
    ToyFinishingIff(9, 2, 14, 10, 11);
    ToyFinishingIff(9, 3, 11, 10, 14);
    AllSucceedOfThree(ToySetup(9));
  }

  lemma AllSucceedOfThree(su: Setup)
    requires su.c.q > 0 && su.N() == 3 && su.AllSigning()
    requires su.IsParty(1) && su.IsParty(2) && su.IsParty(3)
    requires su.Finishing(1).Ok? && su.Finishing(2).Ok? && su.Finishing(3).Ok?
    ensures AllSucceed(su)
  {
    hide Setup.AllSigning, Setup.Finishing;
  }

  /** Three honest parties who all sign; the first finishes and the third fails. */
  lemma OneFinishesOneFails()
    ensures ToySetup(27).Honest() && ToySetup(27).c.q > 0 && ToySetup(27).AllSigning()
    ensures ToySetup(27).Finishing(1).Ok? && ToySetup(27).Finishing(3).Err?
  {
    hide *;
    ToyValues();
    ToyFinishingIff(27, 1, 10, 14, 21);
    ToyFinishingIff(27, 3, 21, 10, 14);
  }

  // ---- whole schedules ----

  lemma FinishedWhenQuiet(su: Setup, actions: seq<Action>, i: nat)
    requires su.Honest() && su.c.q > 0 && 1 <= su.N() <= U16_MAX && su.IsParty(i) && su.AllSigning()
    requires Quiescent(su, Execute(su, actions))
    ensures Execute(su, actions).parties[i - 1].machine.round.Finished? <==> su.Finishing(i).Ok?
  {
    hide *;
    HonestFinishing(su, i);
    QuietMeansDone(su, actions, i);
  }

  /** A schedule of three honest parties at whose quiet end everybody has finished. */
  lemma QuietWithAllFinished() returns (actions: seq<Action>)
    ensures ToySetup(9).Honest() && ToySetup(9).c.q > 0 && Quiescent(ToySetup(9), Execute(ToySetup(9), actions))
    ensures forall k :: 0 <= k < 3 ==> Execute(ToySetup(9), actions).parties[k].machine.round.Finished?
  {
    hide *;
    EverybodyFinishes();
    HonestValid(ToySetup(9));
    SucceedOfThree(ToySetup(9));
    actions := QuietIsReachable(ToySetup(9), []);
    FinishedWhenQuiet(ToySetup(9), actions, 1);
    FinishedWhenQuiet(ToySetup(9), actions, 2);
    FinishedWhenQuiet(ToySetup(9), actions, 3);
  }

  lemma SucceedOfThree(su: Setup)
    requires su.c.q > 0 && su.N() == 3 && AllSucceed(su)
    ensures su.AllSigning() && su.IsParty(1) && su.IsParty(2) && su.IsParty(3)
    ensures su.Finishing(1).Ok? && su.Finishing(2).Ok? && su.Finishing(3).Ok?
  {
    hide Setup.AllSigning, Setup.Finishing;
    assert su.IsParty(1) && su.IsParty(2) && su.IsParty(3);
  }

  /** One at whose quiet end the first party has finished and the third has not, and never will. */
  lemma QuietWithOneFailed() returns (actions: seq<Action>)
    ensures ToySetup(27).Honest() && ToySetup(27).c.q > 0 && Quiescent(ToySetup(27), Execute(ToySetup(27), actions))
    ensures Execute(ToySetup(27), actions).parties[0].machine.round.Finished?
    ensures !Execute(ToySetup(27), actions).parties[2].machine.round.Finished?
  {
    hide *;
    OneFinishesOneFails();
    HonestValid(ToySetup(27));
    PartiesOfThree(27);
    actions := QuietIsReachable(ToySetup(27), []);
    FinishedWhenQuiet(ToySetup(27), actions, 1);
    FinishedWhenQuiet(ToySetup(27), actions, 3);
  }

  /** A concrete party that crosses from round 1 to round 3 in one call, whatever the two messages say. */
  lemma ToyPartyCrosses(b1: MessageRound1, b2: MessageRound2)
    ensures Toy().q > 0
    ensures var p := Prepare(1, ToyKey(1), ToBytes(1, 32));
            var es := [Call, Deliver(Msg(2, None, FromRound2(b2)))];
            && Run(Toy(), p, 2, es).machine.CurrentRound() == 1
            && Run(Toy(), p, 2, es + [Deliver(Msg(2, None, FromRound1(b1)))]).machine.CurrentRound() == 3
  {
    var p := Prepare(1, ToyKey(1), ToBytes(1, 32));
    ToyIsValid();
    HashIsTwo([1, 0]);
    HashIsTwo([1, 1]);
    hide Curve.Valid, PrepareStep, HashValue, Run, Curve.Exp;
    PrepareIff(Toy(), p);
    OvertakenRunCrosses(Toy(), p, 2, b1, b2);
  }
}
