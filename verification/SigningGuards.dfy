/**
 When signing succeeds. Each computation of round 1 is given its exact guard, in terms of the secrets
 and the hashes; together they say when an honest party signs.
 */
module SigningGuards {
  import opened Wrappers
  import opened Arith
  import opened Curves
  import opened Keys
  import opened Musig2
  import opened Hashing
  import opened SignatureTheory
  import opened SignatureCorrectness
  import opened Broadcast
  import opened Rounds
  import opened MachineRuns
  import opened HonestRounds

  /** A hash of scalars, read as a number. */
  function HashValue(c: Curve, ks: seq<nat>): nat {
    FromBytes(HashScalars(c, ks))
  }

  /** A hash parses exactly when its value is below the order. */
  lemma HashParses(c: Curve, ks: seq<nat>)
    requires c.Valid()
    ensures ParseSlice(c, HashScalars(c, ks)) ==
            if HashValue(c, ks) < c.q then Ok(HashValue(c, ks)) else Err(InvalidPrivateKey)
  {
    assert Appeal(Digests);
  }

  // ---- key aggregation ----

  function Xs(pts: seq<Point>): (r: seq<nat>)
    ensures |r| == |pts| && forall k :: 0 <= k < |pts| ==> r[k] == XOf(pts[k])
  {
    seq(|pts|, k requires 0 <= k < |pts| => XOf(pts[k]))
  }

  ghost predicate AllOnCurve(c: Curve, pts: seq<Point>) {
    forall k :: 0 <= k < |pts| ==> c.OnCurve(pts[k])
  }

  ghost predicate AllXBelow(c: Curve, pts: seq<Point>) {
    forall k :: 0 <= k < |pts| ==> XOf(pts[k]) < c.q
  }

  lemma {:induction false} XScalarsIff(c: Curve, pts: seq<Point>)
    requires c.Valid() && AllOnCurve(c, pts)
    ensures XScalars(c, pts) == if AllXBelow(c, pts) then Ok(Xs(pts)) else Err(InvalidPrivateKey)
  {
    hide Curve.Valid, Curve.OnCurve, ParseSlice, XCoor, XOf;
    if pts == [] {
    } else {
      XParse(c, pts[0]);
      XScalarsIff(c, pts[1..]);
      assert pts == [pts[0]] + pts[1..];
      assert Xs(pts) == [XOf(pts[0])] + Xs(pts[1..]);
      assert AllXBelow(c, pts) <==> XOf(pts[0]) < c.q && AllXBelow(c, pts[1..]);
    }
  }

  /** The coefficients of key aggregation, before anything is checked. */
  function KeyHashes(c: Curve, of: seq<nat>, xs: seq<nat>): (r: seq<nat>)
    ensures |r| == |of| && forall k :: 0 <= k < |of| ==> r[k] == HashValue(c, [1, of[k]] + xs)
  {
    seq(|of|, k requires 0 <= k < |of| => HashValue(c, [1, of[k]] + xs))
  }

  ghost predicate AllBelow(q: nat, s: seq<nat>) {
    forall k :: 0 <= k < |s| ==> s[k] < q
  }

  ghost predicate AllPositive(s: seq<nat>) {
    forall k :: 0 <= k < |s| ==> s[k] > 0
  }

  lemma {:induction false} CoefficientsIff(c: Curve, of: seq<nat>, xs: seq<nat>)
    requires c.Valid()
    ensures Coefficients(c, of, xs) ==
            if AllBelow(c.q, KeyHashes(c, of, xs)) then Ok(KeyHashes(c, of, xs)) else Err(InvalidPrivateKey)
  {
    hide Curve.Valid, ParseSlice, HashScalars, HashValue;
    var hs := KeyHashes(c, of, xs);
    if of == [] {
    } else {
      HashParses(c, [1, of[0]] + xs);
      CoefficientsIff(c, of[1..], xs);
      assert hs == [hs[0]] + KeyHashes(c, of[1..], xs);
    }
  }

  lemma {:induction false} WeightKeysIff(c: Curve, pks: seq<Point>, a: seq<nat>)
    requires |pks| == |a|
    ensures WeightKeys(c, pks, a).Ok? <==> AllPositive(a)
    ensures !WeightKeys(c, pks, a).Panic?
  {
    if pks == [] {
    } else {
      WeightKeysIff(c, pks[1..], a[1..]);
      assert a == [a[0]] + a[1..];
    }
  }

  /** Adding up points succeeds exactly when no partial sum of their logarithms vanishes. */
  lemma {:induction false} FoldPointsSucceedsIff(c: Curve, k0: nat, pts: seq<Point>, ks: seq<nat>)
    requires c.Valid() && HaveLogs(c, pts, ks)
    ensures FoldPoints(c, c.Exp(k0), pts).Ok? <==> NoPartialSumVanishes(c.q, k0, ks)
    ensures !FoldPoints(c, c.Exp(k0), pts).Panic?
    decreases pts
  {
    FieldFits(c);
    hide Curve.Valid, Curve.Exp, NoPartialSumVanishes;
    if pts == [] {
      NoneVanishes(c.q, k0);
    } else {
      FoldPointsStep(c, k0, pts, ks[0]);
      hide FoldPoints;
      FoldPointsSucceedsIff(c, k0 + ks[0], pts[1..], ks[1..]);
      VanishingStep(c.q, k0, ks);
    }
  }

  lemma FoldPointsStep(c: Curve, k0: nat, pts: seq<Point>, k: nat)
    requires c.Valid() && pts != [] && pts[0] == c.Exp(k)
    ensures FoldPoints(c, c.Exp(k0), pts) ==
            if (k0 + k) % c.q == 0 then Err(InvalidPublicKey) else FoldPoints(c, c.Exp(k0 + k), pts[1..])
  {
    FieldFits(c);
    c.ExpAdd(k0, k);
    c.ExpIsInfinity(k0 + k);
    hide Curve.Valid, Curve.Exp;
  }

  lemma NoneVanishes(q: nat, k0: nat)
    requires q > 0
    ensures NoPartialSumVanishes(q, k0, [])
  {
  }

  lemma VanishingStep(q: nat, k0: nat, ks: seq<nat>)
    requires q > 0 && ks != []
    ensures NoPartialSumVanishes(q, k0, ks) <==>
            (k0 + ks[0]) % q != 0 && NoPartialSumVanishes(q, k0 + ks[0], ks[1..])
  {
    var next, rest := k0 + ks[0], ks[1..];
    PartialSumFirst(k0, ks);
    forall k | 1 <= k <= |ks|
      ensures PartialSum(k0, ks, k) == PartialSum(next, rest, k - 1)
    {
      assert ks[..k][1..] == rest[..k - 1];
    }
    hide PartialSum;
    if NoPartialSumVanishes(q, k0, ks) {
      forall k | 1 <= k <= |rest|
        ensures PartialSum(next, rest, k) % q != 0
      {
        assert PartialSum(k0, ks, k + 1) % q != 0;
      }
    }
    if next % q != 0 && NoPartialSumVanishes(q, next, rest) {
      forall k | 1 <= k <= |ks|
        ensures PartialSum(k0, ks, k) % q != 0
      {
        if k > 1 {
          assert PartialSum(next, rest, k - 1) % q != 0;
        }
      }
    }
  }

  /** The keys can be aggregated: x coordinates and hashes are scalars, and no partial sum is infinite. */
  ghost predicate KeysAggregate(c: Curve, pks: seq<Point>, secrets: seq<nat>)
    requires c.q > 0 && |pks| == |secrets| > 0
  {
    var a := KeyHashes(c, Xs(pks), Xs(pks));
    && AllXBelow(c, pks) && AllBelow(c.q, a) && AllPositive(a)
    && NoPartialSumVanishes(c.q, a[0] * secrets[0], Products(a, secrets)[1..])
  }

  lemma KeyAggregationIff(c: Curve, pks: seq<Point>, secrets: seq<nat>, i: nat)
    requires c.Valid() && HaveLogs(c, pks, secrets) && i < |pks|
    ensures KeyAggregation(c, pks, i).Ok? <==> KeysAggregate(c, pks, secrets)
    ensures AllXBelow(c, pks) && AllBelow(c.q, KeyHashes(c, Xs(pks), Xs(pks))) ==>
              AggCoefficients(c, pks) == Ok(KeyHashes(c, Xs(pks), Xs(pks)))
  {
    var xs := Xs(pks);
    var a := KeyHashes(c, xs, xs);
    LogsOnCurve(c, pks, secrets);
    hide *;
    FieldFits(c);
    XScalarsIff(c, pks);
    CoefficientsIff(c, xs, xs);
    WeightedSumIff(c, pks, a, secrets);
    KeyAggregationSteps(c, pks, i);
    KeysAggregateIs(c, pks, secrets);
    AggCoefficientsIs(c, pks);
  }

  lemma AggCoefficientsIs(c: Curve, pks: seq<Point>)
    ensures XScalars(c, pks).Ok? ==>
              AggCoefficients(c, pks) == Coefficients(c, XScalars(c, pks).value, XScalars(c, pks).value)
  {
    hide XScalars, Coefficients;
  }

  lemma KeysAggregateIs(c: Curve, pks: seq<Point>, secrets: seq<nat>)
    requires c.q > 0 && |pks| == |secrets| > 0
    ensures var a := KeyHashes(c, Xs(pks), Xs(pks));
            KeysAggregate(c, pks, secrets) <==>
            && AllXBelow(c, pks) && AllBelow(c.q, a) && AllPositive(a)
            && NoPartialSumVanishes(c.q, a[0] * secrets[0], Products(a, secrets)[1..])
  {
    hide AllXBelow, AllBelow, AllPositive, NoPartialSumVanishes, KeyHashes, Products;
  }

  lemma KeyAggregationSteps(c: Curve, pks: seq<Point>, i: nat)
    requires i < |pks|
    ensures var xs := XScalars(c, pks);
            KeyAggregation(c, pks, i).Ok? <==>
            && xs.Ok? && Coefficients(c, xs.value, xs.value).Ok?
            && WeightKeys(c, pks, Coefficients(c, xs.value, xs.value).value).Ok?
            && var w := WeightKeys(c, pks, Coefficients(c, xs.value, xs.value).value).value;
               FoldPoints(c, w[0], w[1..]).Ok?
  {
    hide XScalars, Coefficients, WeightKeys, FoldPoints;
  }

  /** The weighted sum of the keys exists exactly when no weight is zero and no partial sum vanishes. */
  lemma WeightedSumIff(c: Curve, pks: seq<Point>, a: seq<nat>, secrets: seq<nat>)
    requires c.Valid() && c.q > 0 && HaveLogs(c, pks, secrets) && |pks| == |a| > 0
    ensures WeightKeys(c, pks, a).Ok? <==> AllPositive(a)
    ensures WeightKeys(c, pks, a).Ok? ==>
              var w := WeightKeys(c, pks, a).value;
              FoldPoints(c, w[0], w[1..]).Ok? <==>
              NoPartialSumVanishes(c.q, a[0] * secrets[0], Products(a, secrets)[1..])
  {
    hide Curve.Valid, Curve.Exp, AllPositive, FoldPoints, NoPartialSumVanishes, WeightKeys;
    WeightKeysIff(c, pks, a);
    if WeightKeys(c, pks, a).Ok? {
      WeightKeysLogs(c, pks, a, secrets);
      var w, ks := WeightKeys(c, pks, a).value, Products(a, secrets);
      FoldPointsSucceedsIff(c, ks[0], w[1..], ks[1..]);
    }
  }

  lemma LogsOnCurve(c: Curve, pts: seq<Point>, ks: seq<nat>)
    requires c.Valid() && HaveLogs(c, pts, ks)
    ensures AllOnCurve(c, pts)
  {
    hide Curve.Valid, Curve.Exp, Curve.OnCurve;
    forall k | 0 <= k < |pts|
      ensures c.OnCurve(pts[k])
    {
      c.ExpOnCurve(ks[k]);
    }
  }

  // ---- nonce aggregation ----

  /** The j-th nonce secrets, party by party. */
  function NonceSecretsOf(states: seq<State>, j: nat): (r: seq<nat>)
    requires forall i :: 0 <= i < |states| ==> j < |states[i].ephk|
    ensures |r| == |states| && forall i :: 0 <= i < |states| ==> r[i] == states[i].ephk[j].sec
  {
    seq(|states|, i requires 0 <= i < |states| => states[i].ephk[j].sec)
  }

  /** No partial sum of the j-th nonces is infinite, starting with one's own. */
  ghost predicate NonceSumExists(q: nat, own: nat, others: seq<State>, j: nat)
    requires q > 0 && forall i :: 0 <= i < |others| ==> j < |others[i].ephk|
  {
    NoPartialSumVanishes(q, own, NonceSecretsOf(others, j))
  }

  lemma ConsistentSizes(c: Curve, states: seq<State>)
    requires AllConsistent(c, states)
    ensures forall i :: 0 <= i < |states| ==> |states[i].ephk| == NV
  {
    forall i | 0 <= i < |states|
      ensures |states[i].ephk| == NV
    {
      assert Consistent(c, states[i]);
    }
  }

  lemma RestConsistent(c: Curve, states: seq<State>)
    requires AllConsistent(c, states) && states != []
    ensures Consistent(c, states[0]) && AllConsistent(c, states[1..])
  {
    hide Consistent;
    forall i | 0 <= i < |states[1..]|
      ensures Consistent(c, states[1..][i])
    {
      assert states[1..][i] == states[i + 1];
    }
  }

  lemma NonceSumStep(c: Curve, k0: nat, others: seq<State>, j: nat)
    requires c.Valid() && others != [] && Consistent(c, others[0]) && j < NV
    ensures NonceSum(c, c.Exp(k0), Nonces(others), j).Ok? <==>
            && (k0 + others[0].ephk[j].sec) % c.q != 0
            && NonceSum(c, c.Exp(k0 + others[0].ephk[j].sec), Nonces(others[1..]), j).Ok?
  {
    var k := others[0].ephk[j].sec;
    FieldFits(c);
    c.ExpAdd(k0, k);
    c.ExpIsInfinity(k0 + k);
    hide Curve.Valid, Curve.Exp;
    assert Nonces(others)[0][j] == c.Exp(k);
    assert Nonces(others)[1..] == Nonces(others[1..]);
  }

  lemma {:induction false} NonceSumIff(c: Curve, k0: nat, others: seq<State>, j: nat)
    requires c.Valid() && AllConsistent(c, others) && j < NV
    requires forall i :: 0 <= i < |others| ==> |others[i].ephk| == NV
    ensures NonceSum(c, c.Exp(k0), Nonces(others), j).Ok? <==> NonceSumExists(c.q, k0, others, j)
    decreases others
  {
    FieldFits(c);
    if others == [] {
      hide Curve.Valid, Curve.Exp, NoPartialSumVanishes;
      assert NonceSecretsOf(others, j) == [];
      NoneVanishes(c.q, k0);
    } else {
      hide Curve.Valid, Curve.Exp, NoPartialSumVanishes, NonceSum, Nonces, Consistent, AllConsistent, NonceSumExists;
      var k, rest := others[0].ephk[j].sec, others[1..];
      RestConsistent(c, others);
      NonceSumStep(c, k0, others, j);
      NonceSumIff(c, k0 + k, rest, j);
      NonceSumExistsStep(c.q, k0, others, j);
    }
  }

  lemma NonceSumExistsStep(q: nat, own: nat, others: seq<State>, j: nat)
    requires q > 0 && others != [] && j < NV
    requires forall i :: 0 <= i < |others| ==> |others[i].ephk| == NV
    ensures var k := others[0].ephk[j].sec;
            NonceSumExists(q, own, others, j) <==> (own + k) % q != 0 && NonceSumExists(q, own + k, others[1..], j)
  {
    hide NoPartialSumVanishes;
    assert NonceSecretsOf(others, j)[1..] == NonceSecretsOf(others[1..], j);
    VanishingStep(q, own, NonceSecretsOf(others, j));
  }

  ghost predicate NoncesAggregate(c: Curve, own: State, others: seq<State>)
    requires c.q > 0 && |own.ephk| == NV && forall i :: 0 <= i < |others| ==> |others[i].ephk| == NV
  {
    && NonceSumExists(c.q, own.ephk[0].sec, others, 0)
    && NonceSumExists(c.q, own.ephk[1].sec, others, 1)
  }

  lemma NonceSumsIff(c: Curve, own: State, others: seq<State>)
    requires c.Valid() && Consistent(c, own) && AllConsistent(c, others)
    requires forall i :: 0 <= i < |others| ==> |others[i].ephk| == NV
    ensures NonceSums(c, own, Nonces(others), NV).Ok? <==> NoncesAggregate(c, own, others)
  {
    FieldFits(c);
    NonceSumIff(c, own.ephk[0].sec, others, 0);
    NonceSumIff(c, own.ephk[1].sec, others, 1);
    hide Curve.Valid, Curve.Exp, NonceSum, NonceSumExists;
    assert NonceSums(c, own, Nonces(others), 0) == Ok([]);
  }

  // ---- global parameters ----

  /** The hash that becomes the second binding coefficient; the first is 1. */
  function BindingHash(c: Curve, xTilde: Point, r0: Point, r1: Point, m: nat): nat {
    HashValue(c, [XOf(xTilde), XOf(r0), XOf(r1), m, 1])
  }

  /**
   The parameters can be derived from the aggregate key and the aggregated nonces n0*G and n1*G: the
   x coordinates, the message and the hash are scalars, the hash is not zero, and R is finite.
   */
  ghost predicate ParametersExist(c: Curve, message: seq<byte>, xTilde: Point, n0: nat, n1: nat)
    requires c.q > 0
  {
    var r0, r1 := c.Exp(n0), c.Exp(n1);
    && XOf(xTilde) < c.q && XOf(r0) < c.q && XOf(r1) < c.q
    && |message| == 32 && FromBytes(message) < c.q
    && var b := BindingHash(c, xTilde, r0, r1, FromBytes(message));
       && 0 < b < c.q && NonceExponent([1, b], n0, n1) % c.q != 0
       && XOf(c.Exp(NonceExponent([1, b], n0, n1))) < c.q
  }

  lemma BindingIff(c: Curve, xTilde: Point, r0: Point, r1: Point, message: seq<byte>)
    requires c.Valid() && c.OnCurve(xTilde) && c.OnCurve(r0) && c.OnCurve(r1)
    ensures Binding(c, xTilde, [r0, r1], message, 1) ==
            if XOf(xTilde) >= c.q || XOf(r0) >= c.q || XOf(r1) >= c.q then Err(InvalidPrivateKey)
            else if |message| != 32 then Err(InvalidInputLength)
            else if FromBytes(message) >= c.q then Err(InvalidPrivateKey)
            else
              var b := BindingHash(c, xTilde, r0, r1, FromBytes(message));
              if b < c.q then Ok(b) else Err(InvalidPrivateKey)
  {
    hide Curve.Valid, Curve.OnCurve, XOf, XCoor, HashScalars, HashValue;
    XParse(c, xTilde);
    assert [r0, r1][..NV] == [r0, r1];
    XScalarsIff(c, [r0, r1]);
    assert Xs([r0, r1]) == [XOf(r0), XOf(r1)];
    if |message| == 32 && FromBytes(message) < c.q {
      var m := FromBytes(message);
      assert [XOf(xTilde)] + [XOf(r0), XOf(r1)] + [m] + [1] == [XOf(xTilde), XOf(r0), XOf(r1), m, 1];
      HashParses(c, [XOf(xTilde), XOf(r0), XOf(r1), m, 1]);
    }
  }

  lemma GlobalNonceIff(c: Curve, n0: nat, n1: nat, b: nat)
    requires c.Valid() && b < c.q
    ensures GlobalNonce(c, [c.Exp(n0), c.Exp(n1)], [1, b]) ==
            if b == 0 then Err(InvalidPrivateKey)
            else if NonceExponent([1, b], n0, n1) % c.q == 0 then Err(InvalidPublicKey)
            else Ok(c.Exp(NonceExponent([1, b], n0, n1)))
  {
    hide Curve.Valid, Curve.Exp, Curve.Mul;
    FieldFits(c);
    var rs, bs := [c.Exp(n0), c.Exp(n1)], [1, b];
    MulNat(b, n1);
    var u, v := 1 * n0, b * n1;
    c.ExpMul(1, n0);
    c.ExpMul(b, n1);
    c.ExpAdd(u, v);
    c.ExpIsInfinity(u + v);
    assert rs[1..] == [c.Exp(n1)] && bs[1..] == [b];
    assert NonceExponent(bs, n0, n1) == u + v;
    WeightedPointsOfOne(c, c.Exp(u), c.Exp(n1), b);
  }

  lemma WeightedPointsOfOne(c: Curve, acc: Point, r: Point, b: nat)
    ensures WeightedPoints(c, acc, [r], [b]) ==
            if b == 0 then Err(InvalidPrivateKey) else AddPoint(c, acc, c.Mul(b, r))
  {
    assert [r][1..] == [];
    if b != 0 && AddPoint(c, acc, c.Mul(b, r)).Ok? {
      var next := AddPoint(c, acc, c.Mul(b, r)).value;
      assert WeightedPoints(c, next, [r][1..], [b][1..]) == Ok(next);
    }
  }

  /** What remains once the coefficients and R are known. */
  lemma ParamsOfNonce(c: Curve, message: seq<byte>, xTilde: Point, rs: seq<Point>, bs: seq<nat>, r: Point)
    requires c.Valid() && c.OnCurve(xTilde) && c.OnCurve(r) && |rs| == NV && |bs| == NV && |message| == 32
    requires Bindings(c, xTilde, rs, message, NV) == Ok(bs) && GlobalNonce(c, rs, bs) == Ok(r)
    requires XOf(xTilde) < c.q
    ensures ParamsFromNonces(c, message, xTilde, rs) ==
            if XOf(r) < c.q
            then Ok(GlobalParams(ChallengeOf(c, XOf(r), xTilde, FromBytes(message) % c.q), r, bs))
            else Err(InvalidPrivateKey)
  {
    FieldFits(c);
    hide Curve.Valid, Curve.OnCurve, Bindings, Challenge, GlobalNonce, XCoor, ParseSlice, XOf, FromBytes;
    XParse(c, r);
    XParse(c, xTilde);
    XCoorValue(c, xTilde);
    ChallengeHash(c, XOf(r), xTilde, FromBytes(message) % c.q);
  }

  lemma ParamsFail(c: Curve, message: seq<byte>, xTilde: Point, rs: seq<Point>)
    requires c.q > 0 && |rs| == NV
    ensures Bindings(c, xTilde, rs, message, NV).IsFailure() ==> !ParamsFromNonces(c, message, xTilde, rs).Ok?
    ensures Bindings(c, xTilde, rs, message, NV).Ok? ==>
              GlobalNonce(c, rs, Bindings(c, xTilde, rs, message, NV).value).IsFailure() ==>
                !ParamsFromNonces(c, message, xTilde, rs).Ok?
  {
    hide Bindings, GlobalNonce, XCoor, ParseSlice, ParseMessage, Challenge;
  }

  /** The parameters, and exactly when they exist. */
  lemma ParamsIff(c: Curve, message: seq<byte>, xTilde: Point, n0: nat, n1: nat)
    requires c.Valid() && c.OnCurve(xTilde)
    ensures ParamsFromNonces(c, message, xTilde, [c.Exp(n0), c.Exp(n1)]).Ok? <==>
            ParametersExist(c, message, xTilde, n0, n1)
    ensures ParametersExist(c, message, xTilde, n0, n1) ==>
              var params := ParamsFromNonces(c, message, xTilde, [c.Exp(n0), c.Exp(n1)]).value;
              var b := BindingHash(c, xTilde, c.Exp(n0), c.Exp(n1), FromBytes(message));
              && params.b == [1, b] && params.r == c.Exp(NonceExponent([1, b], n0, n1))
              && params.c == ChallengeOf(c, XOf(params.r), xTilde, FromBytes(message) % c.q)
  {
    hide Curve.Valid, Curve.Exp, Curve.OnCurve, Binding, Bindings, BindingHash, NonceExponent, GlobalNonce, XOf,
         ParamsFromNonces, ChallengeOf;
    var rs := [c.Exp(n0), c.Exp(n1)];
    FieldFits(c);
    c.ExpOnCurve(n0);
    c.ExpOnCurve(n1);
    BindingIff(c, xTilde, rs[0], rs[1], message);
    BindingsOfTwo(c, xTilde, rs, message);
    ParamsFail(c, message, xTilde, rs);
    var o := Binding(c, xTilde, rs, message, 1);
    if o.Ok? {
      var b := o.value;
      GlobalNonceIff(c, n0, n1, b);
      var e := NonceExponent([1, b], n0, n1);
      c.ExpOnCurve(e);
      if b != 0 && e % c.q != 0 {
        ParamsOfNonce(c, message, xTilde, rs, [1, b], c.Exp(e));
      }
    }
  }

  lemma BindingsOfTwo(c: Curve, xTilde: Point, rs: seq<Point>, message: seq<byte>)
    requires |rs| == NV
    ensures var o := Binding(c, xTilde, rs, message, 1);
            if o.Ok? then Bindings(c, xTilde, rs, message, NV) == Ok([1, o.value])
            else Bindings(c, xTilde, rs, message, NV).IsFailure()
  {
    hide Binding;
    assert Bindings(c, xTilde, rs, message, 1) == Ok([1]);
    var o := Binding(c, xTilde, rs, message, 1);
    if o.Ok? {
      assert [1] + [o.value] == [1, o.value];
    }
  }

  // ---- the share ----

  /** A nonzero share exists: neither a product nor a sum on the way to it vanishes. */
  ghost predicate ShareExists(q: nat, r0: nat, r1: nat, b: nat, ch: nat, x: nat, a: nat, e: int)
    requires q > 0
  {
    && r0 % q != 0 && r1 % q != 0 && NonceExponent([1, b], r0, r1) % q != 0
    && ch % q != 0 && x % q != 0
    && (e * NonceExponent([1, b], r0, r1) + ch * (a * x)) % q != 0
  }

  function Signed(c: Curve, m: nat, isOdd: bool): nat
    requires c.q > 0
  {
    if isOdd then NegScalar(c, m) else m
  }

  /** `compute_signature_share` on two nonces, step by step. */
  lemma ShareSteps(c: Curve, st: State, b: nat, ch: nat, x: KeyPair, a: nat, isOdd: bool)
    requires c.q > 0 && |st.ephk| == NV
    ensures var m0, m1 := (st.ephk[0].sec * 1) % c.q, (st.ephk[1].sec * b) % c.q;
            var lin := (Signed(c, m0, isOdd) + Signed(c, m1, isOdd)) % c.q;
            var cx := (ch * x.sec) % c.q;
            var cxa := (cx * a) % c.q;
            SignatureShare(c, st, [1, b], ch, x, a, isOdd).Ok? <==>
            m0 != 0 && m1 != 0 && lin != 0 && cx != 0 && cxa != 0 && (lin + cxa) % c.q != 0
  {
    var m0 := (st.ephk[0].sec * 1) % c.q;
    ShareFoldOfOne(c, Signed(c, m0, isOdd), st.ephk[1], b, isOdd);
    assert st.ephk[1..] == [st.ephk[1]] && [1, b][1..] == [b];
    hide ShareFold, NegScalar;
  }

  lemma ShareFoldOfOne(c: Curve, acc: nat, k: KeyPair, b: nat, isOdd: bool)
    requires c.q > 0
    ensures var m := (k.sec * b) % c.q;
            var next := (acc + Signed(c, m, isOdd)) % c.q;
            if m != 0 && next != 0 then ShareFold(c, acc, [k], [b], isOdd) == Ok(next)
            else ShareFold(c, acc, [k], [b], isOdd).IsFailure()
  {
    hide NegScalar;
    var m := (k.sec * b) % c.q;
    var next := (acc + Signed(c, m, isOdd)) % c.q;
    assert [k][1..] == [];
    if m != 0 && next != 0 {
      assert ShareFold(c, next, [k][1..], [b][1..], isOdd) == Ok(next);
    }
  }

  lemma ProductVanishes(q: nat, a: nat, b: nat)
    requires Prime(q) && q > 1
    ensures (a * b) % q == 0 <==> a % q == 0 || b % q == 0
  {
    if (a * b) % q == 0 {
      PrimeDivides(q, a, b);
    }
    if a % q == 0 {
      CongMul(a, 0, b, b, q);
    }
    if b % q == 0 {
      CongMul(a, a, b, 0, q);
    }
  }

  lemma SignedVanishes(q: nat, e: int, n: int)
    requires q > 0 && (e == 1 || e == -1)
    ensures (e * n) % q == 0 <==> n % q == 0
  {
    if n % q == 0 {
      CongMul(e, e, n, 0, q);
    }
    if (e * n) % q == 0 {
      CongMul(e, e, e * n, 0, q);
      assert e * (e * n) == n;
    }
  }

  /** The signed nonce part of the share. */
  lemma LinearPart(c: Curve, r0: nat, r1: nat, b: nat, isOdd: bool)
    requires c.q > 0
    ensures Cong((Signed(c, (r0 * 1) % c.q, isOdd) + Signed(c, (r1 * b) % c.q, isOdd)) % c.q,
                 SignOf(isOdd) * NonceExponent([1, b], r0, r1), c.q)
  {
    var e, q, m1 := SignOf(isOdd), c.q, r1 * b;
    SignedReduce(c, r0 * 1, isOdd);
    SignedReduce(c, m1, isOdd);
    var l0, l1 := Signed(c, (r0 * 1) % q, isOdd), Signed(c, m1 % q, isOdd);
    CongAdd(l0, e * r0, l1, e * m1, q);
    CongReduce(l0 + l1, q);
    assert e * r0 + e * m1 == e * (r0 + m1);
    assert NonceExponent([1, b], r0, r1) == r0 + m1;
  }

  /** The key part of the share. */
  lemma KeyPart(q: nat, ch: nat, x: nat, a: nat)
    requires Prime(q) && q > 1 && a % q != 0
    ensures var cx := (ch * x) % q;
            var cxa := (cx * a) % q;
            (cx != 0 && cxa != 0 <==> ch % q != 0 && x % q != 0) && Cong(cxa, ch * (a * x), q)
  {
    var cx := (ch * x) % q;
    ProductVanishes(q, ch, x);
    ProductVanishes(q, cx, a);
    CongReduce(ch * x, q);
    CongReduce(cx * a, q);
    CongMul(cx, ch * x, a, a, q);
    assert ch * x * a == ch * (a * x);
  }

  lemma CongVanishes(a: int, b: int, q: int)
    requires q > 0 && Cong(a, b, q)
    ensures a % q == 0 <==> b % q == 0
    ensures 0 <= a < q ==> (a == 0 <==> b % q == 0)
  {
    if 0 <= a < q {
      ModUnique(a, 0, a, q);
    }
  }

  lemma ShareIff(c: Curve, st: State, b: nat, ch: nat, x: KeyPair, a: nat, isOdd: bool)
    requires c.Valid() && |st.ephk| == NV && 0 < b < c.q && 0 < a < c.q
    ensures SignatureShare(c, st, [1, b], ch, x, a, isOdd).Ok? <==>
            ShareExists(c.q, st.ephk[0].sec, st.ephk[1].sec, b, ch, x.sec, a, SignOf(isOdd))
  {
    OrderIsPrime(c);
    var q, e, r0, r1 := c.q, SignOf(isOdd), st.ephk[0].sec, st.ephk[1].sec;
    var n := NonceExponent([1, b], r0, r1);
    ShareSteps(c, st, b, ch, x, a, isOdd);
    LinearPart(c, r0, r1, b, isOdd);
    hide *;
    ModUnique(a, 0, a, q);
    ModUnique(b, 0, b, q);
    KeyPart(q, ch, x.sec, a);
    ProductVanishes(q, r1, b);
    SignIsUnit(isOdd);
    SignedVanishes(q, e, n);
    var lin := (Signed(c, (r0 * 1) % q, isOdd) + Signed(c, (r1 * b) % q, isOdd)) % q;
    var cxa := ((ch * x.sec) % q * a) % q;
    CongVanishes(lin, e * n, q);
    CongAdd(lin, e * n, cxa, ch * (a * x.sec), q);
    CongVanishes(lin + cxa, e * n + ch * (a * x.sec), q);
    assert r0 * 1 == r0;
    ShareExistsIs(q, r0, r1, b, ch, x.sec, a, e);
  }

  lemma SignIsUnit(isOdd: bool)
    ensures SignOf(isOdd) == 1 || SignOf(isOdd) == -1
  {
  }

  lemma ShareExistsIs(q: nat, r0: nat, r1: nat, b: nat, ch: nat, x: nat, a: nat, e: int)
    requires q > 0
    ensures var n := NonceExponent([1, b], r0, r1);
            ShareExists(q, r0, r1, b, ch, x, a, e) <==>
            r0 % q != 0 && r1 % q != 0 && n % q != 0 && ch % q != 0 && x % q != 0 && (e * n + ch * (a * x)) % q != 0
  {
    hide NonceExponent;
  }

  lemma OrderIsPrime(c: Curve)
    requires c.Valid()
    ensures Prime(c.q) && c.q > 2
  {
    assert Appeal(Primality);
  }

  // ---- preparation ----

  lemma {:induction false} EphemeralKeysIff(c: Curve, x: KeyPair, count: nat)
    requires c.Valid()
    ensures !EphemeralKeys(c, x, count).Panic?
    ensures EphemeralKeys(c, x, count).Ok? <==> forall j :: 0 <= j < count ==> HashValue(c, [x.sec, j]) < c.q
    ensures EphemeralKeys(c, x, count).Ok? ==>
              forall j :: 0 <= j < count ==> EphemeralKeys(c, x, count).value[j].sec == HashValue(c, [x.sec, j])
  {
    hide Curve.Valid, HashScalars, HashValue, ParseSlice, Curve.Exp;
    if count == 0 {
    } else {
      EphemeralKeysIff(c, x, count - 1);
      HashParses(c, [x.sec, count - 1]);
    }
  }

  /** Preparation succeeds exactly when both nonce hashes are scalars, and otherwise is an error. */
  lemma PrepareIff(c: Curve, p: Prepare)
    requires c.Valid()
    ensures PrepareStep(c, p).Ok? || PrepareStep(c, p).Err?
    ensures PrepareStep(c, p).Ok? <==> forall j :: 0 <= j < NV ==> HashValue(c, [p.keyPair.sec, j]) < c.q
    ensures PrepareStep(c, p).Ok? ==>
              forall j :: 0 <= j < NV ==>
                PrepareStep(c, p).value.0.state1.ephk[j].sec == HashValue(c, [p.keyPair.sec, j])
  {
    EphemeralKeysIff(c, p.keyPair, NV);
    hide EphemeralKeys, HashValue, EncodeAll, SerializePoint;
  }

  // ---- signing ----

  /** The aggregate key as keys and hashes determine it. */
  ghost function KeyOf(c: Curve, states: seq<State>): Point {
    c.Exp(Dot(KeyHashes(c, Xs(Pks(states)), Xs(Pks(states))), Secrets(states)))
  }

  /** The parameters can be derived by party i, which holds the nonces of the others in this order. */
  ghost predicate CanDerive(c: Curve, states: seq<State>, message: seq<byte>, i: nat, others: seq<State>)
    requires c.q > 0 && i < |states|
    requires forall k :: 0 <= k < |states| ==> |states[k].ephk| == NV
    requires forall k :: 0 <= k < |others| ==> |others[k].ephk| == NV
  {
    && KeysAggregate(c, Pks(states), Secrets(states))
    && NoncesAggregate(c, states[i], others)
    && ParametersExist(c, message, KeyOf(c, states), NonceSecret(states, 0), NonceSecret(states, 1))
  }

  lemma ParametersIff(c: Curve, states: seq<State>, message: seq<byte>, i: nat, others: seq<State>)
    requires c.Valid() && AllConsistent(c, states) && Completes(states, i, others)
    requires forall k :: 0 <= k < |states| ==> |states[k].ephk| == NV
    requires forall k :: 0 <= k < |others| ==> |others[k].ephk| == NV
    ensures GlobalParameters(c, states[i], message, Pks(states), Nonces(others), i).Ok? <==>
            CanDerive(c, states, message, i, others)
    ensures CanDerive(c, states, message, i, others) ==>
              var n0, n1 := NonceSecret(states, 0), NonceSecret(states, 1);
              var b := BindingHash(c, KeyOf(c, states), c.Exp(n0), c.Exp(n1), FromBytes(message));
              var params := GlobalParameters(c, states[i], message, Pks(states), Nonces(others), i).value;
              && params.b == [1, b] && params.r == c.Exp(NonceExponent([1, b], n0, n1))
              && params.c == ChallengeOf(c, XOf(params.r), KeyOf(c, states), FromBytes(message) % c.q)
              && KeyAggregation(c, Pks(states), i) ==
                 Ok(KeyAgg(KeyOf(c, states), KeyHashes(c, Xs(Pks(states)), Xs(Pks(states)))[i]))
  {
    FieldFits(c);
    var n0, n1 := NonceSecret(states, 0), NonceSecret(states, 1);
    var a := KeyHashes(c, Xs(Pks(states)), Xs(Pks(states)));
    OthersConsistent(c, states, i, others);
    PksHaveLogs(c, states);
    KeyAggregationIff(c, Pks(states), Secrets(states), i);
    NonceSumsIff(c, states[i], others);
    NonceAgreement(c, states, i, others);
    c.ExpOnCurve(Dot(a, Secrets(states)));
    ParamsIff(c, message, KeyOf(c, states), n0, n1);
    assert AggregatedNonces(c, states) == [c.Exp(n0), c.Exp(n1)];
    KeysAggregateIs(c, Pks(states), Secrets(states));
    hide *;
    if KeysAggregate(c, Pks(states), Secrets(states)) {
      AggregateKeyLog(c, Pks(states), Secrets(states), i);
      KeyAggregationIgnoresIndex(c, Pks(states), i, i);
      assert KeyOf(c, states) == c.Exp(Dot(a, Secrets(states))) by {
        KeyOfIs(c, states);
      }
    }
    CanDeriveIs(c, states, message, i, others);
    GlobalParametersSteps(c, states[i], message, Pks(states), Nonces(others), i);
  }

  lemma KeyOfIs(c: Curve, states: seq<State>)
    ensures KeyOf(c, states) == c.Exp(Dot(KeyHashes(c, Xs(Pks(states)), Xs(Pks(states))), Secrets(states)))
  {
  }

  lemma CanDeriveIs(c: Curve, states: seq<State>, message: seq<byte>, i: nat, others: seq<State>)
    requires c.q > 0 && i < |states|
    requires forall k :: 0 <= k < |states| ==> |states[k].ephk| == NV
    requires forall k :: 0 <= k < |others| ==> |others[k].ephk| == NV
    ensures CanDerive(c, states, message, i, others) <==>
            && KeysAggregate(c, Pks(states), Secrets(states))
            && NoncesAggregate(c, states[i], others)
            && ParametersExist(c, message, KeyOf(c, states), NonceSecret(states, 0), NonceSecret(states, 1))
  {
    hide KeysAggregate, NoncesAggregate, ParametersExist, KeyOf;
  }

  lemma GlobalParametersSteps(c: Curve, st: State, message: seq<byte>, pks: seq<Point>, msgs: seq<seq<Point>>, i: nat)
    requires c.q > 0
    ensures var agg, rs := KeyAggregation(c, pks, i), NonceSums(c, st, msgs, NV);
            && (GlobalParameters(c, st, message, pks, msgs, i).Ok? <==>
                  agg.Ok? && rs.Ok? && ParamsFromNonces(c, message, agg.value.xTilde, rs.value).Ok?)
            && (agg.Ok? && rs.Ok? ==>
                  GlobalParameters(c, st, message, pks, msgs, i) ==
                  ParamsFromNonces(c, message, agg.value.xTilde, rs.value))
  {
    hide KeyAggregation, NonceSums, ParamsFromNonces;
  }

  /** The guard of party i's signing, in terms of the secrets, the hashes and the message. */
  ghost predicate CanSign(c: Curve, states: seq<State>, message: seq<byte>, i: nat, others: seq<State>)
    requires c.q > 0 && i < |states|
    requires forall k :: 0 <= k < |states| ==> |states[k].ephk| == NV
    requires forall k :: 0 <= k < |others| ==> |others[k].ephk| == NV
  {
    && CanDerive(c, states, message, i, others)
    && var n0, n1 := NonceSecret(states, 0), NonceSecret(states, 1);
       var b := BindingHash(c, KeyOf(c, states), c.Exp(n0), c.Exp(n1), FromBytes(message));
       var r := c.Exp(NonceExponent([1, b], n0, n1));
       var ch := ChallengeOf(c, XOf(r), KeyOf(c, states), FromBytes(message) % c.q);
       var own := states[i];
       ShareExists(c.q, own.ephk[0].sec, own.ephk[1].sec, b, ch, own.keyPair.sec,
                   KeyHashes(c, Xs(Pks(states)), Xs(Pks(states)))[i], SignOf(c.OddY(r)))
  }

  lemma SignPrimeIff(c: Curve, states: seq<State>, message: seq<byte>, i: nat, others: seq<State>)
    requires c.Valid() && AllConsistent(c, states) && Completes(states, i, others)
    requires forall k :: 0 <= k < |states| ==> |states[k].ephk| == NV
    requires forall k :: 0 <= k < |others| ==> |others[k].ephk| == NV
    ensures SignPrime(c, states[i], message, Pks(states), Nonces(others), i).Ok? <==>
            CanSign(c, states, message, i, others)
  {
    FieldFits(c);
    ParametersIff(c, states, message, i, others);
    var n0, n1 := NonceSecret(states, 0), NonceSecret(states, 1);
    var a := KeyHashes(c, Xs(Pks(states)), Xs(Pks(states)));
    if CanDerive(c, states, message, i, others) {
      var b := BindingHash(c, KeyOf(c, states), c.Exp(n0), c.Exp(n1), FromBytes(message));
      var params := GlobalParameters(c, states[i], message, Pks(states), Nonces(others), i).value;
      DerivedBounds(c, states, message, i, others);
      hide *;
      ShareIff(c, states[i], b, params.c, states[i].keyPair, a[i], c.OddY(params.r));
      CanSignIs(c, states, message, i, others);
      SignPrimeSteps(c, states[i], message, Pks(states), Nonces(others), i);
    } else {
      hide *;
      SignPrimeSteps(c, states[i], message, Pks(states), Nonces(others), i);
      CanSignIs(c, states, message, i, others);
    }
  }

  lemma SignPrimeSteps(c: Curve, st: State, message: seq<byte>, pks: seq<Point>, msgs: seq<seq<Point>>, i: nat)
    requires c.q > 0
    ensures var agg, params := KeyAggregation(c, pks, i), GlobalParameters(c, st, message, pks, msgs, i);
            SignPrime(c, st, message, pks, msgs, i).Ok? <==>
            && agg.Ok? && params.Ok?
            && SignatureShare(c, st, params.value.b, params.value.c, st.keyPair, agg.value.a,
                              c.OddY(params.value.r)).Ok?
    ensures GlobalParameters(c, st, message, pks, msgs, i).Ok? ==> KeyAggregation(c, pks, i).Ok?
  {
    hide KeyAggregation, SignatureShare, NonceSums, ParamsFromNonces;
  }

  lemma CanSignIs(c: Curve, states: seq<State>, message: seq<byte>, i: nat, others: seq<State>)
    requires c.q > 0 && i < |states|
    requires forall k :: 0 <= k < |states| ==> |states[k].ephk| == NV
    requires forall k :: 0 <= k < |others| ==> |others[k].ephk| == NV
    ensures CanSign(c, states, message, i, others) <==>
            && CanDerive(c, states, message, i, others)
            && var n0, n1 := NonceSecret(states, 0), NonceSecret(states, 1);
               var b := BindingHash(c, KeyOf(c, states), c.Exp(n0), c.Exp(n1), FromBytes(message));
               var r := c.Exp(NonceExponent([1, b], n0, n1));
               var ch := ChallengeOf(c, XOf(r), KeyOf(c, states), FromBytes(message) % c.q);
               var own := states[i];
               ShareExists(c.q, own.ephk[0].sec, own.ephk[1].sec, b, ch, own.keyPair.sec,
                           KeyHashes(c, Xs(Pks(states)), Xs(Pks(states)))[i], SignOf(c.OddY(r)))
  {
    hide CanDerive, ShareExists, KeyOf, BindingHash, NonceExponent, ChallengeOf, KeyHashes;
  }

  lemma DerivedBounds(c: Curve, states: seq<State>, message: seq<byte>, i: nat, others: seq<State>)
    requires c.q > 0 && i < |states|
    requires forall k :: 0 <= k < |states| ==> |states[k].ephk| == NV
    requires forall k :: 0 <= k < |others| ==> |others[k].ephk| == NV
    requires CanDerive(c, states, message, i, others)
    ensures 0 < KeyHashes(c, Xs(Pks(states)), Xs(Pks(states)))[i] < c.q
    ensures 0 < BindingHash(c, KeyOf(c, states), c.Exp(NonceSecret(states, 0)), c.Exp(NonceSecret(states, 1)),
                            FromBytes(message)) < c.q
  {
    hide NoncesAggregate, NoPartialSumVanishes, BindingHash, HashValue;
  }

  /** With the lists it collects, round 1 succeeds exactly when `sign_prime` does. */
  lemma Round1Iff(c: Curve, r: Round1, input: BroadcastMsgs<MessageRound1>, pks: seq<Point>, nonces: seq<seq<Point>>)
    requires c.q > 0 && r.myInd >= 1
    requires Collect(c, r.myInd, r.keyPair.pub, input.msgs, |input.msgs|).Ok?
    requires var collected := Collect(c, r.myInd, r.keyPair.pub, input.msgs, |input.msgs|).value;
             WithOwnKey(r.myInd, r.keyPair.pub, input.msgs, collected.0) == pks && collected.1 == nonces
    ensures Round1Step(c, r, input).Ok? <==> SignPrime(c, r.state1, r.message, pks, nonces, r.myInd - 1).Ok?
  {
    hide KeyAggregation, SignPrime, GlobalParameters, Collect, WithOwnKey, SignatureShare;
    SignPrimeNeeds(c, r.state1, r.message, pks, nonces, r.myInd - 1);
  }

  lemma SignPrimeNeeds(c: Curve, st: State, message: seq<byte>, pks: seq<Point>, msgs: seq<seq<Point>>, i: nat)
    requires c.q > 0
    ensures SignPrime(c, st, message, pks, msgs, i).Ok? ==>
              KeyAggregation(c, pks, i).Ok? && GlobalParameters(c, st, message, pks, msgs, i).Ok?
  {
    hide KeyAggregation, SignatureShare, GlobalParameters;
  }

  /**
   Exactly when an honest party signs. What it takes: all x coordinates on the way, the message and
   all hashes are scalars, no coefficient hash is zero; no partial sum of the weighted keys, nor of
   the nonces in the party's own order, is infinite, nor is R; and neither the party's combined
   nonce, nor the challenge, nor the resulting share vanishes.
   */
  lemma SigningIff(su: Setup, i: nat)
    requires su.Honest() && su.AllPrepared() && su.IsParty(i)
    ensures forall k :: 0 <= k < su.N() ==> |su.States()[k].ephk| == NV
    ensures su.Signing(i).Ok? <==>
            CanSign(su.c, su.States(), su.message, i - 1, RemoveAt(su.States(), i - 1))
  {
    HonestValid(su);
    hide Setup.Honest, SignPrime, Nonces, Pks, Curve.Valid, CanSign, Completes, RemoveAt, Setup.Signing;
    HonestRound1(su, i);
    ConsistentSizes(su.c, su.States());
    SignPrimeIff(su.c, su.States(), su.message, i - 1, RemoveAt(su.States(), i - 1));
    SigningIsSignPrime(su, i);
  }

  lemma SigningIsSignPrime(su: Setup, i: nat)
    requires su.Honest() && su.AllPrepared() && su.IsParty(i)
    ensures su.Signing(i).Ok? <==>
            SignPrime(su.c, su.States()[i - 1], su.message, Pks(su.States()), Nonces(RemoveAt(su.States(), i - 1)),
                      i - 1).Ok?
  {
    var c, states := su.c, su.States();
    var others := RemoveAt(states, i - 1);
    HonestValid(su);
    hide Setup.Honest, Collect, KeyAggregation, GlobalParameters, SignPrime, Nonces, Pks, AllConsistent, Curve.Valid,
         Round1Step, RemoveAt, Completes;
    HonestRound1(su, i);
    PreparedState(su, i);
    var r1 := Round1(i, su.StateOf(i), su.keys[i - 1], su.message);
    var input := BroadcastMsgs(i, Ascending(i, su.N(), su.Others1(i)));
    assert su.Signing(i) == Round1Step(c, r1, input);
    Round1Iff(c, r1, input, Pks(states), Nonces(others));
  }
}
