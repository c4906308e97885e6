/**
 Why the scheme works: the folds compute sums whatever their order, every party derives the same
 global parameters, shares satisfy the linear share equation, and the combined signature verifies.
 */
module SignatureTheory {
  import opened Wrappers
  import opened Arith
  import opened Curves
  import opened Keys
  import opened Musig2

  // ---- the checked operations ----

  /** Adding scalars yields the nonzero scalar congruent to their sum, and fails if there is none. */
  lemma AddScalarIff(c: Curve, a: nat, b: nat, v: nat)
    requires c.q > 0
    ensures AddScalar(c, a, b) == Ok(v) <==> 0 < v < c.q && Cong(v, a + b, c.q)
    ensures AddScalar(c, a, b) == Err(InvalidPrivateKey) <==> Cong(a + b, 0, c.q)
    ensures AddScalar(c, a, b).Ok? || AddScalar(c, a, b) == Err(InvalidPrivateKey)
  {
    ModUnique(0, 0, 0, c.q);
    if 0 < v < c.q {
      ModUnique(v, 0, v, c.q);
    }
    CongReduce(a + b, c.q);
  }

  lemma MulScalarIff(c: Curve, a: nat, b: nat, v: nat)
    requires c.q > 0
    ensures MulScalar(c, a, b) == Ok(v) <==> 0 < v < c.q && Cong(v, a * b, c.q)
    ensures MulScalar(c, a, b) == Err(InvalidPrivateKey) <==> Cong(a * b, 0, c.q)
    ensures MulScalar(c, a, b).Ok? || MulScalar(c, a, b) == Err(InvalidPrivateKey)
  {
    ModUnique(0, 0, 0, c.q);
    if 0 < v < c.q {
      ModUnique(v, 0, v, c.q);
    }
    CongReduce(a * b, c.q);
  }

  /** A message is 32 bytes, read big-endian and reduced; any other length is refused. */
  lemma MessageOutcome(c: Curve, message: seq<byte>)
    requires c.q > 0
    ensures ParseMessage(c, message).Ok? <==> |message| == 32
    ensures ParseMessage(c, message).Ok? ==>
              ParseMessage(c, message).value < c.q && Cong(ParseMessage(c, message).value, FromBytes(message), c.q)
    ensures |message| != 32 ==> ParseMessage(c, message) == Err(InvalidInputLength)
  {
    if |message| == 32 {
      CongReduce(FromBytes(message), c.q);
    }
  }

  /** Adding points adds logarithms, and fails exactly at infinity. */
  lemma AddPointOutcome(c: Curve, j: nat, k: nat)
    requires c.Valid() && c.q > 0
    ensures AddPoint(c, c.Exp(j), c.Exp(k)) ==
            if (j + k) % c.q == 0 then Err(InvalidPublicKey) else Ok(c.Exp(j + k))
  {
    c.ExpAdd(j, k);
    c.ExpIsInfinity(j + k);
    hide Curve.Valid, Curve.Exp;
  }

  /** Multiplying a point multiplies its logarithm, and fails exactly for the scalar zero. */
  lemma MulPointOutcome(c: Curve, j: nat, k: nat)
    requires c.Valid()
    ensures MulPoint(c, c.Exp(k), j) == if j == 0 then Err(InvalidPrivateKey) else Ok(c.Exp(j * k))
  {
    c.ExpMul(j, k);
    hide Curve.Valid, Curve.Exp, Curve.Mul;
  }

  // ---- folds compute sums, and fail exactly at a rejected partial sum ----

  lemma {:induction false} FoldScalarsSum(c: Curve, acc: nat, s: seq<nat>)
    requires c.q > 0 && acc < c.q
    ensures FoldScalars(c, acc, s).Ok? ==>
              FoldScalars(c, acc, s).value < c.q && Cong(FoldScalars(c, acc, s).value, acc + Sum(s), c.q)
    ensures !FoldScalars(c, acc, s).Panic?
    decreases s
  {
    if s == [] {
    } else {
      var next := (acc + s[0]) % c.q;
      CongReduce(acc + s[0], c.q);
      FoldScalarsSum(c, next, s[1..]);
      CongAdd(next, acc + s[0], Sum(s[1..]), Sum(s[1..]), c.q);
    }
  }

  /** The sum of a party's own share and the first k received ones. */
  function PartialSum(own: nat, received: seq<nat>, k: nat): nat
    requires k <= |received|
  {
    own + Sum(received[..k])
  }

  ghost predicate NoPartialSumVanishes(q: nat, own: nat, received: seq<nat>)
    requires q > 0
  {
    forall k :: 1 <= k <= |received| ==> PartialSum(own, received, k) % q != 0
  }

  lemma PartialSumFirst(own: nat, received: seq<nat>)
    requires received != []
    ensures PartialSum(own, received, 1) == own + received[0]
  {
    assert received[..1][1..] == [];
    assert Sum(received[..1]) == received[0] + Sum(received[..1][1..]);
  }

  lemma PartialSumStep(q: nat, own: nat, received: seq<nat>, k: nat)
    requires q > 0 && 1 <= k <= |received|
    ensures PartialSum(own, received, k) % q == PartialSum((own + received[0]) % q, received[1..], k - 1) % q
  {
    assert received[..k][1..] == received[1..][..k - 1];
    var t := Sum(received[1..][..k - 1]);
    CongReduce(own + received[0], q);
    CongAdd((own + received[0]) % q, own + received[0], t, t, q);
  }

  /** Combining shares succeeds exactly when no partial sum vanishes modulo the order. */
  lemma {:induction false} FoldScalarsSucceedsIff(c: Curve, acc: nat, s: seq<nat>)
    requires c.q > 0
    ensures FoldScalars(c, acc, s).Ok? <==> NoPartialSumVanishes(c.q, acc, s)
    decreases s
  {
    if s == [] {
    } else {
      var next := (acc + s[0]) % c.q;
      FoldScalarsSucceedsIff(c, next, s[1..]);
      PartialSumFirst(acc, s);
      hide PartialSum;
      if NoPartialSumVanishes(c.q, acc, s) {
        forall k | 1 <= k <= |s[1..]|
          ensures PartialSum(next, s[1..], k) % c.q != 0
        {
          PartialSumStep(c.q, acc, s, k + 1);
        }
      }
      if next != 0 && NoPartialSumVanishes(c.q, next, s[1..]) {
        forall k | 1 <= k <= |s|
          ensures PartialSum(acc, s, k) % c.q != 0
        {
          if k > 1 {
            PartialSumStep(c.q, acc, s, k);
          }
        }
      }
    }
  }

  lemma FoldTwo(c: Curve, acc: nat, x: nat, y: nat)
    requires c.q > 0
    ensures FoldScalars(c, acc, [x, y]) ==
            (var next := AddScalar(c, acc, x);
             if next.Ok? then AddScalar(c, next.value, y) else next)
  {
    assert [x, y][1..] == [y];
    assert [y][1..] == [];
    hide AddScalar;
    var next := AddScalar(c, acc, x);
    if next.Ok? && AddScalar(c, next.value, y).Ok? {
      assert FoldScalars(c, AddScalar(c, next.value, y).value, [y][1..]) == AddScalar(c, next.value, y);
    }
  }

  /**
   So not all parties need to finish together: of three parties whose shares are 1, q-1 and 1, the
   first meets a vanishing partial sum and the third does not.
   */
  lemma OrderOfSharesMatters(c: Curve)
    requires c.q > 2
    ensures FoldScalars(c, 1, [c.q - 1, 1]) == Err(InvalidPrivateKey)
    ensures FoldScalars(c, 1, [1, c.q - 1]) == Ok(1)
  {
    FoldTwo(c, 1, 1, c.q - 1);
    FoldTwo(c, 1, c.q - 1, 1);
    hide FoldScalars;
    ModUnique(2, 0, 2, c.q);
    ModUnique(2 + (c.q - 1), 1, 1, c.q);
    ModUnique(1 + (c.q - 1), 1, 0, c.q);
  }

  /** Points with known logarithms. */
  ghost predicate HaveLogs(c: Curve, pts: seq<Point>, ks: seq<nat>) {
    |pts| == |ks| && forall i :: 0 <= i < |pts| ==> pts[i] == c.Exp(ks[i])
  }

  lemma {:induction false} FoldPointsSum(c: Curve, k0: nat, pts: seq<Point>, ks: seq<nat>)
    requires c.Valid() && HaveLogs(c, pts, ks)
    ensures var r := FoldPoints(c, c.Exp(k0), pts);
            r.Ok? ==> r.value == c.Exp(k0 + Sum(ks)) && (pts != [] ==> r.value != Infinity)
    decreases pts
  {
    hide Curve.Valid, Curve.Exp;
    if pts == [] {
    } else {
      c.ExpAdd(k0, ks[0]);
      FoldPointsSum(c, k0 + ks[0], pts[1..], ks[1..]);
    }
  }

  lemma {:induction false} WeightKeysLogs(c: Curve, pks: seq<Point>, a: seq<nat>, xs: seq<nat>)
    requires c.Valid() && HaveLogs(c, pks, xs) && |a| == |pks| && WeightKeys(c, pks, a).Ok?
    ensures HaveLogs(c, WeightKeys(c, pks, a).value, Products(a, xs))
    ensures forall i :: 0 <= i < |a| ==> a[i] > 0
  {
    if pks == [] {
    } else {
      c.ExpMul(a[0], xs[0]);
      WeightKeysLogs(c, pks[1..], a[1..], xs[1..]);
      assert Products(a, xs)[1..] == Products(a[1..], xs[1..]);
      assert a == [a[0]] + a[1..];
    }
  }

  function Products(a: seq<nat>, b: seq<nat>): (r: seq<nat>)
    requires |a| == |b|
    ensures |r| == |a|
  {
    seq(|a|, i requires 0 <= i < |a| => a[i] * b[i])
  }

  lemma {:induction false} SumProducts(a: seq<nat>, b: seq<nat>)
    requires |a| == |b|
    ensures Sum(Products(a, b)) == Dot(a, b)
  {
    if a == [] {
    } else {
      SumProducts(a[1..], b[1..]);
      assert Products(a, b)[1..] == Products(a[1..], b[1..]);
    }
  }

  // ---- key aggregation ----

  /** The coefficient list, which no party index enters. */
  function AggCoefficients(c: Curve, pks: seq<Point>): (r: Outcome<seq<nat>>)
    ensures r.Ok? ==> |r.value| == |pks|
  {
    var xs :- XScalars(c, pks);
    Coefficients(c, xs, xs)
  }

  /** The aggregate key is the same for every party; only a_i depends on the index. */
  lemma KeyAggregationIgnoresIndex(c: Curve, pks: seq<Point>, i: nat, j: nat)
    requires KeyAggregation(c, pks, i).Ok? && j < |pks|
    ensures AggCoefficients(c, pks).Ok?
    ensures KeyAggregation(c, pks, i).value.a == AggCoefficients(c, pks).value[i]
    ensures KeyAggregation(c, pks, j) ==
            Ok(KeyAgg(KeyAggregation(c, pks, i).value.xTilde, AggCoefficients(c, pks).value[j]))
  {
  }

  /** The aggregate key is the public key of the weighted sum of the secrets. */
  lemma AggregateKeyLog(c: Curve, pks: seq<Point>, xs: seq<nat>, i: nat)
    requires c.Valid() && HaveLogs(c, pks, xs) && KeyAggregation(c, pks, i).Ok?
    ensures AggCoefficients(c, pks).Ok?
    ensures KeyAggregation(c, pks, i).value.xTilde == c.Exp(Dot(AggCoefficients(c, pks).value, xs))
    ensures |pks| >= 2 ==> KeyAggregation(c, pks, i).value.xTilde != Infinity
    ensures forall k :: 0 <= k < |pks| ==> AggCoefficients(c, pks).value[k] > 0
  {
    var a := AggCoefficients(c, pks).value;
    var w := WeightKeys(c, pks, a).value;
    var ks := Products(a, xs);
    WeightKeysLogs(c, pks, a, xs);
    FoldPointsSum(c, ks[0], w[1..], ks[1..]);
    SumProducts(a, xs);
  }

  lemma {:induction false} CoefficientsBelowOrder(c: Curve, of: seq<nat>, xs: seq<nat>)
    requires Coefficients(c, of, xs).Ok?
    ensures forall i :: 0 <= i < |of| ==> Coefficients(c, of, xs).value[i] < c.q
  {
    if of == [] {
    } else {
      CoefficientsBelowOrder(c, of[1..], xs);
    }
  }

  // ---- signers and their nonces ----

  /** A signing state whose public points belong to its secrets. */
  ghost predicate Consistent(c: Curve, st: State) {
    && st.keyPair.pub == c.Exp(st.keyPair.sec)
    && |st.ephk| == NV
    && forall j :: 0 <= j < NV ==> st.ephk[j].pub == c.Exp(st.ephk[j].sec)
  }

  ghost predicate AllConsistent(c: Curve, states: seq<State>) {
    forall i :: 0 <= i < |states| ==> Consistent(c, states[i])
  }

  function Pks(states: seq<State>): (r: seq<Point>)
    ensures |r| == |states|
  {
    seq(|states|, i requires 0 <= i < |states| => states[i].keyPair.pub)
  }

  function Secrets(states: seq<State>): (r: seq<nat>)
    ensures |r| == |states|
  {
    seq(|states|, i requires 0 <= i < |states| => states[i].keyPair.sec)
  }

  function Nonces(states: seq<State>): (r: seq<seq<Point>>)
    ensures |r| == |states|
    ensures forall i :: 0 <= i < |states| ==> r[i] == Publics(states[i].ephk)
  {
    seq(|states|, i requires 0 <= i < |states| => Publics(states[i].ephk))
  }

  /** The sum of the j-th nonce secrets of all signers. */
  function NonceSecret(states: seq<State>, j: nat): nat
    requires forall i :: 0 <= i < |states| ==> j < |states[i].ephk|
  {
    if states == [] then 0 else states[0].ephk[j].sec + NonceSecret(states[1..], j)
  }

  lemma {:induction false} NonceSecretAppend(s: seq<State>, t: seq<State>, j: nat)
    requires forall i :: 0 <= i < |s| ==> j < |s[i].ephk|
    requires forall i :: 0 <= i < |t| ==> j < |t[i].ephk|
    ensures NonceSecret(s + t, j) == NonceSecret(s, j) + NonceSecret(t, j)
  {
    if s == [] {
      assert s + t == t;
    } else {
      assert (s + t)[1..] == s[1..] + t;
      NonceSecretAppend(s[1..], t, j);
    }
  }

  lemma {:induction false} NonceSecretPermutation(s: seq<State>, t: seq<State>, j: nat)
    requires multiset(s) == multiset(t)
    requires forall i :: 0 <= i < |s| ==> j < |s[i].ephk|
    requires forall i :: 0 <= i < |t| ==> j < |t[i].ephk|
    ensures NonceSecret(s, j) == NonceSecret(t, j)
  {
    if s == [] {
      assert |multiset(t)| == 0;
    } else {
      var i := Peel(s, t);
      NonceSecretPermutation(s[1..], RemoveAt(t, i), j);
      NonceSecretAppend(t[..i], t[i + 1..], j);
      NonceSecretAppend(t[..i], t[i..], j);
      assert t == t[..i] + t[i..];
    }
  }

  lemma {:induction false} NonceSumLog(c: Curve, k0: nat, others: seq<State>, j: nat)
    requires c.Valid() && AllConsistent(c, others) && j < NV
    ensures var r := NonceSum(c, c.Exp(k0), Nonces(others), j);
            r.Ok? ==> r.value == c.Exp(k0 + NonceSecret(others, j))
    decreases others
  {
    hide Curve.Valid, Curve.Exp;
    if others == [] {
    } else {
      var k := others[0].ephk[j].sec;
      assert Consistent(c, others[0]);
      c.ExpAdd(k0, k);
      assert Nonces(others)[1..] == Nonces(others[1..]);
      assert AllConsistent(c, others[1..]) by {
        forall i | 0 <= i < |others[1..]| ensures Consistent(c, others[1..][i]) {
          assert others[1..][i] == others[i + 1];
        }
      }
      NonceSumLog(c, k0 + k, others[1..], j);
    }
  }

  /** `others` is the rest of the signers, in whatever order party i happens to hold them. */
  ghost predicate Completes(states: seq<State>, i: nat, others: seq<State>) {
    i < |states| && multiset([states[i]] + others) == multiset(states)
  }

  /** The aggregated nonces as functions of the secrets alone. */
  ghost function AggregatedNonces(c: Curve, states: seq<State>): (r: seq<Point>)
    requires AllConsistent(c, states)
    ensures |r| == NV
  {
    [c.Exp(NonceSecret(states, 0)), c.Exp(NonceSecret(states, 1))]
  }

  lemma OthersConsistent(c: Curve, states: seq<State>, i: nat, others: seq<State>)
    requires AllConsistent(c, states) && Completes(states, i, others)
    ensures AllConsistent(c, others) && AllConsistent(c, [states[i]] + others)
  {
    forall k | 0 <= k < |others|
      ensures Consistent(c, others[k])
    {
      assert others[k] == ([states[i]] + others)[k + 1];
      assert others[k] in multiset([states[i]] + others);
      assert others[k] in multiset(states);
      assert others[k] in states;
    }
  }

  /** Each party starts the fold with its own nonce, yet all obtain the same R_j. */
  lemma NonceAgreement(c: Curve, states: seq<State>, i: nat, others: seq<State>)
    requires c.Valid() && AllConsistent(c, states) && Completes(states, i, others)
    ensures var r := NonceSums(c, states[i], Nonces(others), NV);
            r.Ok? ==> r.value == AggregatedNonces(c, states)
  {
    OthersConsistent(c, states, i, others);
    var st := states[i];
    assert Consistent(c, st);
    forall j | 0 <= j < NV
      ensures var r := NonceSum(c, st.ephk[j].pub, Nonces(others), j);
              r.Ok? ==> r.value == c.Exp(NonceSecret(states, j))
    {
      NonceSumLog(c, st.ephk[j].sec, others, j);
      assert [st] + others == [st] + others;
      assert ([st] + others)[1..] == others;
      NonceSecretPermutation([st] + others, states, j);
    }
    assert NonceSums(c, st, Nonces(others), 0) == Ok([]);
  }

  /** Any two parties that obtain global parameters obtain the same ones. */
  lemma ParameterAgreement(c: Curve, states: seq<State>, message: seq<byte>,
                           i: nat, others: seq<State>, j: nat, others': seq<State>)
    requires c.Valid() && AllConsistent(c, states)
    requires Completes(states, i, others) && Completes(states, j, others')
    requires GlobalParameters(c, states[i], message, Pks(states), Nonces(others), i).Ok?
    requires GlobalParameters(c, states[j], message, Pks(states), Nonces(others'), j).Ok?
    ensures GlobalParameters(c, states[i], message, Pks(states), Nonces(others), i) ==
            GlobalParameters(c, states[j], message, Pks(states), Nonces(others'), j)
  {
    NonceAgreement(c, states, i, others);
    NonceAgreement(c, states, j, others');
    KeyAggregationIgnoresIndex(c, Pks(states), i, j);
  }

  // ---- shares ----

  function SignOf(isOdd: bool): int {
    if isOdd then -1 else 1
  }

  function Secs(ks: seq<KeyPair>): (r: seq<nat>)
    ensures |r| == |ks|
  {
    seq(|ks|, i requires 0 <= i < |ks| => ks[i].sec)
  }

  lemma SignedReduce(c: Curve, m: nat, isOdd: bool)
    requires c.q > 0
    ensures var v := if isOdd then NegScalar(c, m % c.q) else m % c.q;
            v < c.q && Cong(v, SignOf(isOdd) * m, c.q)
  {
    CongReduce(m, c.q);
    if isOdd {
      CongReduce(m % c.q, c.q);
      CongNeg(m % c.q, c.q);
      CongMul(-1, -1, m % c.q, m, c.q);
    }
  }

  lemma AccumulateSigned(q: nat, e: int, acc: nat, v: nat, m: nat, rest: nat, result: nat)
    requires q > 0 && Cong(v, e * m, q) && Cong(result, (acc + v) % q + e * rest, q)
    ensures Cong(result, acc + e * (m + rest), q)
  {
    CongReduce(acc + v, q);
    CongAdd(acc, acc, v, e * m, q);
    CongAdd((acc + v) % q, acc + e * m, e * rest, e * rest, q);
    assert e * m + e * rest == e * (m + rest);
  }

  lemma {:induction false} ShareFoldSum(c: Curve, acc: nat, ephk: seq<KeyPair>, bs: seq<nat>, isOdd: bool)
    requires c.q > 0 && acc < c.q && ShareFold(c, acc, ephk, bs, isOdd).Ok?
    ensures ShareFold(c, acc, ephk, bs, isOdd).value < c.q
    ensures Cong(ShareFold(c, acc, ephk, bs, isOdd).value, acc + SignOf(isOdd) * Dot(Secs(ephk), bs), c.q)
    decreases ephk
  {
    if ephk == [] || bs == [] {
      assert Dot(Secs(ephk), bs) == 0;
    } else {
      var m := ephk[0].sec * bs[0];
      SignedReduce(c, m, isOdd);
      var v := if isOdd then NegScalar(c, m % c.q) else m % c.q;
      var next := (acc + v) % c.q;
      ShareFoldSum(c, next, ephk[1..], bs[1..], isOdd);
      var rest := Dot(Secs(ephk[1..]), bs[1..]);
      var result := ShareFold(c, acc, ephk, bs, isOdd).value;
      AccumulateSigned(c.q, SignOf(isOdd), acc, v, m, rest, result);
      assert Secs(ephk)[1..] == Secs(ephk[1..]);
    }
  }

  /** The share equation, for nonce lists of any length: s = e * sum b_j r_j + c * x * a modulo q. */
  lemma ShareEquation(c: Curve, st: State, bs: seq<nat>, ch: nat, x: KeyPair, a: nat, isOdd: bool)
    requires c.q > 0 && SignatureShare(c, st, bs, ch, x, a, isOdd).Ok?
    ensures SignatureShare(c, st, bs, ch, x, a, isOdd).value < c.q
    ensures Cong(SignatureShare(c, st, bs, ch, x, a, isOdd).value,
                 SignOf(isOdd) * Dot(Secs(st.ephk), bs) + ch * (a * x.sec), c.q)
    ensures x.sec % c.q != 0
  {
    var q, e := c.q, SignOf(isOdd);
    var m := st.ephk[0].sec * bs[0];
    var rest := Dot(Secs(st.ephk[1..]), bs[1..]);
    SignedReduce(c, m, isOdd);
    var first := if isOdd then NegScalar(c, m % q) else m % q;
    var lin := ShareFold(c, first, st.ephk[1..], bs[1..], isOdd).value;
    ShareFoldSum(c, first, st.ephk[1..], bs[1..], isOdd);
    assert Secs(st.ephk)[1..] == Secs(st.ephk[1..]);
    CongAdd(first, e * m, e * rest, e * rest, q);
    assert e * m + e * rest == e * Dot(Secs(st.ephk), bs);
    var cx := (ch * x.sec) % q;
    var cxa := (cx * a) % q;
    CongReduce(ch * x.sec, q);
    CongReduce(cx * a, q);
    CongMul(cx, ch * x.sec, a, a, q);
    assert ch * x.sec * a == ch * (a * x.sec);
    CongAdd(lin, e * Dot(Secs(st.ephk), bs), cxa, ch * (a * x.sec), q);
    CongReduce(lin + cxa, q);
    if x.sec % q == 0 {
      CongMul(ch, ch, x.sec, 0, q);
    }
  }

  /** One signer's share, as the share equation gives it. */
  ghost predicate IsShare(q: nat, share: nat, st: State, a: nat, b: seq<nat>, ch: nat, e: int)
    requires q > 0
  {
    Cong(share, e * Dot(Secs(st.ephk), b) + ch * (a * st.keyPair.sec), q)
  }

  /** e * (b_0 n_0 + b_1 n_1) + c * d: what signing with aggregated secrets would produce. */
  function Combined(b: seq<nat>, n0: nat, n1: nat, ch: nat, d: nat, e: int): int
    requires |b| == NV
  {
    e * (b[0] * n0 + b[1] * n1) + ch * d
  }

  /** Summing the share equations over all signers. */
  lemma {:induction false} SumOfShares(q: nat, states: seq<State>, shares: seq<nat>, a: seq<nat>, b: seq<nat>,
                                       ch: nat, e: int)
    requires q > 0 && |shares| == |a| == |states| && |b| == NV
    requires forall i :: 0 <= i < |states| ==> |states[i].ephk| == NV
    requires forall i :: 0 <= i < |states| ==> IsShare(q, shares[i], states[i], a[i], b, ch, e)
    ensures Cong(Sum(shares),
                 Combined(b, NonceSecret(states, 0), NonceSecret(states, 1), ch, Dot(a, Secrets(states)), e), q)
  {
    if states == [] {
      assert Combined(b, 0, 0, ch, 0, e) == 0;
    } else {
      hide Cong, IsShare, Combined;
      forall i | 0 <= i < |states[1..]|
        ensures IsShare(q, shares[1..][i], states[1..][i], a[1..][i], b, ch, e) && |states[1..][i].ephk| == NV
      {
        assert IsShare(q, shares[i + 1], states[i + 1], a[i + 1], b, ch, e);
      }
      SumOfShares(q, states[1..], shares[1..], a[1..], b, ch, e);
      assert Secrets(states)[1..] == Secrets(states[1..]);
      AddShare(q, shares[0], states[0], a[0], b, ch, e, Sum(shares[1..]), NonceSecret(states[1..], 0),
               NonceSecret(states[1..], 1), Dot(a[1..], Secrets(states[1..])));
    }
  }

  lemma AddShare(q: nat, share: nat, st: State, a: nat, b: seq<nat>, ch: nat, e: int,
                 rest: nat, n0: nat, n1: nat, d: nat)
    requires q > 0 && |st.ephk| == NV && |b| == NV && IsShare(q, share, st, a, b, ch, e)
    requires Cong(rest, Combined(b, n0, n1, ch, d, e), q)
    ensures Cong(share + rest,
                 Combined(b, st.ephk[0].sec + n0, st.ephk[1].sec + n1, ch, a * st.keyPair.sec + d, e), q)
  {
    DotOfTwo(Secs(st.ephk), b);
    AddCombined(q, share, rest, b, st.ephk[0].sec, st.ephk[1].sec, n0, n1, ch, a * st.keyPair.sec, d, e);
  }

  lemma AddCombined(q: nat, share: nat, rest: nat, b: seq<nat>, r0: nat, r1: nat, n0: nat, n1: nat,
                    ch: nat, v: nat, d: nat, e: int)
    requires q > 0 && |b| == NV && Cong(share, Combined(b, r0, r1, ch, v, e), q)
    requires Cong(rest, Combined(b, n0, n1, ch, d, e), q)
    ensures Cong(share + rest, Combined(b, r0 + n0, r1 + n1, ch, v + d, e), q)
  {
    var x, y := Combined(b, r0, r1, ch, v, e), Combined(b, n0, n1, ch, d, e);
    CongAdd(share, x, rest, y, q);
    Regroup(e, b[0], b[1], r0, r1, n0, n1, ch, v, d);
    hide Cong;
    assert x + y == Combined(b, r0 + n0, r1 + n1, ch, v + d, e);
  }

  lemma DotOfTwo(a: seq<nat>, b: seq<nat>)
    requires |a| == 2 && |b| == 2
    ensures Dot(a, b) == b[0] * a[0] + b[1] * a[1]
  {
    assert a[1..][1..] == [];
    assert Dot(a[1..], b[1..]) == a[1] * b[1] + Dot(a[1..][1..], b[1..][1..]);
  }

  lemma Regroup(e: int, b0: int, b1: int, r0: int, r1: int, n0: int, n1: int, ch: int, v: int, d: int)
    ensures (e * (b0 * r0 + b1 * r1) + ch * v) + (e * (b0 * n0 + b1 * n1) + ch * d) ==
            e * (b0 * (r0 + n0) + b1 * (r1 + n1)) + ch * (v + d)
  {
    assert b0 * (r0 + n0) == b0 * r0 + b0 * n0;
    assert b1 * (r1 + n1) == b1 * r1 + b1 * n1;
    assert ch * (v + d) == ch * v + ch * d;
    assert e * ((b0 * r0 + b1 * r1) + (b0 * n0 + b1 * n1)) == e * (b0 * r0 + b1 * r1) + e * (b0 * n0 + b1 * n1);
  }
}
