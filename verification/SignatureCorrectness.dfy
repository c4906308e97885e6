/** The central law: shares combined by any party, in any order, form a signature that verifies. */
module SignatureCorrectness {
  import opened Wrappers
  import opened Arith
  import opened Curves
  import opened Keys
  import opened Musig2
  import opened Hashing
  import opened SignatureTheory

  // ---- what verification decides ----

  /** The point verification recomputes: s*G - h*P. */
  function ResponsePoint(c: Curve, h: nat, pk: Point, s: nat): Point
    requires c.q > 0
  {
    c.plus(c.Mul(NegScalar(c, h), pk), c.Exp(s))
  }

  lemma ResponseLog(c: Curve, h: nat, x: nat, s: nat) returns (k: nat)
    requires c.Valid()
    ensures ResponsePoint(c, h, c.Exp(x), s) == c.Exp(k) && Cong(k, s - h * x, c.q)
  {
    hide Curve.Valid, Curve.Exp, NegScalar, Cong;
    FieldFits(c);
    NegTimesCong(c, h, x, s);
    var nh := NegScalar(c, h);
    c.ExpMul(nh, x);
    c.ExpAdd(nh * x, s);
    k := nh * x + s;
  }

  lemma NegTimesCong(c: Curve, h: nat, x: nat, s: nat)
    requires c.q > 0
    ensures Cong(NegScalar(c, h) * x + s, s - h * x, c.q)
  {
    var nh := NegScalar(c, h);
    NegScalarCong(c, h);
    CongMul(nh, 0 - h, x, x, c.q);
    CongAdd(nh * x, (0 - h) * x, s, s, c.q);
    NegTimes(h, x);
  }

  lemma NegTimes(h: int, x: int)
    ensures (0 - h) * x == -(h * x)
  {
  }

  lemma NegScalarCong(c: Curve, h: nat)
    requires c.q > 0
    ensures Cong(NegScalar(c, h), 0 - h, c.q)
  {
    CongNeg(h % c.q, c.q);
    CongReduce(h, c.q);
    CongMul(-1, -1, h % c.q, h, c.q);
  }

  /** R is the recomputed point exactly when s*G = R + h*P. */
  lemma ResponseIff(c: Curve, h: nat, pk: Point, s: nat, r: Point)
    requires c.Valid() && c.OnCurve(pk) && c.OnCurve(r)
    ensures r == ResponsePoint(c, h, pk, s) <==> c.Exp(s) == c.plus(r, c.Mul(h, pk))
  {
    ResponseIffByLogs(c, h, c.Log(pk), s, c.Log(r));
  }

  lemma ResponseIffByLogs(c: Curve, h: nat, x: nat, s: nat, n: nat)
    requires c.Valid()
    ensures c.Exp(n) == ResponsePoint(c, h, c.Exp(x), s) <==>
            c.Exp(s) == c.plus(c.Exp(n), c.Mul(h, c.Exp(x)))
  {
    hide *;
    FieldFits(c);
    var k := ResponseLog(c, h, x, s);
    var hx := KeyTerm(c, h, x, n);
    c.ExpInjective(n, k);
    c.ExpInjective(s, n + hx);
    MoveTerm(n, k, s, hx, c.q);
  }

  lemma KeyTerm(c: Curve, h: nat, x: nat, n: nat) returns (hx: nat)
    requires c.Valid()
    ensures hx == h * x && c.plus(c.Exp(n), c.Mul(h, c.Exp(x))) == c.Exp(n + hx)
  {
    hide *;
    MulNat(h, x);
    hx := h * x;
    c.ExpMul(h, x);
    c.ExpAdd(n, hx);
  }

  lemma MoveTerm(n: int, k: int, s: int, hx: int, q: int)
    requires q > 0 && Cong(k, s - hx, q)
    ensures Cong(n, k, q) <==> Cong(s, n + hx, q)
  {
    CongAdd(k, s - hx, hx, hx, q);
    if Cong(n, k, q) {
      CongAdd(n, k, hx, hx, q);
    }
    if Cong(s, n + hx, q) {
      CongAdd(s, n + hx, -hx, -hx, q);
    }
  }

  lemma ResponseOnCurve(c: Curve, h: nat, pk: Point, s: nat)
    requires c.Valid() && c.OnCurve(pk)
    ensures c.OnCurve(ResponsePoint(c, h, pk, s))
  {
    hide Curve.Valid, Curve.Exp, Curve.OnCurve;
    FieldFits(c);
    var k := ResponseLog(c, h, c.Log(pk), s);
    c.ExpOnCurve(k);
  }

  /** The even-y point that a signature (rx, s) commits to, with challenge h. */
  ghost predicate Accepts(c: Curve, r: Point, rx: nat, s: nat, h: nat, pk: Point) {
    c.Finite(r) && !c.OddY(r) && XOf(r) == rx && c.Exp(s) == c.plus(r, c.Mul(h, pk))
  }

  lemma XParse(c: Curve, a: Point)
    requires c.Valid() && c.OnCurve(a)
    ensures ParseSlice(c, XCoor(a)).Ok? <==> XOf(a) < c.q
    ensures XOf(a) < c.q ==> ParseSlice(c, XCoor(a)) == Ok(XOf(a))
    ensures ParseSlice(c, XCoor(a)).Ok? || ParseSlice(c, XCoor(a)) == Err(InvalidPrivateKey)
  {
    FromToBytes(XOf(a), 32);
  }

  /** The challenge, for a key whose x coordinate is a scalar: the hash of x(R), x(P) and the message. */
  function ChallengeOf(c: Curve, rx: nat, pk: Point, message: nat): nat
    requires c.q > 0
  {
    FromBytes(c.hash(SerializeScalar(rx) + XCoor(pk) + SerializeScalar(message))) % c.q
  }

  lemma XCoorValue(c: Curve, a: Point)
    requires c.Valid() && c.OnCurve(a)
    ensures FromBytes(XCoor(a)) == XOf(a)
  {
    FromToBytes(XOf(a), 32);
  }

  /** What `verify` tests, in terms of the recomputed point. */
  lemma VerifyByResponse(c: Curve, sig: Signature, message: nat, pk: Point)
    requires c.Valid()
    ensures Verify(c, sig, message, pk) != Ok(false) && !Verify(c, sig, message, pk).Panic?
    ensures Verify(c, sig, message, pk) == Ok(true) <==>
            && ParseXCoor(c, SerializeScalar(sig.rx)).Ok?
            && sig.s < c.q && c.Finite(pk) && XOf(pk) < c.q
            && var r := ResponsePoint(c, ChallengeOf(c, sig.rx, pk, message), pk, sig.s);
               r != Infinity && !c.OddY(r) && XOf(r) == sig.rx < c.q
  {
    hide Curve.Valid, Curve.Exp, Curve.OnCurve, ParseXCoor, Challenge, XCoor, FromBytes;
    FieldFits(c);
    if c.Finite(pk) {
      XParse(c, pk);
      ChallengeHash(c, sig.rx, pk, message);
      XCoorValue(c, pk);
      if XOf(pk) < c.q {
        var h := ChallengeOf(c, sig.rx, pk, message);
        ResponseOnCurve(c, h, pk, sig.s);
        XParse(c, ResponsePoint(c, h, pk, sig.s));
      }
    }
  }

  /** Exactly which signatures verify, and that a rejection is always an error, never `false`. */
  lemma VerifyIff(c: Curve, sig: Signature, message: nat, pk: Point)
    requires c.Valid()
    ensures Verify(c, sig, message, pk) != Ok(false) && !Verify(c, sig, message, pk).Panic?
    ensures Verify(c, sig, message, pk) == Ok(true) <==>
            && sig.s < c.q && sig.rx < c.q && c.Finite(pk) && XOf(pk) < c.q
            && exists r :: Accepts(c, r, sig.rx, sig.s, ChallengeOf(c, sig.rx, pk, message), pk)
  {
    FieldFits(c);
    VerifyByResponse(c, sig, message, pk);
    hide Curve.Valid, Curve.Exp, Curve.OnCurve, Verify, ParseXCoor, HashScalars;
    if c.Finite(pk) && XOf(pk) < c.q {
      XParse(c, pk);
      var h := ChallengeOf(c, sig.rx, pk, message);
      var r := ResponsePoint(c, h, pk, sig.s);
      ResponseOnCurve(c, h, pk, sig.s);
      ResponseIff(c, h, pk, sig.s, r);
      if c.Finite(r) && XOf(r) == sig.rx {
        XCoorRoundTrip(c, r);
        assert SerializeScalar(sig.rx) == XCoor(r);
      }
      assert r.Affine? && !c.OddY(r) && XOf(r) == sig.rx ==> Accepts(c, r, sig.rx, sig.s, h, pk);
      forall t | Accepts(c, t, sig.rx, sig.s, h, pk)
        ensures t == r
      {
        ResponseIff(c, h, pk, sig.s, t);
      }
    }
  }

  /** A rejection reports an invalid scalar exactly when x(P) or the recomputed x(R) is none. */
  lemma RejectionKinds(c: Curve, sig: Signature, message: nat, pk: Point)
    requires c.Valid()
    ensures Verify(c, sig, message, pk) == Err(InvalidPrivateKey) <==>
            && ParseXCoor(c, SerializeScalar(sig.rx)).Ok? && sig.s < c.q && c.Finite(pk)
            && (|| XOf(pk) >= c.q
                || (var r := ResponsePoint(c, ChallengeOf(c, sig.rx, pk, message), pk, sig.s);
                    r != Infinity && !c.OddY(r) && XOf(r) >= c.q))
    ensures Verify(c, sig, message, pk) in {Ok(true), Err(Invalid), Err(InvalidPrivateKey)}
  {
    hide Curve.Valid, Curve.Exp, Curve.OnCurve, ParseXCoor, Challenge, XCoor, FromBytes;
    FieldFits(c);
    if c.Finite(pk) {
      XParse(c, pk);
      ChallengeHash(c, sig.rx, pk, message);
      XCoorValue(c, pk);
      if XOf(pk) < c.q {
        var h := ChallengeOf(c, sig.rx, pk, message);
        ResponseOnCurve(c, h, pk, sig.s);
        XParse(c, ResponsePoint(c, h, pk, sig.s));
      }
    }
  }

  /** For a given nonce coordinate, message and key there is at most one valid s. */
  lemma AtMostOneResponse(c: Curve, rx: nat, s: nat, s': nat, message: nat, pk: Point)
    requires c.Valid()
    requires Verify(c, Signature(rx, s), message, pk) == Ok(true)
    requires Verify(c, Signature(rx, s'), message, pk) == Ok(true)
    ensures s == s'
  {
    FieldFits(c);
    VerifyIff(c, Signature(rx, s), message, pk);
    VerifyIff(c, Signature(rx, s'), message, pk);
    var h := ChallengeOf(c, rx, pk, message);
    hide Curve.Valid, Curve.Exp, Curve.OnCurve, Verify;
    var r :| Accepts(c, r, rx, s, h, pk);
    var r' :| Accepts(c, r', rx, s', h, pk);
    c.SameXUpToSign(r, r');
    c.NegFlipsParity(r');
    c.ExpInjective(s, s');
    ModUnique(s, 0, s, c.q);
    ModUnique(s', 0, s', c.q);
  }

  // ---- the joint signature ----

  /** The parameters every party should arrive at, from the secrets and the message alone. */
  ghost function JointParams(c: Curve, states: seq<State>, message: seq<byte>): (r: Outcome<GlobalParams>)
    requires c.q > 0 && AllConsistent(c, states)
    ensures r.Ok? ==> |r.value.b| == NV && AggCoefficients(c, Pks(states)).Ok?
  {
    var a :- AggCoefficients(c, Pks(states));
    ParamsFromNonces(c, message, c.Exp(Dot(a, Secrets(states))), AggregatedNonces(c, states))
  }

  /** The discrete logarithm of the aggregate key: sum of a_i x_i. */
  ghost function JointKeyLog(c: Curve, states: seq<State>): nat
    requires AggCoefficients(c, Pks(states)).Ok?
  {
    Dot(AggCoefficients(c, Pks(states)).value, Secrets(states))
  }

  ghost function JointKey(c: Curve, states: seq<State>): Point
    requires AggCoefficients(c, Pks(states)).Ok?
  {
    c.Exp(JointKeyLog(c, states))
  }

  function NonceExponent(b: seq<nat>, n0: nat, n1: nat): nat
    requires |b| == NV
  {
    b[0] * n0 + b[1] * n1
  }

  /** The discrete logarithm of R: sum over j of b_j times the sum of the j-th nonce secrets. */
  ghost function JointNonceLog(c: Curve, states: seq<State>, message: seq<byte>): nat
    requires c.q > 0 && AllConsistent(c, states) && JointParams(c, states, message).Ok?
  {
    NonceExponent(JointParams(c, states, message).value.b, NonceSecret(states, 0), NonceSecret(states, 1))
  }

  /** The response of the signature in closed form: e * log R + c * log X modulo the order. */
  ghost function JointResponse(c: Curve, states: seq<State>, message: seq<byte>): nat
    requires c.q > 0 && AllConsistent(c, states) && JointParams(c, states, message).Ok?
  {
    var params := JointParams(c, states, message).value;
    (SignOf(c.OddY(params.r)) * JointNonceLog(c, states, message) + params.c * JointKeyLog(c, states)) % c.q
  }

  lemma PksHaveLogs(c: Curve, states: seq<State>)
    requires AllConsistent(c, states)
    ensures HaveLogs(c, Pks(states), Secrets(states))
  {
    forall i | 0 <= i < |states|
      ensures Pks(states)[i] == c.Exp(Secrets(states)[i])
    {
      assert Consistent(c, states[i]);
    }
  }

  /** Whoever computes the parameters, from messages in any order, computes the joint ones. */
  lemma ParametersAreJoint(c: Curve, states: seq<State>, message: seq<byte>, i: nat, others: seq<State>)
    requires c.Valid() && AllConsistent(c, states) && Completes(states, i, others)
    requires GlobalParameters(c, states[i], message, Pks(states), Nonces(others), i).Ok?
    ensures GlobalParameters(c, states[i], message, Pks(states), Nonces(others), i) == JointParams(c, states, message)
    ensures KeyAggregation(c, Pks(states), i) ==
            Ok(KeyAgg(JointKey(c, states), AggCoefficients(c, Pks(states)).value[i]))
  {
    PksHaveLogs(c, states);
    AggregateKeyLog(c, Pks(states), Secrets(states), i);
    NonceAgreement(c, states, i, others);
    KeyAggregationIgnoresIndex(c, Pks(states), i, i);
  }

  /** R is the public point of the weighted nonce secrets, and it is finite. */
  lemma JointNonceHasLog(c: Curve, states: seq<State>, message: seq<byte>)
    requires c.Valid() && AllConsistent(c, states) && JointParams(c, states, message).Ok?
    ensures JointParams(c, states, message).value.r == c.Exp(JointNonceLog(c, states, message))
    ensures c.Finite(JointParams(c, states, message).value.r)
  {
    var params := JointParams(c, states, message).value;
    var b, n0, n1 := params.b, NonceSecret(states, 0), NonceSecret(states, 1);
    var rs := AggregatedNonces(c, states);
    assert GlobalNonce(c, rs, b) == Ok(params.r);
    assert rs[0] == c.Exp(n0) && rs[1..] == [c.Exp(n1)] && b[1..] == [b[1]];
    GlobalNonceLog(c, rs, b, n0, n1);
  }

  lemma GlobalNonceLog(c: Curve, rs: seq<Point>, b: seq<nat>, n0: nat, n1: nat)
    requires c.Valid() && |rs| == NV && |b| == NV && rs[0] == c.Exp(n0) && rs[1] == c.Exp(n1)
    requires GlobalNonce(c, rs, b).Ok?
    ensures GlobalNonce(c, rs, b).value == c.Exp(NonceExponent(b, n0, n1))
    ensures c.Finite(GlobalNonce(c, rs, b).value)
  {
    hide Curve.Valid, Curve.Exp, Curve.OnCurve;
    var u, v := b[0] * n0, b[1] * n1;
    c.ExpMul(b[0], n0);
    c.ExpMul(b[1], n1);
    c.ExpAdd(u, v);
    c.ExpOnCurve(u + v);
    assert rs[1..] == [c.Exp(n1)] && b[1..] == [b[1]];
    TwoWeightedPoints(c, c.Exp(u), c.Exp(n1), b[1]);
  }

  lemma TwoWeightedPoints(c: Curve, acc: Point, r: Point, b: nat)
    ensures WeightedPoints(c, acc, [r], [b]).Ok? ==>
              WeightedPoints(c, acc, [r], [b]) == AddPoint(c, acc, c.Mul(b, r))
  {
    assert [r][1..] == [];
    var m := MulPoint(c, r, b);
    if m.Ok? && AddPoint(c, acc, m.value).Ok? {
      assert WeightedPoints(c, AddPoint(c, acc, m.value).value, [r][1..], [b][1..]) == AddPoint(c, acc, m.value);
    }
  }

  // ---- the joint signature verifies ----

  /** The recomputed point of a response that equals e*N + h*X is R with its parity made even. */
  lemma ResponseIsEvenNonce(c: Curve, n: nat, x: nat, h: nat, s: nat)
    requires c.Valid() && c.Finite(c.Exp(n))
    requires Cong(s, SignOf(c.OddY(c.Exp(n))) * n + h * x, c.q)
    ensures ResponsePoint(c, h, c.Exp(x), s) == EvenOf(c, c.Exp(n))
  {
    hide *;
    FieldFits(c);
    var k := ResponseLog(c, h, x, s);
    var e := SignOf(c.OddY(c.Exp(n)));
    CancelTerm(k, s, e * n, h * x, c.q);
    EvenOfLog(c, n, k);
  }

  lemma EvenOfLog(c: Curve, n: nat, k: nat)
    requires c.Valid() && Cong(k, SignOf(c.OddY(c.Exp(n))) * n, c.q)
    ensures c.Exp(k) == EvenOf(c, c.Exp(n))
  {
    hide Curve.Valid, Curve.Exp, Curve.OnCurve, Curve.Neg, Cong;
    FieldFits(c);
    if c.OddY(c.Exp(n)) {
      c.NegExp(n);
      var m := Complement(n, c.q);
      CongOfComplement(n, m, c.q);
      CongTrans(k, -1 * n, m, c.q);
      c.ExpInjective(k, m);
    } else {
      assert 1 * n == n;
      c.ExpInjective(k, n);
    }
  }

  lemma CongTrans(a: int, b: int, m: int, q: int)
    requires q > 0 && Cong(a, b, q) && Cong(m, b, q)
    ensures Cong(a, m, q)
  {
  }

  lemma CancelTerm(k: int, s: int, n: int, hx: int, q: int)
    requires q > 0 && Cong(k, s - hx, q) && Cong(s, n + hx, q)
    ensures Cong(k, n, q)
  {
    CongAdd(s, n + hx, -hx, -hx, q);
  }

  lemma CongOfComplement(n: int, m: int, q: int)
    requires q > 0 && (n + m) % q == 0
    ensures Cong(m, -1 * n, q)
  {
    ModUnique(0, 0, 0, q);
    CongAdd(n + m, 0, -n, -n, q);
  }

  /** A response congruent to e*N + h*X verifies under the key with logarithm X. */
  lemma CongruentResponseVerifies(c: Curve, n: nat, x: nat, s: nat, message: nat)
    requires c.Valid() && c.Finite(c.Exp(n)) && c.Finite(c.Exp(x)) && s < c.q
    requires XOf(c.Exp(n)) < c.q && XOf(c.Exp(x)) < c.q
    requires Cong(s, SignOf(c.OddY(c.Exp(n))) * n + ChallengeOf(c, XOf(c.Exp(n)), c.Exp(x), message) * x, c.q)
    ensures Verify(c, Signature(XOf(c.Exp(n)), s), message, c.Exp(x)) == Ok(true)
  {
    FieldFits(c);
    var r, pk := c.Exp(n), c.Exp(x);
    var h := ChallengeOf(c, XOf(r), pk, message);
    ResponseIsEvenNonce(c, n, x, h, s);
    EvenOfIsEven(c, r);
    XCoorRoundTrip(c, r);
    VerifyByResponse(c, Signature(XOf(r), s), message, pk);
  }

  /** Every signer's first-round computation succeeded, with messages in the order it holds them. */
  ghost predicate AllSigned(c: Curve, states: seq<State>, message: seq<byte>,
                            orders: seq<seq<State>>, sps: seq<StatePrime>)
    requires c.q > 0
  {
    && |orders| == |states| && |sps| == |states|
    && forall i :: 0 <= i < |states| ==> HasSigned(c, states, message, i, orders[i], sps[i])
  }

  ghost predicate HasSigned(c: Curve, states: seq<State>, message: seq<byte>, i: nat, others: seq<State>,
                            sp: StatePrime)
    requires c.q > 0 && i < |states|
  {
    Completes(states, i, others) && SignPrime(c, states[i], message, Pks(states), Nonces(others), i) == Ok(sp)
  }

  function Shares(sps: seq<StatePrime>): (r: seq<nat>)
    ensures |r| == |sps|
  {
    seq(|sps|, i requires 0 <= i < |sps| => sps[i].s)
  }

  /** What a successful `sign_prime` yields: the joint R, and a share satisfying the share equation. */
  lemma SignedShare(c: Curve, states: seq<State>, message: seq<byte>, i: nat, others: seq<State>, sp: StatePrime)
    requires c.Valid() && AllConsistent(c, states) && i < |states|
    requires HasSigned(c, states, message, i, others, sp)
    ensures JointParams(c, states, message).Ok?
    ensures var params := JointParams(c, states, message).value;
            var a := AggCoefficients(c, Pks(states)).value;
            && sp.r == params.r && sp.s < c.q
            && IsShare(c.q, sp.s, states[i], a[i], params.b, params.c, SignOf(c.OddY(params.r)))
            && states[i].keyPair.sec % c.q != 0
  {
    hide Curve.Valid, Curve.Exp, Curve.OnCurve, GlobalParameters, KeyAggregation, JointParams, SignatureShare,
         AggCoefficients, JointKey, Dot, Cong, Curve.OddY;
    FieldFits(c);
    ParametersAreJoint(c, states, message, i, others);
    var params := JointParams(c, states, message).value;
    var a := AggCoefficients(c, Pks(states)).value;
    ShareEquation(c, states[i], params.b, params.c, states[i].keyPair, a[i], c.OddY(params.r));
  }

  /** The aggregate key is finite as soon as one signer holds a nonzero secret. */
  lemma JointKeyFinite(c: Curve, states: seq<State>, i: nat)
    requires c.Valid() && AllConsistent(c, states) && i < |states|
    requires states[i].keyPair.sec % c.q != 0 && KeyAggregation(c, Pks(states), i).Ok?
    ensures AggCoefficients(c, Pks(states)).Ok? && c.Finite(JointKey(c, states))
  {
    PksHaveLogs(c, states);
    AggregateKeyLog(c, Pks(states), Secrets(states), i);
    c.ExpOnCurve(Dot(AggCoefficients(c, Pks(states)).value, Secrets(states)));
    if |states| == 1 {
      SingleKeyFinite(c, Pks(states), states[0].keyPair.sec);
    }
  }

  lemma SingleKeyFinite(c: Curve, pks: seq<Point>, x: nat)
    requires c.Valid() && |pks| == 1 && pks[0] == c.Exp(x) && x % c.q != 0 && KeyAggregation(c, pks, 0).Ok?
    ensures c.Finite(KeyAggregation(c, pks, 0).value.xTilde)
  {
    var xs := XScalars(c, pks).value;
    var a := AggCoefficients(c, pks).value;
    CoefficientsBelowOrder(c, xs, xs);
    c.ExpOnCurve(x);
    c.ExpIsInfinity(x);
    c.MulFinite(a[0], c.Exp(x));
    assert WeightKeys(c, pks, a).value[1..] == [];
  }

  lemma ConsistentLength(c: Curve, st: State)
    requires Consistent(c, st)
    ensures |st.ephk| == NV
  {
  }

  lemma CombinedExponent(b: seq<nat>, n0: nat, n1: nat, ch: nat, d: nat, e: int)
    requires |b| == NV
    ensures Combined(b, n0, n1, ch, d, e) == e * NonceExponent(b, n0, n1) + ch * d
  {
  }

  /** Whatever order the shares arrive in, their combination is the joint response. */
  lemma CombinationIsJoint(c: Curve, states: seq<State>, message: seq<byte>, orders: seq<seq<State>>,
                           sps: seq<StatePrime>, i: nat, received: seq<nat>, s: nat)
    requires c.Valid() && AllConsistent(c, states) && i < |states|
    requires AllSigned(c, states, message, orders, sps)
    requires multiset([sps[i].s] + received) == multiset(Shares(sps))
    requires SignDoublePrime(c, sps[i], received) == Ok(s)
    ensures JointParams(c, states, message).Ok?
    ensures s == JointResponse(c, states, message) < c.q
  {
    hide Curve.Valid, Curve.Exp, Curve.OnCurve, JointParams, AggCoefficients, Combined, IsShare, HasSigned,
         FoldScalars, NonceSecret, Dot, Curve.OddY, Consistent;
    FieldFits(c);
    forall k | 0 <= k < |states|
      ensures JointParams(c, states, message).Ok? && sps[k].s < c.q && |states[k].ephk| == NV
      ensures var params := JointParams(c, states, message).value;
              IsShare(c.q, sps[k].s, states[k], AggCoefficients(c, Pks(states)).value[k], params.b, params.c,
                      SignOf(c.OddY(params.r)))
    {
      assert HasSigned(c, states, message, k, orders[k], sps[k]);
      SignedShare(c, states, message, k, orders[k], sps[k]);
      ConsistentLength(c, states[k]);
    }
    var params := JointParams(c, states, message).value;
    var a := AggCoefficients(c, Pks(states)).value;
    FoldScalarsSum(c, sps[i].s, received);
    SumPermutation([sps[i].s] + received, Shares(sps));
    assert ([sps[i].s] + received)[1..] == received;
    SumOfShares(c.q, states, Shares(sps), a, params.b, params.c, SignOf(c.OddY(params.r)));
    CombinedExponent(params.b, NonceSecret(states, 0), NonceSecret(states, 1), params.c, JointKeyLog(c, states),
                     SignOf(c.OddY(params.r)));
    ModUnique(s, 0, s, c.q);
  }

  /**
   Signature correctness: for any number of signers whose `sign_prime` succeeded, any signer that
   combines the shares, in any order, without hitting a zero partial sum, obtains a signature that
   `verify` accepts under the full aggregate key.
   */
  lemma CombinedSignatureVerifies(c: Curve, states: seq<State>, message: seq<byte>, orders: seq<seq<State>>,
                                  sps: seq<StatePrime>, i: nat, received: seq<nat>, s: nat)
    requires c.Valid() && AllConsistent(c, states) && i < |states|
    requires AllSigned(c, states, message, orders, sps)
    requires multiset([sps[i].s] + received) == multiset(Shares(sps))
    requires SignDoublePrime(c, sps[i], received) == Ok(s)
    ensures JointParams(c, states, message).Ok?
    ensures sps[i].r == JointParams(c, states, message).value.r && s == JointResponse(c, states, message)
    ensures ParseSlice(c, XCoor(sps[i].r)) == Ok(XOf(sps[i].r)) && ParseMessage(c, message).Ok?
    ensures Verify(c, Signature(XOf(sps[i].r), s), ParseMessage(c, message).value, JointKey(c, states)) == Ok(true)
  {
    FieldFits(c);
    CombinationIsJoint(c, states, message, orders, sps, i, received, s);
    assert HasSigned(c, states, message, i, orders[i], sps[i]);
    SignedShare(c, states, message, i, orders[i], sps[i]);
    JointKeyFinite(c, states, i);
    JointResponseVerifies(c, states, message);
  }

  /** The joint response verifies, as soon as the joint key is finite. */
  lemma JointResponseVerifies(c: Curve, states: seq<State>, message: seq<byte>)
    requires c.Valid() && AllConsistent(c, states) && JointParams(c, states, message).Ok?
    requires c.Finite(JointKey(c, states))
    ensures ParseMessage(c, message).Ok?
    ensures var r := JointParams(c, states, message).value.r;
            && ParseSlice(c, XCoor(r)) == Ok(XOf(r))
            && Verify(c, Signature(XOf(r), JointResponse(c, states, message)), ParseMessage(c, message).value,
                      JointKey(c, states)) == Ok(true)
  {
    hide Curve.Valid, Curve.Exp, Curve.OnCurve, Verify, JointKeyLog, JointNonceLog, JointParams, Cong, Curve.OddY,
         ChallengeOf, ParseMessage;
    FieldFits(c);
    var params := JointParams(c, states, message).value;
    var n, d := JointNonceLog(c, states, message), JointKeyLog(c, states);
    JointNonceHasLog(c, states, message);
    JointChallenge(c, states, message);
    XParse(c, params.r);
    CongReduce(SignOf(c.OddY(params.r)) * n + params.c * d, c.q);
    CongruentResponseVerifies(c, n, d, JointResponse(c, states, message), ParseMessage(c, message).value);
  }

  /** The joint challenge is the one verification recomputes. */
  lemma JointChallenge(c: Curve, states: seq<State>, message: seq<byte>)
    requires c.Valid() && AllConsistent(c, states) && JointParams(c, states, message).Ok?
    requires c.OnCurve(JointKey(c, states)) && c.OnCurve(JointParams(c, states, message).value.r)
    ensures ParseMessage(c, message).Ok?
    ensures var r := JointParams(c, states, message).value.r;
            && XOf(r) < c.q && XOf(JointKey(c, states)) < c.q
            && JointParams(c, states, message).value.c ==
               ChallengeOf(c, XOf(r), JointKey(c, states), ParseMessage(c, message).value)
  {
    hide Curve.Valid, Curve.Exp, Curve.OnCurve, Dot, NonceSecret, Bindings, GlobalNonce, AllConsistent, AggCoefficients,
         Challenge, FromBytes, XCoor;
    FieldFits(c);
    var r := JointParams(c, states, message).value.r;
    XParse(c, r);
    XParse(c, JointKey(c, states));
    XCoorValue(c, JointKey(c, states));
    ChallengeHash(c, XOf(r), JointKey(c, states), ParseMessage(c, message).value);
  }
}
