/**
 The two-round multi-signature scheme: key aggregation, nonce aggregation, binding coefficients,
 signature shares, their combination, and BIP 340 verification.
 */
module Musig2 {
  import opened Wrappers
  import opened Arith
  import opened Curves
  import opened Keys

  /** The number of nonces each party contributes. */
  const NV: nat := 2

  datatype KeyPair = KeyPair(pub: Point, sec: nat)
  datatype KeyAgg = KeyAgg(xTilde: Point, a: nat)
  datatype State = State(keyPair: KeyPair, ephk: seq<KeyPair>)
  datatype StatePrime = StatePrime(r: Point, s: nat)
  datatype GlobalParams = GlobalParams(c: nat, r: Point, b: seq<nat>)
  datatype Signature = Signature(rx: nat, s: nat)

  // ---- tagged hashing ----

  /** What a chain of `h.add(..)` over scalars feeds to the hash. */
  function Concat(ks: seq<nat>): seq<byte> {
    if ks == [] then [] else SerializeScalar(ks[0]) + Concat(ks[1..])
  }

  function HashScalars(c: Curve, ks: seq<nat>): seq<byte> {
    c.hash(Concat(ks))
  }

  // ---- folds ----

  /** Folds `add_point` from the left; fails at the first partial sum that is infinite. */
  function FoldPoints(c: Curve, acc: Point, s: seq<Point>): Outcome<Point>
    decreases s
  {
    if s == [] then Ok(acc)
    else
      var next :- AddPoint(c, acc, s[0]);
      FoldPoints(c, next, s[1..])
  }

  /** Folds `add_scalar` from the left; fails at the first partial sum that is zero. */
  function FoldScalars(c: Curve, acc: nat, s: seq<nat>): Outcome<nat>
    requires c.q > 0
    decreases s
  {
    if s == [] then Ok(acc)
    else
      var next :- AddScalar(c, acc, s[0]);
      FoldScalars(c, next, s[1..])
  }

  // ---- key aggregation ----

  /** The x coordinates as scalars; one that is not below the order is an error. */
  function XScalars(c: Curve, pts: seq<Point>): (r: Outcome<seq<nat>>)
    ensures r.Ok? ==> |r.value| == |pts|
  {
    if pts == [] then Ok([])
    else
      var x :- ParseSlice(c, XCoor(pts[0]));
      var rest :- XScalars(c, pts[1..]);
      Ok([x] + rest)
  }

  /** a_i for each x in `of`, hashing 1, x and all the x coordinates. */
  function Coefficients(c: Curve, of: seq<nat>, xs: seq<nat>): (r: Outcome<seq<nat>>)
    ensures r.Ok? ==> |r.value| == |of|
  {
    if of == [] then Ok([])
    else
      var a :- ParseSlice(c, HashScalars(c, [1, of[0]] + xs));
      var rest :- Coefficients(c, of[1..], xs);
      Ok([a] + rest)
  }

  function WeightKeys(c: Curve, pks: seq<Point>, a: seq<nat>): (r: Outcome<seq<Point>>)
    requires |pks| == |a|
    ensures r.Ok? ==> |r.value| == |pks|
  {
    if pks == [] then Ok([])
    else
      var w :- MulPoint(c, pks[0], a[0]);
      var rest :- WeightKeys(c, pks[1..], a[1..]);
      Ok([w] + rest)
  }

  /** `key_aggregation_n`. Every failure inside is an `expect`, hence a panic. */
  function KeyAggregation(c: Curve, pks: seq<Point>, partyIndex: nat): Outcome<KeyAgg> {
    if partyIndex >= |pks| then Panic(NoSuchParty)
    else
      var xs :- XScalars(c, pks).OrPanic(ExpectedValid);
      var a :- Coefficients(c, xs, xs).OrPanic(ExpectedValid);
      var weighted :- WeightKeys(c, pks, a).OrPanic(ExpectedValid);
      var sum :- FoldPoints(c, weighted[0], weighted[1..]).OrPanic(ExpectedValid);
      Ok(KeyAgg(sum, a[partyIndex]))
  }

  // ---- nonces ----

  /** `EphemeralKey::create_from_private_key`: the nonce is a hash of the key and a counter. */
  function EphemeralKey(c: Curve, x: KeyPair, pad: nat): Outcome<KeyPair> {
    var k :- ParseSlice(c, HashScalars(c, [x.sec, pad]));
    Ok(KeyPair(c.Exp(k), k))
  }

  function EphemeralKeys(c: Curve, x: KeyPair, count: nat): (r: Outcome<seq<KeyPair>>)
    ensures r.Ok? ==> |r.value| == count
  {
    if count == 0 then Ok([])
    else
      var before :- EphemeralKeys(c, x, count - 1);
      var e :- EphemeralKey(c, x, count - 1);
      Ok(before + [e])
  }

  function Publics(ks: seq<KeyPair>): (r: seq<Point>)
    ensures |r| == |ks|
    ensures forall i :: 0 <= i < |ks| ==> r[i] == ks[i].pub
  {
    seq(|ks|, i requires 0 <= i < |ks| => ks[i].pub)
  }

  /** `sign`: the first-round nonces and the state that remembers their secrets. */
  function Sign(c: Curve, x: KeyPair): Outcome<(seq<Point>, State)> {
    var ephk :- EphemeralKeys(c, x, NV);
    Ok((Publics(ephk), State(x, ephk)))
  }

  lemma {:induction false} EphemeralFailureStays(c: Curve, x: KeyPair, i: nat, n: nat)
    requires i <= n && EphemeralKeys(c, x, i).IsFailure()
    ensures EphemeralKeys(c, x, n) == EphemeralKeys(c, x, i)
  {
    if i == n {
    } else {
      EphemeralFailureStays(c, x, i, n - 1);
    }
  }

  /** `create_vec_from_private_key`. */
  method CreateEphemeralKeys(c: Curve, x: KeyPair) returns (r: Outcome<seq<KeyPair>>)
    ensures r == EphemeralKeys(c, x, NV)
  {
    var keys: seq<KeyPair> := [];
    for i := 0 to NV
      invariant EphemeralKeys(c, x, i) == Ok(keys)
    {
      var e := EphemeralKey(c, x, i);
      if e.IsFailure() {
        EphemeralFailureStays(c, x, i + 1, NV);
        return e.PropagateFailure();
      }
      keys := keys + [e.value];
    }
    return Ok(keys);
  }

  // ---- nonce aggregation ----

  /** Adds the j-th nonce of every message to acc, in the order given. */
  function NonceSum(c: Curve, acc: Point, msgs: seq<seq<Point>>, j: nat): Outcome<Point>
    decreases msgs
  {
    if msgs == [] then Ok(acc)
    else if j >= |msgs[0]| then Panic(IndexOutOfBounds)
    else
      var next :- AddPoint(c, acc, msgs[0][j]).OrPanic(ExpectedValid);
      NonceSum(c, next, msgs[1..], j)
  }

  /** The aggregated nonces R_0 .. R_(count-1), each fold starting from the party's own nonce. */
  function NonceSums(c: Curve, state: State, msgs: seq<seq<Point>>, count: nat): (r: Outcome<seq<Point>>)
    ensures r.Ok? ==> |r.value| == count
  {
    if count == 0 then Ok([])
    else
      var before :- NonceSums(c, state, msgs, count - 1);
      if count > |state.ephk| then Panic(IndexOutOfBounds)
      else
        var rj :- NonceSum(c, state.ephk[count - 1].pub, msgs, count - 1);
        Ok(before + [rj])
  }

  lemma {:induction false} NonceFailureStays(c: Curve, state: State, msgs: seq<seq<Point>>, i: nat, n: nat)
    requires i <= n && NonceSums(c, state, msgs, i).IsFailure()
    ensures NonceSums(c, state, msgs, n) == NonceSums(c, state, msgs, i)
  {
    if i == n {
    } else {
      NonceFailureStays(c, state, msgs, i, n - 1);
    }
  }

  /** `add_ephemeral_keys`. */
  method AddEphemeralKeys(c: Curve, state: State, msgs: seq<seq<Point>>) returns (r: Outcome<seq<Point>>)
    ensures r == NonceSums(c, state, msgs, NV)
  {
    var sums: seq<Point> := [];
    for j := 0 to NV
      invariant NonceSums(c, state, msgs, j) == Ok(sums)
    {
      if j >= |state.ephk| {
        NonceFailureStays(c, state, msgs, j + 1, NV);
        return Panic(IndexOutOfBounds);
      }
      var rj := NonceSum(c, state.ephk[j].pub, msgs, j);
      if rj.IsFailure() {
        NonceFailureStays(c, state, msgs, j + 1, NV);
        return rj.PropagateFailure();
      }
      sums := sums + [rj.value];
    }
    return Ok(sums);
  }

  // ---- binding coefficients ----

  function Binding(c: Curve, xTilde: Point, rs: seq<Point>, message: seq<byte>, j: nat): Outcome<nat>
    requires |rs| >= NV
  {
    var x :- ParseSlice(c, XCoor(xTilde));
    var rxs :- XScalars(c, rs[..NV]);
    var m :- ParseSlice(c, message);
    ParseSlice(c, HashScalars(c, [x] + rxs + [m] + [j]))
  }

  /** b_0 = 1, then one hash for each further nonce. */
  function Bindings(c: Curve, xTilde: Point, rs: seq<Point>, message: seq<byte>, count: nat): (r: Outcome<seq<nat>>)
    requires |rs| >= NV && count >= 1
    ensures r.Ok? ==> |r.value| == count && r.value[0] == 1
  {
    if count == 1 then Ok([1])
    else
      var before :- Bindings(c, xTilde, rs, message, count - 1);
      var b :- Binding(c, xTilde, rs, message, count - 1);
      Ok(before + [b])
  }

  lemma {:induction false} BindingFailureStays(c: Curve, xTilde: Point, rs: seq<Point>, message: seq<byte>,
                                               i: nat, n: nat)
    requires |rs| >= NV && 1 <= i <= n && Bindings(c, xTilde, rs, message, i).IsFailure()
    ensures Bindings(c, xTilde, rs, message, n) == Bindings(c, xTilde, rs, message, i)
  {
    if i == n {
    } else {
      BindingFailureStays(c, xTilde, rs, message, i, n - 1);
    }
  }

  /** acc + sum of b_j * R_j over the pairs of the two lists. */
  function WeightedPoints(c: Curve, acc: Point, rs: seq<Point>, bs: seq<nat>): Outcome<Point>
    decreases rs
  {
    if rs == [] || bs == [] then Ok(acc)
    else
      var w :- MulPoint(c, rs[0], bs[0]);
      var next :- AddPoint(c, acc, w);
      WeightedPoints(c, next, rs[1..], bs[1..])
  }

  function GlobalNonce(c: Curve, rs: seq<Point>, bs: seq<nat>): Outcome<Point>
    requires |rs| >= 1 && |bs| >= 1
  {
    var r0 :- MulPoint(c, rs[0], bs[0]);
    WeightedPoints(c, r0, rs[1..], bs[1..])
  }

  /** `Message::parse_slice`: a 32-byte string, reduced modulo the order. */
  function ParseMessage(c: Curve, message: seq<byte>): Outcome<nat>
    requires c.q > 0
  {
    if |message| != 32 then Err(InvalidInputLength) else Ok(FromBytes(message) % c.q)
  }

  /** `schnorrsig_challenge`: hash of x(R), x(P) and the message, reduced modulo the order. */
  function Challenge(c: Curve, rx: nat, pk: Point, message: nat): Outcome<nat>
    requires c.q > 0
  {
    var px :- ParseSlice(c, XCoor(pk));
    Ok(FromBytes(HashScalars(c, [rx, px, message])) % c.q)
  }

  /** What `compute_global_params` does once R_j are known. */
  function ParamsFromNonces(c: Curve, message: seq<byte>, xTilde: Point, rs: seq<Point>): (r: Outcome<GlobalParams>)
    requires c.q > 0 && |rs| == NV
    ensures r.Ok? ==> |r.value.b| == NV
  {
    var bs :- Bindings(c, xTilde, rs, message, NV);
    var r :- GlobalNonce(c, rs, bs);
    var rx :- ParseSlice(c, XCoor(r));
    var m :- ParseMessage(c, message);
    var ch :- Challenge(c, rx, xTilde, m);
    Ok(GlobalParams(ch, r, bs))
  }

  function GlobalParameters(c: Curve, state: State, message: seq<byte>, pks: seq<Point>,
                            msgs: seq<seq<Point>>, partyIndex: nat): Outcome<GlobalParams>
    requires c.q > 0
  {
    var agg :- KeyAggregation(c, pks, partyIndex);
    var rs :- NonceSums(c, state, msgs, NV);
    ParamsFromNonces(c, message, agg.xTilde, rs)
  }

  /** `compute_global_params`. */
  method ComputeGlobalParams(c: Curve, state: State, message: seq<byte>, pks: seq<Point>,
                             msgs: seq<seq<Point>>, partyIndex: nat) returns (r: Outcome<GlobalParams>)
    requires c.q > 0
    ensures r == GlobalParameters(c, state, message, pks, msgs, partyIndex)
  {
    var agg := KeyAggregation(c, pks, partyIndex);
    if agg.IsFailure() {
      return agg.PropagateFailure();
    }
    var xTilde := agg.value.xTilde;
    var sums := AddEphemeralKeys(c, state, msgs);
    if sums.IsFailure() {
      return sums.PropagateFailure();
    }
    var rs := sums.value;
    var bs: seq<nat> := [1];
    for j := 1 to NV
      invariant Bindings(c, xTilde, rs, message, j) == Ok(bs)
    {
      var b := Binding(c, xTilde, rs, message, j);
      if b.IsFailure() {
        BindingFailureStays(c, xTilde, rs, message, j + 1, NV);
        return b.PropagateFailure();
      }
      bs := bs + [b.value];
    }
    var nonce := GlobalNonce(c, rs, bs);
    if nonce.IsFailure() {
      return nonce.PropagateFailure();
    }
    var rx := ParseSlice(c, XCoor(nonce.value));
    if rx.IsFailure() {
      return rx.PropagateFailure();
    }
    var m := ParseMessage(c, message);
    if m.IsFailure() {
      return m.PropagateFailure();
    }
    var ch := Challenge(c, rx.value, xTilde, m.value);
    if ch.IsFailure() {
      return ch.PropagateFailure();
    }
    return Ok(GlobalParams(ch.value, nonce.value, bs));
  }

  // ---- signature shares ----

  /** acc plus the products b_j * r_j, each negated when R has odd y. */
  function ShareFold(c: Curve, acc: nat, ephk: seq<KeyPair>, bs: seq<nat>, isOdd: bool): Outcome<nat>
    requires c.q > 0
    decreases ephk
  {
    if ephk == [] || bs == [] then Ok(acc)
    else
      var m :- MulScalar(c, ephk[0].sec, bs[0]);
      var next :- AddScalar(c, acc, if isOdd then NegScalar(c, m) else m);
      ShareFold(c, next, ephk[1..], bs[1..], isOdd)
  }

  /** `compute_signature_share`. */
  function SignatureShare(c: Curve, state: State, bs: seq<nat>, ch: nat, x: KeyPair, a: nat, isOdd: bool): Outcome<nat>
    requires c.q > 0
  {
    if state.ephk == [] || bs == [] then Panic(IndexOutOfBounds)
    else
      var m :- MulScalar(c, state.ephk[0].sec, bs[0]);
      var lin :- ShareFold(c, if isOdd then NegScalar(c, m) else m, state.ephk[1..], bs[1..], isOdd);
      var cx :- MulScalar(c, ch, x.sec);
      var cxa :- MulScalar(c, cx, a);
      AddScalar(c, lin, cxa)
  }

  /** `sign_prime`. */
  function SignPrime(c: Curve, state: State, message: seq<byte>, pks: seq<Point>,
                     msgs: seq<seq<Point>>, partyIndex: nat): Outcome<StatePrime>
    requires c.q > 0
  {
    var agg :- KeyAggregation(c, pks, partyIndex);
    var params :- GlobalParameters(c, state, message, pks, msgs, partyIndex);
    var s :- SignatureShare(c, state, params.b, params.c, state.keyPair, agg.a, c.OddY(params.r));
    Ok(StatePrime(params.r, s))
  }

  /** `sign_double_prime`: own share first, then the received ones. */
  function SignDoublePrime(c: Curve, sp: StatePrime, shares: seq<nat>): Outcome<nat>
    requires c.q > 0
  {
    FoldScalars(c, sp.s, shares)
  }

  // ---- verification ----

  /** `verify`, which reports every rejection as an error and never as false. */
  function Verify(c: Curve, sig: Signature, message: nat, pk: Point): Outcome<bool>
    requires c.q > 0
  {
    if ParseXCoor(c, SerializeScalar(sig.rx)).IsFailure() then Err(Invalid)
    else if sig.s >= c.q then Err(Invalid)
    else if !c.Finite(pk) then Err(Invalid)
    else
      var h :- Challenge(c, sig.rx, pk, message);
      var r := c.plus(c.Mul(NegScalar(c, h), pk), c.Exp(sig.s));
      if r == Infinity then Err(Invalid)
      else if c.OddY(r) then Err(Invalid)
      else
        var rr :- ParseSlice(c, XCoor(r));
        if sig.rx == rr then Ok(true) else Err(Invalid)
  }
}
