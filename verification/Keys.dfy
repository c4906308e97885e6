/**
 Private keys are scalars below the group order and public keys are curve points. The checked
 operations reject a zero scalar or the point at infinity; encodings are big-endian.
 */
module Keys {
  import opened Wrappers
  import opened Arith
  import opened Curves

  // ---- checked scalar operations ----

  function AddScalar(c: Curve, a: nat, b: nat): Outcome<nat>
    requires c.q > 0
  {
    var v := (a + b) % c.q;
    if v == 0 then Err(InvalidPrivateKey) else Ok(v)
  }

  function MulScalar(c: Curve, a: nat, b: nat): Outcome<nat>
    requires c.q > 0
  {
    var v := (a * b) % c.q;
    if v == 0 then Err(InvalidPrivateKey) else Ok(v)
  }

  function NegScalar(c: Curve, a: nat): nat
    requires c.q > 0
  {
    (c.q - a % c.q) % c.q
  }

  // ---- checked point operations ----

  function AddPoint(c: Curve, a: Point, b: Point): Outcome<Point> {
    var r := c.plus(a, b);
    if r == Infinity then Err(InvalidPublicKey) else Ok(r)
  }

  function MulPoint(c: Curve, a: Point, k: nat): Outcome<Point> {
    if k == 0 then Err(InvalidPrivateKey) else Ok(c.Mul(k, a))
  }

  // ---- scalar encoding ----

  function SerializeScalar(k: nat): (s: seq<byte>)
    ensures |s| == 32
  {
    ToBytes(k, 32)
  }

  function ParseSlice(c: Curve, s: seq<byte>): Outcome<nat> {
    if |s| != 32 then Err(InvalidInputLength)
    else
      var k := FromBytes(s);
      if k < c.q then Ok(k) else Err(InvalidPrivateKey)
  }

  /** Parsing accepts exactly the 32-byte encodings of scalars below the order, and undoes them. */
  lemma ScalarRoundTrip(c: Curve, s: seq<byte>, k: nat)
    requires c.Valid()
    ensures ParseSlice(c, s) == Ok(k) <==> k < c.q && s == SerializeScalar(k)
  {
    if k < c.q {
      FromToBytes(k, 32);
    }
    ToFromBytes(s);
  }

  /** What is not such an encoding is refused, for its length or for its value. */
  lemma ScalarRefused(c: Curve, s: seq<byte>)
    ensures ParseSlice(c, s).Ok? || ParseSlice(c, s).Err?
    ensures ParseSlice(c, s) == Err(InvalidInputLength) <==> |s| != 32
    ensures ParseSlice(c, s) == Err(InvalidPrivateKey) <==> |s| == 32 && FromBytes(s) >= c.q
  {
  }

  // ---- point encoding ----

  function XOf(a: Point): nat {
    if a.Affine? then a.x else 0
  }

  function YOf(a: Point): nat {
    if a.Affine? then a.y else 0
  }

  function XCoor(a: Point): (s: seq<byte>)
    ensures |s| == 32
  {
    ToBytes(XOf(a), 32)
  }

  const TAG_PUBKEY_FULL: byte := 4

  function SerializePoint(a: Point): (s: seq<byte>)
    ensures |s| == 65
  {
    [TAG_PUBKEY_FULL] + ToBytes(XOf(a), 32) + ToBytes(YOf(a), 32)
  }

  /** Reads the two coordinates; the tag byte is never looked at. */
  function ParsePoint(c: Curve, s: seq<byte>): Outcome<Point>
    requires |s| == 65
  {
    var x, y := FromBytes(s[1..33]), FromBytes(s[33..65]);
    if x >= c.p || y >= c.p then Err(InvalidPublicKey)
    else if !c.Finite(Affine(x, y)) then Err(InvalidPublicKey)
    else Ok(Affine(x, y))
  }

  /** The layout: the tag 4, then x, then y, both big-endian. */
  lemma PointLayout(a: Point)
    requires XOf(a) < Pow256(32) && YOf(a) < Pow256(32)
    ensures var s := SerializePoint(a);
            s[0] == 4 && FromBytes(s[1..33]) == XOf(a) && FromBytes(s[33..65]) == YOf(a)
  {
    var s := SerializePoint(a);
    assert s[1..33] == ToBytes(XOf(a), 32) && s[33..65] == ToBytes(YOf(a), 32);
    FromToBytes(XOf(a), 32);
    FromToBytes(YOf(a), 32);
  }

  /** Parsing yields exactly the finite curve points with these coordinates, and fails otherwise. */
  lemma PointParsesIff(c: Curve, s: seq<byte>, a: Point)
    requires |s| == 65
    ensures ParsePoint(c, s) == Ok(a) <==>
            c.Finite(a) && a == Affine(FromBytes(s[1..33]), FromBytes(s[33..65]))
    ensures !ParsePoint(c, s).Ok? ==> ParsePoint(c, s) == Err(InvalidPublicKey)
  {
  }

  /** Parsing undoes serialization on finite curve points and yields nothing else. */
  lemma PointRoundTrip(c: Curve, a: Point)
    requires c.Valid() && c.Finite(a)
    ensures ParsePoint(c, SerializePoint(a)) == Ok(a)
  {
    var s := SerializePoint(a);
    assert s[1..33] == ToBytes(a.x, 32);
    assert s[33..65] == ToBytes(a.y, 32);
    FromToBytes(a.x, 32);
    FromToBytes(a.y, 32);
  }

  lemma ParsedPointIsTheEncoded(c: Curve, s: seq<byte>, a: Point)
    requires c.Valid() && |s| == 65 && ParsePoint(c, s) == Ok(a)
    ensures c.Finite(a) && s == s[..1] + SerializePoint(a)[1..]
  {
    hide Curve.Valid, Curve.Finite, FromBytes, ToBytes;
    var tag, xs, ys := s[..1], s[1..33], s[33..65];
    ToFromBytes(xs);
    ToFromBytes(ys);
    assert a == Affine(FromBytes(xs), FromBytes(ys));
    hide *;
    TagAndCoordinates(s, xs, ys, a);
  }

  lemma TagAndCoordinates(s: seq<byte>, xs: seq<byte>, ys: seq<byte>, a: Point)
    requires |s| == 65 && xs == s[1..33] && ys == s[33..65]
    requires a.Affine? && ToBytes(a.x, 32) == xs && ToBytes(a.y, 32) == ys
    ensures s == s[..1] + SerializePoint(a)[1..]
  {
    hide ToBytes;
    assert SerializePoint(a)[1..] == xs + ys;
    assert s == s[..1] + (xs + ys);
  }

  /** The smallest even y, from `from` upwards, with (x, y) on the curve. */
  function EvenRoot(c: Curve, x: nat, from: nat): (r: Option<nat>)
    requires from <= c.p
    ensures r.Some? ==> from <= r.value < c.p && r.value % 2 == 0 && c.Finite(Affine(x, r.value))
    ensures r.None? ==> forall y :: from <= y < c.p && y % 2 == 0 ==> !c.Finite(Affine(x, y))
    decreases c.p - from
  {
    if from == c.p then None
    else if from % 2 == 0 && c.Finite(Affine(x, from)) then Some(from)
    else EvenRoot(c, x, from + 1)
  }

  /** `parse_x_coor`: the point with this x coordinate and even y. */
  function ParseXCoor(c: Curve, s: seq<byte>): Outcome<Point>
    requires |s| == 32
  {
    var x := FromBytes(s);
    if x >= c.p then Err(XCoordinateNotExist)
    else
      match EvenRoot(c, x, 0)
      case Some(y) => Ok(Affine(x, y))
      case None => Err(XCoordinateNotExist)
  }

  /** Of a point and its negation, the one with even y. */
  function EvenOf(c: Curve, a: Point): Point {
    if c.OddY(a) then c.Neg(a) else a
  }

  lemma EvenOfIsEven(c: Curve, a: Point)
    requires c.Valid() && c.Finite(a)
    ensures c.Finite(EvenOf(c, a)) && !c.OddY(EvenOf(c, a)) && EvenOf(c, a).x == a.x
  {
    c.NegFlipsParity(a);
  }

  /** Lifting the x coordinate of a point gives back that point up to sign, with even y. */
  lemma XCoorRoundTrip(c: Curve, a: Point)
    requires c.Valid() && c.Finite(a)
    ensures ParseXCoor(c, XCoor(a)) == Ok(EvenOf(c, a))
  {
    hide Curve.OnCurve, Curve.Valid;
    FieldFits(c);
    FiniteBelowP(c, a);
    FromToBytes(a.x, 32);
    EvenOfIsEven(c, a);
    var e := EvenOf(c, a);
    c.FiniteHasNonzeroY(e);
    c.NegFlipsParity(e);
    assert c.Finite(Affine(a.x, e.y));
    var root := EvenRoot(c, a.x, 0);
    c.SameXUpToSign(Affine(a.x, root.value), e);
  }

  /** Lifting fails exactly when no finite point has this x coordinate, and otherwise has even y. */
  lemma LiftOutcome(c: Curve, s: seq<byte>)
    requires c.Valid() && |s| == 32
    ensures ParseXCoor(c, s).Ok? <==> exists a :: c.Finite(a) && a.x == FromBytes(s)
    ensures ParseXCoor(c, s).Ok? ==>
              var a := ParseXCoor(c, s).value;
              c.Finite(a) && a.x == FromBytes(s) && !c.OddY(a)
    ensures ParseXCoor(c, s).Ok? || ParseXCoor(c, s) == Err(XCoordinateNotExist)
  {
    hide Curve.Valid, Curve.OnCurve, FromBytes;
    forall a | c.Finite(a) && a.x == FromBytes(s)
      ensures ParseXCoor(c, s).Ok?
    {
      LiftsIfOnCurve(c, s, a);
    }
  }

  lemma LiftsIfOnCurve(c: Curve, s: seq<byte>, a: Point)
    requires c.Valid() && |s| == 32 && c.Finite(a) && a.x == FromBytes(s)
    ensures ParseXCoor(c, s).Ok?
  {
    hide Curve.Valid, FromBytes;
    EvenOfIsEven(c, a);
    var e := EvenOf(c, a);
    FiniteBelowP(c, e);
    hide Curve.OnCurve;
    assert e == Affine(FromBytes(s), e.y) && e.y % 2 == 0;
  }

  lemma FieldFits(c: Curve)
    requires c.Valid()
    ensures 2 < c.p <= Pow256(32) && 2 < c.q <= Pow256(32)
  {
  }

  lemma FiniteBelowP(c: Curve, a: Point)
    requires c.Finite(a)
    ensures a.x < c.p && a.y < c.p
  {
  }

  // ---- vectors of points ----

  function EncodeAll(v: seq<Point>): (s: seq<seq<byte>>)
    ensures |s| == |v|
    ensures forall i :: 0 <= i < |v| ==> s[i] == SerializePoint(v[i])
  {
    seq(|v|, i requires 0 <= i < |v| => SerializePoint(v[i]))
  }

  /** Unparsable entries are dropped; an entry of the wrong length panics. */
  function DecodeAll(c: Curve, s: seq<seq<byte>>): Outcome<seq<Point>> {
    if s == [] then Ok([])
    else if |s[0]| != 65 then Panic(SliceLengthMismatch)
    else
      var rest :- DecodeAll(c, s[1..]);
      match ParsePoint(c, s[0])
      case Ok(a) => Ok([a] + rest)
      case _ => Ok(rest)
  }

  lemma {:induction false} DecodeSnoc(c: Curve, s: seq<seq<byte>>, e: seq<byte>)
    ensures DecodeAll(c, s).IsFailure() ==> DecodeAll(c, s + [e]).Panic?
    ensures DecodeAll(c, s).Ok? && |e| != 65 ==> DecodeAll(c, s + [e]) == Panic(SliceLengthMismatch)
    ensures DecodeAll(c, s).Ok? && |e| == 65 && ParsePoint(c, e).Ok? ==>
              DecodeAll(c, s + [e]) == Ok(DecodeAll(c, s).value + [ParsePoint(c, e).value])
    ensures DecodeAll(c, s).Ok? && |e| == 65 && !ParsePoint(c, e).Ok? ==>
              DecodeAll(c, s + [e]) == DecodeAll(c, s)
  {
    if s == [] {
      assert s + [e] == [e];
      assert [e][1..] == [];
      if |e| == 65 && ParsePoint(c, e).Ok? {
        assert [ParsePoint(c, e).value] + [] == [] + [ParsePoint(c, e).value];
      }
    } else {
      assert (s + [e])[1..] == s[1..] + [e];
      DecodeSnoc(c, s[1..], e);
      if DecodeAll(c, s).Ok? && |e| == 65 && ParsePoint(c, e).Ok? && ParsePoint(c, s[0]).Ok? {
        var x, y := ParsePoint(c, s[0]).value, ParsePoint(c, e).value;
        assert [x] + (DecodeAll(c, s[1..]).value + [y]) == [x] + DecodeAll(c, s[1..]).value + [y];
      }
    }
  }

  lemma {:induction false} DecodePanics(c: Curve, s: seq<seq<byte>>, i: nat)
    requires i < |s| && |s[i]| != 65
    ensures DecodeAll(c, s) == Panic(SliceLengthMismatch)
  {
    if |s[0]| == 65 {
      DecodePanics(c, s[1..], i - 1);
    }
  }

  /** How many of the first i entries parse. */
  function Parsable(c: Curve, s: seq<seq<byte>>, i: nat): (k: nat)
    requires i <= |s| && forall j :: 0 <= j < |s| ==> |s[j]| == 65
    ensures k <= i
  {
    if i == 0 then 0 else Parsable(c, s, i - 1) + if ParsePoint(c, s[i - 1]).Ok? then 1 else 0
  }

  lemma {:induction false} ParsableMonotone(c: Curve, s: seq<seq<byte>>, i: nat, j: nat)
    requires i <= j <= |s| && forall k :: 0 <= k < |s| ==> |s[k]| == 65
    ensures Parsable(c, s, i) <= Parsable(c, s, j)
    ensures i < j && ParsePoint(c, s[i]).Ok? ==> Parsable(c, s, i) < Parsable(c, s, j)
  {
    if i == j {
    } else {
      ParsableMonotone(c, s, i, j - 1);
    }
  }

  lemma {:induction false} ParsableTail(c: Curve, s: seq<seq<byte>>, i: nat)
    requires 0 < i <= |s| && forall k :: 0 <= k < |s| ==> |s[k]| == 65
    ensures Parsable(c, s, i) == Parsable(c, s[1..], i - 1) + if ParsePoint(c, s[0]).Ok? then 1 else 0
  {
    if i == 1 {
    } else {
      ParsableTail(c, s, i - 1);
      assert s[1..][i - 2] == s[i - 1];
    }
  }

  /**
   Reading a list of points panics exactly when an entry is not 65 bytes. Otherwise each entry that
   parses is found behind those that parse before it, and there is nothing else.
   */
  lemma {:induction false} DecodedList(c: Curve, s: seq<seq<byte>>)
    ensures DecodeAll(c, s) == Panic(SliceLengthMismatch) <==> exists i :: 0 <= i < |s| && |s[i]| != 65
    ensures DecodeAll(c, s).Ok? || DecodeAll(c, s) == Panic(SliceLengthMismatch)
    ensures DecodeAll(c, s).Ok? ==>
              && (forall j :: 0 <= j < |s| ==> |s[j]| == 65)
              && |DecodeAll(c, s).value| == Parsable(c, s, |s|)
              && forall j :: 0 <= j < |s| && ParsePoint(c, s[j]).Ok? ==>
                               && Parsable(c, s, j) < |DecodeAll(c, s).value|
                               && DecodeAll(c, s).value[Parsable(c, s, j)] == ParsePoint(c, s[j]).value
  {
    if s == [] {
    } else {
      hide ParsePoint;
      var rest := s[1..];
      DecodedList(c, rest);
      assert forall i :: 1 <= i < |s| ==> s[i] == rest[i - 1];
      if DecodeAll(c, s).Ok? {
        ParsableTail(c, s, |s|);
        forall j | 0 <= j < |s| && ParsePoint(c, s[j]).Ok?
          ensures Parsable(c, s, j) < |DecodeAll(c, s).value|
          ensures DecodeAll(c, s).value[Parsable(c, s, j)] == ParsePoint(c, s[j]).value
        {
          if j > 0 {
            ParsableTail(c, s, j);
          }
        }
      }
    }
  }

  /** `convert_to_vec`. */
  method ConvertToVec(pks: seq<Point>) returns (vv: seq<seq<byte>>)
    ensures vv == EncodeAll(pks)
  {
    vv := [];
    for i := 0 to |pks|
      invariant vv == EncodeAll(pks)[..i]
    {
      vv := vv + [SerializePoint(pks[i])];
    }
  }

  /** `convert_from_vec`. */
  method ConvertFromVec(c: Curve, v: seq<seq<byte>>) returns (r: Outcome<seq<Point>>)
    ensures r == DecodeAll(c, v)
  {
    var pks := [];
    for i := 0 to |v|
      invariant DecodeAll(c, v[..i]) == Ok(pks)
    {
      DecodeSnoc(c, v[..i], v[i]);
      assert v[..i] + [v[i]] == v[..i + 1];
      if |v[i]| != 65 {
        DecodePanics(c, v, i);
        return Panic(SliceLengthMismatch);
      }
      var parsed := ParsePoint(c, v[i]);
      if parsed.Ok? {
        pks := pks + [parsed.value];
      }
    }
    assert v[..|v|] == v;
    return Ok(pks);
  }

  /** Vectors of finite points survive the wire, in length and order. */
  lemma {:induction false} VectorRoundTrip(c: Curve, v: seq<Point>)
    requires c.Valid() && forall i :: 0 <= i < |v| ==> c.Finite(v[i])
    ensures DecodeAll(c, EncodeAll(v)) == Ok(v)
  {
    if v == [] {
    } else {
      assert EncodeAll(v)[1..] == EncodeAll(v[1..]);
      VectorRoundTrip(c, v[1..]);
      PointRoundTrip(c, v[0]);
      assert v == [v[0]] + v[1..];
    }
  }
}
