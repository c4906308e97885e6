/**
 The assumptions collected in `Curve.Valid` can be met, by a curve on which signing works:
 y^2 = x^3 + 7 over the field of 43 elements has 31 points, whose chord-and-tangent addition is given
 here through discrete logarithms. Every hash has the value 2.
 */
module ToyCurve {
  import opened Arith
  import opened Curves

  const GENERATOR := Affine(2, 12)

  /** The multiples of the generator. */
  function PointOf(k: nat): Point
    requires k < 31
  {
    match k
    case 0 => Infinity
    case 1 => Affine(2, 12)
    case 2 => Affine(7, 7)
    case 3 => Affine(35, 21)
    case 4 => Affine(21, 18)
    case 5 => Affine(12, 12)
    case 6 => Affine(29, 31)
    case 7 => Affine(25, 18)
    case 8 => Affine(32, 40)
    case 9 => Affine(20, 40)
    case 10 => Affine(42, 7)
    case 11 => Affine(40, 25)
    case 12 => Affine(37, 36)
    case 13 => Affine(13, 21)
    case 14 => Affine(34, 40)
    case 15 => Affine(38, 21)
    case 16 => Affine(38, 22)
    case 17 => Affine(34, 3)
    case 18 => Affine(13, 22)
    case 19 => Affine(37, 7)
    case 20 => Affine(40, 18)
    case 21 => Affine(42, 36)
    case 22 => Affine(20, 3)
    case 23 => Affine(32, 3)
    case 24 => Affine(25, 25)
    case 25 => Affine(29, 12)
    case 26 => Affine(12, 31)
    case 27 => Affine(21, 25)
    case 28 => Affine(35, 22)
    case 29 => Affine(7, 36)
    case 30 => Affine(2, 31)
  }

  /** The smaller of the two logarithms of the points with this x coordinate; 0 if there are none. */
  function LogOfX(x: nat): (k: nat)
    ensures k < 16
  {
    match x
    case 2 => 1
    case 7 => 2
    case 12 => 5
    case 13 => 13
    case 20 => 9
    case 21 => 4
    case 25 => 7
    case 29 => 6
    case 32 => 8
    case 34 => 14
    case 35 => 3
    case 37 => 12
    case 38 => 15
    case 40 => 11
    case 42 => 10
    case _ => 0
  }

  function LogOf(a: Point): (k: nat)
    ensures k < 31
  {
    match a
    case Infinity => 0
    case Affine(x, y) =>
      var k := LogOfX(x);
      if k == 0 || PointOf(k) == a then k else 31 - k
  }

  function Plus(a: Point, b: Point): Point {
    PointOf((LogOf(a) + LogOf(b)) % 31)
  }

  function TwoHash(data: seq<byte>): (digest: seq<byte>)
    ensures |digest| == 32
  {
    ToBytes(2, 32)
  }

  function Toy(): Curve {
    Curve(43, 31, GENERATOR, (a, b) => Plus(a, b), data => TwoHash(data))
  }

  // ---- the field and the scalars ----

  function Inverse43(r: nat): nat {
    match r
    case 1 => 1 case 2 => 22 case 3 => 29 case 4 => 11 case 5 => 26 case 6 => 36
    case 7 => 37 case 8 => 27 case 9 => 24 case 10 => 13 case 11 => 4 case 12 => 18
    case 13 => 10 case 14 => 40 case 15 => 23 case 16 => 35 case 17 => 38 case 18 => 12
    case 19 => 34 case 20 => 28 case 21 => 41 case 22 => 2 case 23 => 15 case 24 => 9
    case 25 => 31 case 26 => 5 case 27 => 8 case 28 => 20 case 29 => 3 case 30 => 33
    case 31 => 25 case 32 => 39 case 33 => 30 case 34 => 19 case 35 => 16 case 36 => 6
    case 37 => 7 case 38 => 17 case 39 => 32 case 40 => 14 case 41 => 21 case 42 => 42
    case _ => 0
  }

  function Inverse31(r: nat): nat {
    match r
    case 1 => 1 case 2 => 16 case 3 => 21 case 4 => 8 case 5 => 25 case 6 => 26
    case 7 => 9 case 8 => 4 case 9 => 7 case 10 => 28 case 11 => 17 case 12 => 13
    case 13 => 12 case 14 => 20 case 15 => 29 case 16 => 2 case 17 => 11 case 18 => 19
    case 19 => 18 case 20 => 14 case 21 => 3 case 22 => 24 case 23 => 27 case 24 => 22
    case 25 => 5 case 26 => 6 case 27 => 23 case 28 => 10 case 29 => 15 case 30 => 30
    case _ => 0
  }

  lemma InverseOf43Low(r: nat)
    requires 0 < r < 22
    ensures (r * Inverse43(r)) % 43 == 1
  {
    match r
    case 1 => case 2 => case 3 => case 4 => case 5 => case 6 => case 7 => case 8 =>
    case 9 => case 10 => case 11 => case 12 => case 13 => case 14 => case 15 => case 16 =>
    case 17 => case 18 => case 19 => case 20 => case 21 =>
  }

  lemma InverseOf43High(r: nat)
    requires 22 <= r < 43
    ensures (r * Inverse43(r)) % 43 == 1
  {
    match r
    case 22 => case 23 => case 24 => case 25 => case 26 => case 27 => case 28 => case 29 =>
    case 30 => case 31 => case 32 => case 33 => case 34 => case 35 => case 36 => case 37 =>
    case 38 => case 39 => case 40 => case 41 => case 42 =>
  }

  lemma InverseOf31Low(r: nat)
    requires 0 < r < 16
    ensures (r * Inverse31(r)) % 31 == 1
  {
    match r
    case 1 => case 2 => case 3 => case 4 => case 5 => case 6 => case 7 => case 8 =>
    case 9 => case 10 => case 11 => case 12 => case 13 => case 14 => case 15 =>
  }

  lemma InverseOf31High(r: nat)
    requires 16 <= r < 31
    ensures (r * Inverse31(r)) % 31 == 1
  {
    match r
    case 16 => case 17 => case 18 => case 19 => case 20 => case 21 => case 22 => case 23 =>
    case 24 => case 25 => case 26 => case 27 => case 28 => case 29 => case 30 =>
  }

  lemma NoZeroDivisors(p: nat, r: nat, inverse: nat, s: nat)
    requires p > 1 && (r * inverse) % p == 1 && (r * s) % p == 0
    ensures s % p == 0
  {
    ModUnique(1, 0, 1, p);
    ModUnique(0, 0, 0, p);
    CongMul(r * s, 0, inverse, inverse, p);
    CongMul(r * inverse, 1, s, s, p);
    assert r * s * inverse == r * inverse * s;
  }

  lemma PrimeByInverses(p: nat)
    requires p == 31 || p == 43
    ensures Prime(p)
  {
    forall a: nat, b: nat | Divides(p, a * b)
      ensures Divides(p, a) || Divides(p, b)
    {
      var r := a % p;
      CongReduce(a, p);
      CongMul(r, a, b, b, p);
      if r != 0 {
        if p == 31 {
          hide Inverse31;
          if r < 16 {
            InverseOf31Low(r);
          } else {
            InverseOf31High(r);
          }
          NoZeroDivisors(31, r, Inverse31(r), b);
        } else {
          hide Inverse43;
          if r < 22 {
            InverseOf43Low(r);
          } else {
            InverseOf43High(r);
          }
          NoZeroDivisors(43, r, Inverse43(r), b);
        }
      }
    }
  }

  predicate IsSquare43(v: nat) {
    match v
    case 0 => true case 1 => true case 4 => true case 6 => true case 9 => true case 10 => true
    case 11 => true case 13 => true case 14 => true case 15 => true case 16 => true case 17 => true
    case 21 => true case 23 => true case 24 => true case 25 => true case 31 => true case 35 => true
    case 36 => true case 38 => true case 40 => true case 41 => true
    case _ => false
  }

  lemma SquareLow(y: nat)
    requires y < 22
    ensures IsSquare43((y * y) % 43)
  {
    match y
    case 0 => case 1 => case 2 => case 3 => case 4 => case 5 => case 6 => case 7 =>
    case 8 => case 9 => case 10 => case 11 => case 12 => case 13 => case 14 => case 15 =>
    case 16 => case 17 => case 18 => case 19 => case 20 => case 21 =>
  }

  lemma SquareIsListed(y: nat)
    requires y < 43
    ensures IsSquare43((y * y) % 43)
  {
    if y < 22 {
      SquareLow(y);
    } else {
      SquareOfComplement(y, 43);
      SquareLow(43 - y);
    }
  }

  /** Where the table has no point, x^3 + 7 is not a square. */
  lemma NoOtherXLow(x: nat)
    requires x < 22 && LogOfX(x) == 0
    ensures !IsSquare43((x * x * x + 7) % 43)
  {
    match x
    case 0 => case 1 => case 3 => case 4 => case 5 => case 6 => case 8 => case 9 =>
    case 10 => case 11 => case 14 => case 15 => case 16 => case 17 => case 18 => case 19 =>
    case _ =>
  }

  lemma NoOtherXHigh(x: nat)
    requires 22 <= x < 43 && LogOfX(x) == 0
    ensures !IsSquare43((x * x * x + 7) % 43)
  {
    match x
    case 22 => case 23 => case 24 => case 26 => case 27 => case 28 => case 30 => case 31 =>
    case 33 => case 36 => case 39 => case 41 =>
    case _ =>
  }

  // ---- the table ----

  lemma TableOnCurveLow(k: nat)
    requires k < 16
    ensures Toy().OnCurve(PointOf(k))
  {
    match k
    case 0 =>
    case 1 => assert 12 * 12 % 43 == (2 * 2 * 2 + 7) % 43;
    case 2 => assert 7 * 7 % 43 == (7 * 7 * 7 + 7) % 43;
    case 3 => assert 21 * 21 % 43 == (35 * 35 * 35 + 7) % 43;
    case 4 => assert 18 * 18 % 43 == (21 * 21 * 21 + 7) % 43;
    case 5 => assert 12 * 12 % 43 == (12 * 12 * 12 + 7) % 43;
    case 6 => assert 31 * 31 % 43 == (29 * 29 * 29 + 7) % 43;
    case 7 => assert 18 * 18 % 43 == (25 * 25 * 25 + 7) % 43;
    case 8 => assert 40 * 40 % 43 == (32 * 32 * 32 + 7) % 43;
    case 9 => assert 40 * 40 % 43 == (20 * 20 * 20 + 7) % 43;
    case 10 => assert 7 * 7 % 43 == (42 * 42 * 42 + 7) % 43;
    case 11 => assert 25 * 25 % 43 == (40 * 40 * 40 + 7) % 43;
    case 12 => assert 36 * 36 % 43 == (37 * 37 * 37 + 7) % 43;
    case 13 => assert 21 * 21 % 43 == (13 * 13 * 13 + 7) % 43;
    case 14 => assert 40 * 40 % 43 == (34 * 34 * 34 + 7) % 43;
    case 15 => assert 21 * 21 % 43 == (38 * 38 * 38 + 7) % 43;
  }

  lemma TableOnCurve(k: nat)
    requires k < 31
    ensures Toy().OnCurve(PointOf(k))
  {
    if k < 16 {
      TableOnCurveLow(k);
    } else {
      TableOnCurveLow(31 - k);
      TableMirror(31 - k);
      var y := PointOf(31 - k).y;
      hide PointOf;
      SquareOfComplement(y, 43);
    }
  }

  lemma TableLog(k: nat)
    requires k < 31
    ensures LogOf(PointOf(k)) == k
  {
    match k
    case 0 => case 1 => case 2 => case 3 => case 4 => case 5 => case 6 => case 7 =>
    case 8 => case 9 => case 10 => case 11 => case 12 => case 13 => case 14 => case 15 =>
    case 16 => case 17 => case 18 => case 19 => case 20 => case 21 => case 22 => case 23 =>
    case 24 => case 25 => case 26 => case 27 => case 28 => case 29 => case 30 =>
  }

  /** The table is symmetric: opposite points have opposite logarithms. */
  lemma TableMirror(k: nat)
    requires 1 <= k < 16
    ensures var a, b := PointOf(k), PointOf(31 - k);
            a.Affine? && b.Affine? && a.x == b.x && 0 < a.y < 43 && b.y == 43 - a.y
  {
    match k
    case 1 => case 2 => case 3 => case 4 => case 5 => case 6 => case 7 => case 8 =>
    case 9 => case 10 => case 11 => case 12 => case 13 => case 14 => case 15 =>
  }

  lemma TableNeg(k: nat)
    requires k < 31
    ensures Toy().Neg(PointOf(k)) == PointOf((31 - k) % 31)
  {
    if 0 < k < 16 {
      TableMirror(k);
    } else if k >= 16 {
      TableMirror(31 - k);
    }
    assert (31 - k) % 31 == if k == 0 then 0 else 31 - k;
    hide PointOf;
  }

  lemma XListed(x: nat)
    requires LogOfX(x) > 0
    ensures PointOf(LogOfX(x)).Affine? && PointOf(LogOfX(x)).x == x && 0 < PointOf(LogOfX(x)).y < 43
  {
  }
  /** Every point of the curve is in the table. */
  lemma PointsAreListed(a: Point)
    requires Toy().OnCurve(a)
    ensures a == PointOf(LogOf(a))
  {
    if a.Affine? {
      NoOtherX(a.x, a.y);
      var k := LogOfX(a.x);
      XListed(a.x);
      TableOnCurve(k);
      TableMirror(k);
      PrimeByInverses(43);
      var y, z := a.y, PointOf(k).y;
      hide PointOf, LogOfX;
      if y >= z {
        Toy().RootsUpToSign(y, z);
      } else {
        Toy().RootsUpToSign(z, y);
      }
    }
  }

  lemma NoOtherX(x: nat, y: nat)
    requires Toy().OnCurve(Affine(x, y))
    ensures LogOfX(x) > 0
  {
    SquareIsListed(y);
    if LogOfX(x) == 0 {
      if x < 22 {
        NoOtherXLow(x);
      } else {
        NoOtherXHigh(x);
      }
    }
  }

  // ---- the group ----

  lemma PlusTable(j: nat, k: nat)
    requires j < 31 && k < 31
    ensures Toy().plus(PointOf(j), PointOf(k)) == PointOf((j + k) % 31)
  {
    hide PointOf, LogOf, Curve.OnCurve;
    TableLog(j);
    TableLog(k);
  }

  lemma {:induction false} ExpIsTable(k: nat)
    ensures Toy().Exp(k) == PointOf(k % 31)
  {
    TableEnds();
    hide PointOf, LogOf, Curve.OnCurve, Plus;
    if k == 0 {
    } else {
      ExpIsTable(k - 1);
      PlusTable(1, (k - 1) % 31);
    }
  }

  lemma PlusAssociative(i: nat, j: nat, k: nat)
    requires i < 31 && j < 31 && k < 31
    ensures ((i + j) % 31 + k) % 31 == (i + (j + k) % 31) % 31
  {
  }

  lemma ToyClosed(a: Point, b: Point)
    ensures Toy().OnCurve(Toy().plus(a, b))
  {
    var k := (LogOf(a) + LogOf(b)) % 31;
    assert Toy().plus(a, b) == PointOf(k);
    hide PointOf, LogOf, Curve.OnCurve;
    TableOnCurve(k);
  }

  lemma PlusIs(a: Point, b: Point)
    ensures Plus(a, b) == PointOf((LogOf(a) + LogOf(b)) % 31)
  {
    hide PointOf, LogOf;
  }

  lemma PlusLog(a: Point, b: Point)
    ensures LogOf(Plus(a, b)) == (LogOf(a) + LogOf(b)) % 31
  {
    var k := (LogOf(a) + LogOf(b)) % 31;
    assert Plus(a, b) == PointOf(k);
    hide *;
    TableLog(k);
  }

  lemma ToyAssociative(a: Point, b: Point, d: Point)
    ensures Plus(Plus(a, b), d) == Plus(a, Plus(b, d))
  {
    hide *;
    PlusLog(a, b);
    PlusLog(b, d);
    PlusAssociative(LogOf(a), LogOf(b), LogOf(d));
    PlusIs(Plus(a, b), d);
    PlusIs(a, Plus(b, d));
  }

  lemma ToyIdentity(a: Point)
    requires Toy().OnCurve(a)
    ensures Toy().plus(Infinity, a) == a && Toy().plus(a, Infinity) == a
  {
    hide *;
    var k := LogOf(a);
    PointsAreListed(a);
    TableEnds();
    PlusTable(0, k);
    PlusTable(k, 0);
    assert (0 + k) % 31 == k && (k + 0) % 31 == k;
  }

  lemma TableEnds()
    ensures PointOf(0) == Infinity && PointOf(1) == GENERATOR
  {
  }

  lemma ToyInverse(a: Point)
    requires Toy().OnCurve(a)
    ensures Toy().plus(a, Toy().Neg(a)) == Infinity
  {
    hide *;
    var k := LogOf(a);
    PointsAreListed(a);
    TableNeg(k);
    TableEnds();
    PlusTable(k, (31 - k) % 31);
    assert (k + (31 - k) % 31) % 31 == 0;
  }

  lemma {:induction false} Pow256AtLeast(k: nat)
    requires k > 0
    ensures Pow256(k) >= 256
  {
    if k == 1 {
      assert Pow256(1) == 256 * Pow256(0);
    } else {
      Pow256AtLeast(k - 1);
    }
  }

  lemma TableNonzero(k: nat)
    requires 0 < k < 31
    ensures PointOf(k) != Infinity
  {
    TableLog(k);
    assert LogOf(Infinity) == 0;
    hide PointOf;
  }

  lemma ToyOrder()
    ensures Toy().Exp(31) == Infinity
    ensures forall k: nat :: 0 < k < 31 ==> Toy().Exp(k) != Infinity
  {
    TableEnds();
    hide Curve.Mul, PointOf;
    ExpIsTable(31);
    forall k: nat | 0 < k < 31
      ensures Toy().Exp(k) != Infinity
    {
      ExpIsTable(k);
      TableNonzero(k);
    }
  }

  lemma ToyCyclic(a: Point)
    requires Toy().OnCurve(a)
    ensures Toy().Exp(LogOf(a)) == a
  {
    hide *;
    PointsAreListed(a);
    ExpIsTable(LogOf(a));
    var k := LogOf(a);
    assert k % 31 == k;
  }

  lemma ToyGroupLaws()
    ensures Toy().GroupLaws()
  {
    var c := Toy();
    assert forall a, b :: c.plus(a, b) == Plus(a, b);
    hide Curve.OnCurve, PointOf, LogOf, Plus, Curve.Neg;
    forall a, b {:trigger c.plus(a, b)} | c.OnCurve(a) && c.OnCurve(b)
      ensures c.OnCurve(c.plus(a, b))
    {
      ToyClosed(a, b);
    }
    forall a, b, d {:trigger c.Triple(a, b, d)} | c.Triple(a, b, d)
      ensures c.plus(c.plus(a, b), d) == c.plus(a, c.plus(b, d))
    {
      ToyAssociative(a, b, d);
    }
    forall a | c.OnCurve(a)
      ensures c.plus(Infinity, a) == a && c.plus(a, Infinity) == a && c.plus(a, c.Neg(a)) == Infinity
    {
      ToyIdentity(a);
      ToyInverse(a);
    }
  }

  lemma ToyGenerated()
    ensures Toy().GeneratedByG()
  {
    TableEnds();
    TableOnCurve(1);
    ToyOrder();
    hide Curve.OnCurve, Curve.Mul, PointOf, LogOf, Plus;
    forall a | Toy().OnCurve(a)
      ensures Toy().HasLog(a)
    {
      ToyCyclic(a);
    }
  }

  /** The assumptions are satisfiable. */
  lemma ToyIsValid()
    ensures Toy().Valid()
  {
    Pow256AtLeast(32);
    PrimeByInverses(31);
    PrimeByInverses(43);
    ToyGroupLaws();
    ToyGenerated();
    forall law
      ensures Toy().Holds(law)
    {
    }
  }
}
