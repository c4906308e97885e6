/**
 The elliptic-curve group the protocol runs over, y^2 = x^3 + 7 over the field of p elements, with
 the addition law and the tagged hash as parameters. `Valid` lists what is assumed of them: the
 points form a cyclic group of odd prime order q generated by g, and hashes are 32 bytes.
 Everything else (negation, parity, x coordinates, scalar multiples) is defined and proved here.
 */
module Curves {
  import opened Arith

  datatype Point = Infinity | Affine(x: nat, y: nat)

  /** The laws assumed of a curve. */
  datatype Law = Primality | Addition | Generation | Digests

  /** Always true. The laws are stated under it, so that proofs unfold only those they appeal to. */
  ghost predicate Appeal(law: Law) {
    true
  }

  datatype Curve = Curve(p: nat, q: nat, g: Point, plus: (Point, Point) -> Point,
                         hash: seq<byte> -> seq<byte>)
  {
    predicate OnCurve(a: Point) {
      match a
      case Infinity => true
      case Affine(x, y) => p > 0 && x < p && y < p && (y * y) % p == (x * x * x + 7) % p
    }

    /** `Affine::is_valid_var`. */
    predicate Finite(a: Point) {
      a.Affine? && OnCurve(a)
    }

    /** `Affine::neg`. */
    function Neg(a: Point): Point {
      match a
      case Infinity => Infinity
      case Affine(x, y) => Affine(x, if 0 < y < p then p - y else 0)
    }

    /** k-fold sum of a; the specification of libsecp256k1's `ecmult`. */
    function Mul(k: nat, a: Point): Point {
      if k == 0 then Infinity else plus(a, Mul(k - 1, a))
    }

    /** `ecmult_gen`: the public point of a secret scalar. */
    function Exp(k: nat): Point {
      Mul(k, g)
    }

    ghost predicate Valid() {
      && 2 < p <= Pow256(32) && 2 < q <= Pow256(32)
      && (forall law {:trigger Appeal(law)} :: Appeal(law) ==> Holds(law))
    }

    ghost predicate Holds(law: Law) {
      match law
      case Primality => Prime(p) && Prime(q)
      case Addition => GroupLaws()
      case Generation => GeneratedByG()
      case Digests => forall d :: |hash(d)| == 32
    }

    ghost predicate GroupLaws() {
      && (forall a, b {:trigger plus(a, b)} :: OnCurve(a) && OnCurve(b) ==> OnCurve(plus(a, b)))
      && (forall a, b, d {:trigger Triple(a, b, d)} :: Triple(a, b, d) ==>
                                                         plus(plus(a, b), d) == plus(a, plus(b, d)))
      && (forall a {:trigger plus(Infinity, a)}{:trigger plus(a, Infinity)} ::
            OnCurve(a) ==> plus(Infinity, a) == a && plus(a, Infinity) == a)
      && (forall a {:trigger Neg(a)} :: OnCurve(a) ==> plus(a, Neg(a)) == Infinity)
    }

    /** The order of g is exactly q, and every curve point is a multiple of g. */
    ghost predicate GeneratedByG() {
      && OnCurve(g)
      && Exp(q) == Infinity
      && (forall k: nat :: 0 < k < q ==> Exp(k) != Infinity)
      && (forall a {:trigger HasLog(a)} :: OnCurve(a) ==> HasLog(a))
    }

    /** Holds of any three curve points; names the instances at which associativity is used. */
    ghost predicate Triple(a: Point, b: Point, d: Point) {
      OnCurve(a) && OnCurve(b) && OnCurve(d)
    }

    ghost predicate HasLog(a: Point) {
      exists k: nat :: Exp(k) == a
    }

    // ---- the homomorphism from scalars to points ----

    lemma {:induction false} ExpOnCurve(k: nat)
      requires Valid()
      ensures OnCurve(Exp(k))
    {
      assert Appeal(Addition);
      assert Appeal(Generation);
      if k == 0 {
      } else {
        ExpOnCurve(k - 1);
      }
    }

    lemma {:induction false} ExpAdd(j: nat, k: nat)
      requires Valid()
      ensures Exp(j + k) == plus(Exp(j), Exp(k))
    {
      assert Appeal(Addition);
      assert Appeal(Generation);
      ExpOnCurve(k);
      if j == 0 {
      } else {
        ExpAdd(j - 1, k);
        ExpOnCurve(j - 1);
        assert Triple(g, Exp(j - 1), Exp(k));
      }
    }

    lemma {:induction false} ExpMul(j: nat, k: nat)
      requires Valid()
      ensures Mul(j, Exp(k)) == Exp(j * k)
    {
      hide OnCurve, Prime;
      if j == 0 {
      } else {
        ExpMul(j - 1, k);
        var n := MulSplit(j, k);
        ExpAdd(k, n);
      }
    }

    lemma {:induction false} ExpMultipleOfOrder(m: nat, k: nat)
      requires Valid() && k == m * q
      ensures Exp(k) == Infinity
    {
      assert Appeal(Addition);
      assert Appeal(Generation);
      hide OnCurve, Prime;
      if m == 0 {
      } else {
        var n := MulSplit(m, q);
        ExpMultipleOfOrder(m - 1, n);
        ExpOnCurve(q);
        ExpAdd(q, n);
      }
    }

    /** Points depend on scalars only modulo the group order. */
    lemma ExpReduce(k: nat)
      requires Valid()
      ensures Exp(k) == Exp(k % q)
    {
      assert Appeal(Addition);
      var d, r := DivMod(k, q);
      ExpMultipleOfOrder(d, d * q);
      ExpOnCurve(r);
      ExpAdd(d * q, r);
    }

    lemma ExpIsInfinity(k: nat)
      requires Valid()
      ensures Exp(k) == Infinity <==> k % q == 0
    {
      assert Appeal(Generation);
      ExpReduce(k);
    }

    lemma ExpInjective(j: nat, k: nat)
      requires Valid()
      ensures Exp(j) == Exp(k) <==> Cong(j, k, q)
    {
      if Exp(j) == Exp(k) {
        var m := Complement(k, q);
        ExpAdd(j, m);
        ExpAdd(k, m);
        ExpIsInfinity(k + m);
        ExpIsInfinity(j + m);
        CongCancel(j, k, m, q);
      }
      if Cong(j, k, q) {
        ExpReduce(j);
        ExpReduce(k);
      }
    }

    /** A discrete logarithm; it exists because the group is cyclic. */
    ghost function Log(a: Point): (k: nat)
      requires Valid() && OnCurve(a)
      ensures Exp(k) == a
    {
      assert Appeal(Generation);
      assert HasLog(a);
      var k: nat :| Exp(k) == a;
      k
    }

    lemma NegOnCurve(a: Point)
      requires Valid() && OnCurve(a)
      ensures OnCurve(Neg(a))
    {
      if a.Affine? && a.y > 0 {
        SquareOfComplement(a.y, p);
      }
    }

    lemma NegExp(k: nat)
      requires Valid()
      ensures Neg(Exp(k)) == Exp(q - k % q)
    {
      assert Appeal(Addition);
      hide OnCurve;
      var m := Complement(k, q);
      var a, b := Exp(k), Exp(m);
      ExpOnCurve(k);
      ExpOnCurve(m);
      NegOnCurve(a);
      ExpAdd(m, k);
      ExpIsInfinity(m + k);
      assert Triple(b, a, Neg(a));
    }

    // ---- parity and x coordinates ----

    /** In a group of odd order no point is its own negative, so no finite point has y = 0. */
    lemma FiniteHasNonzeroY(a: Point)
      requires Valid() && Finite(a)
      ensures 0 < a.y < p
    {
      assert Appeal(Primality);
      assert Appeal(Addition);
      if a.y == 0 {
        var k := Log(a);
        assert Neg(a) == a;
        ExpAdd(k, k);
        ExpIsInfinity(2 * k);
        assert Exp(k + k) == Exp(2 * k);
        PrimeDivides(q, 2, k);
        ModUnique(2, 0, 2, q);
        ExpIsInfinity(k);
      }
    }

    /** `is_odd_y`. */
    predicate OddY(a: Point) {
      a.Affine? && a.y % 2 == 1
    }

    /** Negation keeps x and flips the parity of y. */
    lemma NegFlipsParity(a: Point)
      requires Valid() && Finite(a)
      ensures Finite(Neg(a)) && Neg(a).x == a.x && OddY(Neg(a)) == !OddY(a)
    {
      assert Appeal(Primality);
      hide OnCurve;
      FiniteHasNonzeroY(a);
      NegOnCurve(a);
      PrimeIsOdd(p);
      ParityFlip(a.y, p);
    }

    /** Two finite points with one x coordinate are equal or opposite. */
    lemma SameXUpToSign(a: Point, b: Point)
      requires Valid() && Finite(a) && Finite(b) && a.x == b.x
      ensures a == b || a == Neg(b)
    {
      assert Appeal(Primality);
      FiniteHasNonzeroY(b);
      if a.y >= b.y {
        RootsUpToSign(a.y, b.y);
      } else {
        RootsUpToSign(b.y, a.y);
        FiniteHasNonzeroY(a);
      }
    }

    lemma RootsUpToSign(y: nat, z: nat)
      requires p > 2 && Prime(p) && z <= y < p && (y * y) % p == (z * z) % p
      ensures y == z || y + z == p || y + z == 0
    {
      DifferenceOfSquares(y, z, p);
      PrimeDivides(p, y - z, y + z);
      if (y - z) % p == 0 {
        ModUnique(y - z, 0, y - z, p);
      } else if y + z < p {
        ModUnique(y + z, 0, y + z, p);
      } else {
        ModUnique(y + z, 1, y + z - p, p);
      }
    }

    /** A nonzero multiple of a finite point is finite: the order is prime. */
    lemma MulFinite(k: nat, a: Point)
      requires Valid() && Finite(a) && 0 < k < q
      ensures Finite(Mul(k, a))
    {
      assert Appeal(Primality);
      var l := Log(a);
      ExpMul(k, l);
      ExpOnCurve(k * l);
      ExpIsInfinity(k * l);
      ExpIsInfinity(l);
      if (k * l) % q == 0 {
        PrimeDivides(q, k, l);
        ModUnique(k, 0, k, q);
      }
    }
  }
}
