/** Modular arithmetic, sums over sequences, and big-endian encodings. */
module Arith {

  // ---- congruences ----

  ghost predicate Cong(a: int, b: int, q: int)
    requires q > 0
  {
    a % q == b % q
  }

  lemma ModStep(a: int, k: int, q: int)
    requires q > 0
    ensures (a + k * q) % q == a % q
  {
    var d, r := a / q, a % q;
    assert a + k * q == (d + k) * q + r;
    ModUnique(a + k * q, d + k, r, q);
  }

  lemma MulAtLeast(d: int, q: int)
    requires q > 0 && d >= 1
    ensures d * q >= q
  {
    assert (d - 1) * q >= 0;
    assert d * q == (d - 1) * q + q;
  }

  lemma MulNat(a: nat, b: nat)
    ensures a * b >= 0
  {
  }

  lemma ModUnique(a: int, d: int, r: int, q: int)
    requires q > 0 && 0 <= r < q && a == d * q + r
    ensures a % q == r && a / q == d
  {
    var d', r' := a / q, a % q;
    var e := d - d';
    assert e * q == d * q - d' * q;
    assert e * q == r' - r;
    if e >= 1 {
      MulAtLeast(e, q);
    } else if e <= -1 {
      MulAtLeast(-e, q);
    } else {
      assert e == 0;
    }
  }

  lemma DivMod(a: nat, q: nat) returns (d: nat, r: nat)
    requires q > 0
    ensures a == d * q + r && r == a % q && r < q && d == a / q
  {
    d, r := a / q, a % q;
  }

  /** a plus the distance of its residue to q is a multiple of q. */
  lemma Complement(a: nat, q: nat) returns (m: nat)
    requires q > 0
    ensures m == q - a % q && 0 < m && (a + m) % q == 0 && (m + a) % q == 0
  {
    var d, r := DivMod(a, q);
    m := q - r;
    assert (d + 1) * q == d * q + q;
    ModUnique(a + m, d + 1, 0, q);
  }

  lemma CongCancel(a: int, b: int, m: int, q: int)
    requires q > 0 && Cong(a + m, b + m, q)
    ensures Cong(a, b, q)
  {
    CongAdd(a + m, b + m, -m, -m, q);
  }

  /** (n - y)^2 and y^2 agree modulo n. */
  lemma SquareOfComplement(y: int, n: int)
    requires n > 0
    ensures ((n - y) * (n - y)) % n == (y * y) % n
  {
    assert (n - y) * (n - y) == n * n - 2 * y * n + y * y;
    assert (n - 2 * y) * n == n * n - 2 * y * n;
    ModStep(y * y, n - 2 * y, n);
  }

  lemma MulSplit(m: nat, q: nat) returns (n: nat)
    requires m > 0
    ensures n == (m - 1) * q && m * q == q + n
  {
    n := (m - 1) * q;
    assert m * q == (m - 1) * q + 1 * q;
  }

  lemma DifferenceOfSquares(y: nat, z: nat, p: nat)
    requires p > 0 && z <= y && (y * y) % p == (z * z) % p
    ensures ((y - z) * (y + z)) % p == 0
  {
    var k := CongWitness(y * y, z * z, p);
    assert (y - z) * (y + z) == y * y - z * z;
    ModUnique((y - z) * (y + z), k, 0, p);
  }

  lemma CongWitness(a: int, b: int, q: int) returns (k: int)
    requires q > 0 && Cong(a, b, q)
    ensures a == b + k * q
  {
    k := a / q - b / q;
    assert a == (a / q) * q + a % q;
    assert b == (b / q) * q + b % q;
  }

  lemma CongAdd(a: int, a': int, b: int, b': int, q: int)
    requires q > 0 && Cong(a, a', q) && Cong(b, b', q)
    ensures Cong(a + b, a' + b', q)
  {
    var k := CongWitness(a, a', q);
    var l := CongWitness(b, b', q);
    assert a + b == (a' + b') + (k + l) * q;
    ModStep(a' + b', k + l, q);
  }

  lemma CongMul(a: int, a': int, b: int, b': int, q: int)
    requires q > 0 && Cong(a, a', q) && Cong(b, b', q)
    ensures Cong(a * b, a' * b', q)
  {
    var k := CongWitness(a, a', q);
    var l := CongWitness(b, b', q);
    MulExpand(a', b', k, l, q);
    ModStep(a' * b', k * b' + a' * l + k * l * q, q);
  }

  lemma MulExpand(a': int, b': int, k: int, l: int, q: int)
    ensures (a' + k * q) * (b' + l * q) == a' * b' + (k * b' + a' * l + k * l * q) * q
  {
    calc {
      (a' + k * q) * (b' + l * q);
      a' * (b' + l * q) + (k * q) * (b' + l * q);
      a' * b' + a' * (l * q) + (k * q) * b' + (k * q) * (l * q);
      {
        assert a' * (l * q) == (a' * l) * q;
        assert (k * q) * b' == (k * b') * q;
        assert (k * q) * (l * q) == (k * l * q) * q;
      }
      a' * b' + (a' * l) * q + (k * b') * q + (k * l * q) * q;
      a' * b' + (k * b' + a' * l + k * l * q) * q;
    }
  }

  lemma CongReduce(a: int, q: int)
    requires q > 0
    ensures Cong(a % q, a, q)
  {
    assert a == (a / q) * q + a % q;
    ModStep(a % q, a / q, q);
  }

  /** `Scalar::neg`: the representative of -a. */
  lemma CongNeg(a: int, q: int)
    requires 0 <= a < q
    ensures Cong((q - a) % q, -a, q)
  {
    CongReduce(q - a, q);
    ModStep(-a, 1, q);
  }

  // ---- primes, by Euclid's property ----

  ghost predicate Divides(p: nat, n: nat) {
    p > 0 && n % p == 0
  }

  ghost predicate Prime(p: nat) {
    p > 1 && forall a: nat, b: nat {:trigger Divides(p, a), Divides(p, b)} ::
      Divides(p, a * b) ==> Divides(p, a) || Divides(p, b)
  }

  lemma PrimeIsOdd(p: nat)
    requires Prime(p) && p > 2
    ensures p % 2 == 1
  {
    if p % 2 == 0 {
      var h := p / 2;
      ModUnique(2 * h, 1, 0, p);
      ModUnique(2, 0, 2, p);
      ModUnique(h, 0, h, p);
      PrimeDivides(p, 2, h);
    }
  }

  lemma ParityFlip(y: nat, p: nat)
    requires y < p && p % 2 == 1
    ensures (p - y) % 2 == 1 <==> y % 2 == 0
  {
  }

  lemma PrimeDivides(p: nat, a: nat, b: nat)
    requires Prime(p) && (a * b) % p == 0
    ensures a % p == 0 || b % p == 0
  {
    assert Divides(p, a * b);
    assert Divides(p, a) || Divides(p, b);
  }

  // ---- sums ----

  function Sum(s: seq<nat>): nat {
    if s == [] then 0 else s[0] + Sum(s[1..])
  }

  function RemoveAt<T>(s: seq<T>, i: nat): (r: seq<T>)
    requires i < |s|
    ensures |r| == |s| - 1
  {
    s[..i] + s[i + 1..]
  }

  lemma {:induction false} SumAppend(s: seq<nat>, t: seq<nat>)
    ensures Sum(s + t) == Sum(s) + Sum(t)
  {
    if s == [] {
      assert s + t == t;
    } else {
      assert (s + t)[1..] == s[1..] + t;
      SumAppend(s[1..], t);
    }
  }

  lemma SumRemove(s: seq<nat>, i: nat)
    requires i < |s|
    ensures s[i] + Sum(RemoveAt(s, i)) == Sum(s)
  {
    SumAppend(s[..i], s[i + 1..]);
    SumAppend(s[..i], s[i..]);
    assert s == s[..i] + s[i..];
  }

  /** Finds the head of one sequence in a permutation of it, leaving permutations. */
  lemma Peel<T>(s: seq<T>, t: seq<T>) returns (i: nat)
    requires s != [] && multiset(s) == multiset(t)
    ensures i < |t| && t[i] == s[0] && multiset(s[1..]) == multiset(RemoveAt(t, i))
  {
    assert s[0] in multiset(t);
    i :| 0 <= i < |t| && t[i] == s[0];
    assert t == t[..i] + [t[i]] + t[i + 1..];
    assert s == [s[0]] + s[1..];
    assert multiset(s[1..]) == multiset(s) - multiset{s[0]};
    assert multiset(RemoveAt(t, i)) == multiset(t) - multiset{t[i]};
  }

  /** Putting the removed element in front is a permutation. */
  lemma RemovePermutes<T>(t: seq<T>, i: nat)
    requires i < |t|
    ensures multiset([t[i]] + RemoveAt(t, i)) == multiset(t)
  {
    assert t == t[..i] + [t[i]] + t[i + 1..];
  }

  /** A sum depends only on which values occur and how often, not on their order. */
  lemma {:induction false} SumPermutation(s: seq<nat>, t: seq<nat>)
    requires multiset(s) == multiset(t)
    ensures Sum(s) == Sum(t)
  {
    if s == [] {
      assert |multiset(t)| == 0;
    } else {
      var i := Peel(s, t);
      SumRemove(t, i);
      SumPermutation(s[1..], RemoveAt(t, i));
    }
  }

  /** The dot product over the shorter of the two lengths, as `zip` pairs them. */
  function Dot(a: seq<nat>, b: seq<nat>): nat {
    if a == [] || b == [] then 0 else a[0] * b[0] + Dot(a[1..], b[1..])
  }

  // ---- big-endian bytes ----

  type byte = x: int | 0 <= x < 256

  function Pow256(k: nat): (r: nat)
    ensures r > 0
  {
    if k == 0 then 1 else 256 * Pow256(k - 1)
  }

  function ToBytes(n: nat, len: nat): (s: seq<byte>)
    ensures |s| == len
  {
    if len == 0 then [] else ToBytes(n / 256, len - 1) + [n % 256]
  }

  function FromBytes(s: seq<byte>): nat {
    if s == [] then 0 else FromBytes(s[..|s| - 1]) * 256 + s[|s| - 1]
  }

  lemma {:induction false} FromToBytes(n: nat, len: nat)
    requires n < Pow256(len)
    ensures FromBytes(ToBytes(n, len)) == n
  {
    if len == 0 {
    } else {
      FromToBytes(n / 256, len - 1);
      var s := ToBytes(n, len);
      assert s[..|s| - 1] == ToBytes(n / 256, len - 1);
    }
  }

  lemma {:induction false} ToFromBytes(s: seq<byte>)
    ensures ToBytes(FromBytes(s), |s|) == s
    ensures FromBytes(s) < Pow256(|s|)
  {
    if s == [] {
    } else {
      var t, b := s[..|s| - 1], s[|s| - 1];
      ToFromBytes(t);
      assert FromBytes(s) == FromBytes(t) * 256 + b;
      assert FromBytes(s) / 256 == FromBytes(t) && FromBytes(s) % 256 == b;
      assert s == t + [b];
    }
  }

  /** The order is big-endian: the first byte weighs most. */
  lemma {:induction false} LeadingByte(b: byte, s: seq<byte>)
    ensures FromBytes([b] + s) == b * Pow256(|s|) + FromBytes(s)
  {
    var t := [b] + s;
    if s == [] {
      assert t[..|t| - 1] == [];
    } else {
      var init, last := s[..|s| - 1], s[|s| - 1];
      LeadingByte(b, init);
      assert t[..|t| - 1] == [b] + init && t[|t| - 1] == last;
      var w, rest := b * Pow256(|init|), FromBytes(init);
      assert FromBytes(t) == (w + rest) * 256 + last;
      assert b * Pow256(|s|) == w * 256;
    }
  }
}
