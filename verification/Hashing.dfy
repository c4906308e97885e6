/**
 What is hashed. Every hash of the scheme is taken over a string of 32-byte blocks; here each is
 stated in terms of the blocks and of the hash of the curve alone.
 */
module Hashing {
  import opened Wrappers
  import opened Arith
  import opened Curves
  import opened Keys
  import opened Musig2

  /** The i-th block of 32 bytes. */
  function Block(d: seq<byte>, i: nat): seq<byte>
    requires 32 * i + 32 <= |d|
  {
    d[32 * i..32 * i + 32]
  }

  /** The string consists of exactly these blocks, in this order. */
  ghost predicate Consists(d: seq<byte>, blocks: seq<seq<byte>>) {
    && |d| == 32 * |blocks|
    && forall i :: 0 <= i < |blocks| ==> Block(d, i) == blocks[i]
  }

  /** The blocks determine the string. */
  lemma {:induction false} BlocksDetermine(d: seq<byte>, e: seq<byte>, blocks: seq<seq<byte>>)
    requires Consists(d, blocks) && Consists(e, blocks)
    ensures d == e
  {
    if blocks == [] {
    } else {
      ConsistsTail(d, blocks);
      ConsistsTail(e, blocks);
      BlocksDetermine(d[32..], e[32..], blocks[1..]);
      assert d == Block(d, 0) + d[32..] && e == Block(e, 0) + e[32..];
    }
  }

  lemma ConsistsTail(d: seq<byte>, blocks: seq<seq<byte>>)
    requires Consists(d, blocks) && blocks != []
    ensures Consists(d[32..], blocks[1..])
  {
    var t := d[32..];
    forall i | 0 <= i < |blocks[1..]|
      ensures Block(t, i) == blocks[1..][i]
    {
      assert Block(t, i) == Block(d, i + 1);
    }
  }

  function Encodings(ks: seq<nat>): (r: seq<seq<byte>>)
    ensures |r| == |ks| && forall i :: 0 <= i < |ks| ==> r[i] == SerializeScalar(ks[i])
  {
    seq(|ks|, i requires 0 <= i < |ks| => SerializeScalar(ks[i]))
  }

  /** What `h.add(..)` feeds to the hash, scalar by scalar: all their encodings, in order. */
  lemma {:induction false} ConcatConsists(ks: seq<nat>)
    ensures Consists(Concat(ks), Encodings(ks))
  {
    hide SerializeScalar;
    if ks == [] {
    } else {
      var rest := Concat(ks[1..]);
      var d := Concat(ks);
      ConcatConsists(ks[1..]);
      assert Encodings(ks)[1..] == Encodings(ks[1..]);
      assert d == SerializeScalar(ks[0]) + rest;
      forall i | 0 <= i < |ks|
        ensures Block(d, i) == SerializeScalar(ks[i])
      {
        if i > 0 {
          assert Block(d, i) == Block(rest, i - 1);
          assert Encodings(ks[1..])[i - 1] == SerializeScalar(ks[i]);
        }
      }
    }
  }

  /** So a hash of scalars is the hash of any string laid out that way. */
  lemma HashOfBlocks(c: Curve, ks: seq<nat>, d: seq<byte>)
    requires Consists(d, Encodings(ks))
    ensures HashScalars(c, ks) == c.hash(d)
  {
    ConcatConsists(ks);
    BlocksDetermine(Concat(ks), d, Encodings(ks));
  }

  lemma ThreeBlocks(a: seq<byte>, b: seq<byte>, e: seq<byte>)
    requires |a| == |b| == |e| == 32
    ensures Consists(a + b + e, [a, b, e])
  {
    var d := a + b + e;
    assert Block(d, 0) == a && Block(d, 1) == b && Block(d, 2) == e;
  }

  lemma TwoBlocks(a: seq<byte>, b: seq<byte>)
    requires |a| == |b| == 32
    ensures Consists(a + b, [a, b])
  {
    var d := a + b;
    assert Block(d, 0) == a && Block(d, 1) == b;
  }

  lemma FiveBlocks(a: seq<byte>, b: seq<byte>, e: seq<byte>, f: seq<byte>, g: seq<byte>)
    requires |a| == |b| == |e| == |f| == |g| == 32
    ensures Consists(a + b + e + f + g, [a, b, e, f, g])
  {
    var d := a + b + e + f + g;
    assert Block(d, 0) == a && Block(d, 1) == b && Block(d, 2) == e && Block(d, 3) == f && Block(d, 4) == g;
  }

  // ---- the hashes of the scheme ----

  /** The challenge hashes x(R), x(P) and the message, and is reduced modulo the order. */
  lemma ChallengeHash(c: Curve, rx: nat, pk: Point, message: nat)
    requires c.q > 0
    ensures Challenge(c, rx, pk, message).Ok? ==>
              Challenge(c, rx, pk, message) ==
              Ok(FromBytes(c.hash(SerializeScalar(rx) + XCoor(pk) + SerializeScalar(message))) % c.q)
    ensures Challenge(c, rx, pk, message) == Err(InvalidPrivateKey) <==> FromBytes(XCoor(pk)) >= c.q
    ensures Challenge(c, rx, pk, message).Ok? || Challenge(c, rx, pk, message) == Err(InvalidPrivateKey)
  {
    ScalarRefused(c, XCoor(pk));
    ToFromBytes(XCoor(pk));
    hide SerializeScalar, XCoor, HashScalars;
    var px := FromBytes(XCoor(pk));
    XBlock(pk);
    var d := SerializeScalar(rx) + XCoor(pk) + SerializeScalar(message);
    ThreeBlocks(SerializeScalar(rx), XCoor(pk), SerializeScalar(message));
    assert Encodings([rx, px, message]) == [SerializeScalar(rx), XCoor(pk), SerializeScalar(message)];
    HashOfBlocks(c, [rx, px, message], d);
  }

  /** The block of an x coordinate, read as a scalar and written again, is itself. */
  lemma XBlock(pk: Point)
    ensures SerializeScalar(FromBytes(XCoor(pk))) == XCoor(pk)
  {
    ToFromBytes(XCoor(pk));
  }

  /** A nonce hashes the private key and the counter. */
  lemma NonceHash(c: Curve, x: KeyPair, pad: nat)
    ensures EphemeralKey(c, x, pad).Ok? ==>
              var d := c.hash(SerializeScalar(x.sec) + SerializeScalar(pad));
              && |d| == 32 && EphemeralKey(c, x, pad).value.sec == FromBytes(d) < c.q
              && EphemeralKey(c, x, pad).value.pub == c.Exp(FromBytes(d))
    ensures EphemeralKey(c, x, pad).Ok? <==>
            var d := c.hash(SerializeScalar(x.sec) + SerializeScalar(pad));
            |d| == 32 && FromBytes(d) < c.q
    ensures EphemeralKey(c, x, pad).Ok? || EphemeralKey(c, x, pad).Err?
  {
    hide SerializeScalar, HashScalars, Curve.Exp;
    TwoBlocks(SerializeScalar(x.sec), SerializeScalar(pad));
    assert Encodings([x.sec, pad]) == [SerializeScalar(x.sec), SerializeScalar(pad)];
    HashOfBlocks(c, [x.sec, pad], SerializeScalar(x.sec) + SerializeScalar(pad));
  }

  /** The blocks of a key coefficient: the scalar 1, the key's x coordinate, and all x coordinates. */
  function KeyBlocks(pks: seq<Point>, k: nat): (r: seq<seq<byte>>)
    requires k < |pks|
    ensures |r| == |pks| + 2 && r[0] == SerializeScalar(1) && r[1] == XCoor(pks[k])
    ensures forall i :: 0 <= i < |pks| ==> r[i + 2] == XCoor(pks[i])
  {
    [SerializeScalar(1), XCoor(pks[k])] + seq(|pks|, i requires 0 <= i < |pks| => XCoor(pks[i]))
  }

  lemma {:induction false} XScalarsAre(c: Curve, pts: seq<Point>)
    requires XScalars(c, pts).Ok?
    ensures forall i :: 0 <= i < |pts| ==> SerializeScalar(XScalars(c, pts).value[i]) == XCoor(pts[i])
  {
    hide XCoor, SerializeScalar;
    if pts == [] {
    } else {
      XScalarsAre(c, pts[1..]);
      XBlock(pts[0]);
    }
  }

  lemma {:induction false} CoefficientAt(c: Curve, of: seq<nat>, xs: seq<nat>, k: nat)
    requires Coefficients(c, of, xs).Ok? && k < |of|
    ensures var h := HashScalars(c, [1, of[k]] + xs);
            |h| == 32 && Coefficients(c, of, xs).value[k] == FromBytes(h) < c.q
  {
    hide HashScalars;
    if k == 0 {
    } else {
      CoefficientAt(c, of[1..], xs, k - 1);
    }
  }

  lemma CoefficientUsed(c: Curve, pks: seq<Point>, k: nat)
    requires KeyAggregation(c, pks, k).Ok?
    ensures k < |pks| && XScalars(c, pks).Ok?
    ensures var xs := XScalars(c, pks).value;
            Coefficients(c, xs, xs).Ok? && KeyAggregation(c, pks, k).value.a == Coefficients(c, xs, xs).value[k]
  {
    hide XScalars, Coefficients, WeightKeys, FoldPoints;
  }

  lemma CoefficientOfBlocks(c: Curve, pks: seq<Point>, xs: seq<nat>, k: nat, d: seq<byte>)
    requires k < |pks| == |xs| && Consists(d, KeyBlocks(pks, k)) && Coefficients(c, xs, xs).Ok?
    requires forall i :: 0 <= i < |pks| ==> SerializeScalar(xs[i]) == XCoor(pks[i])
    ensures |c.hash(d)| == 32 && Coefficients(c, xs, xs).value[k] == FromBytes(c.hash(d)) < c.q
  {
    hide *;
    CoefficientAt(c, xs, xs, k);
    EncodingsOfKey(pks, k, xs);
    HashOfBlocks(c, [1, xs[k]] + xs, d);
  }

  lemma EncodingsOfKey(pks: seq<Point>, k: nat, xs: seq<nat>)
    requires k < |pks| == |xs| && forall i :: 0 <= i < |pks| ==> SerializeScalar(xs[i]) == XCoor(pks[i])
    ensures Encodings([1, xs[k]] + xs) == KeyBlocks(pks, k)
  {
    hide XCoor, SerializeScalar;
  }

  /** Every party's key coefficient is the hash of exactly those blocks. */
  lemma KeyCoefficientHash(c: Curve, pks: seq<Point>, k: nat, d: seq<byte>)
    requires KeyAggregation(c, pks, k).Ok? && Consists(d, KeyBlocks(pks, k))
    ensures |c.hash(d)| == 32 && KeyAggregation(c, pks, k).value.a == FromBytes(c.hash(d)) < c.q
  {
    hide *;
    CoefficientUsed(c, pks, k);
    XScalarsAre(c, pks);
    CoefficientOfBlocks(c, pks, XScalars(c, pks).value, k, d);
  }

  /** A binding coefficient hashes the aggregate key, both aggregated nonces, the message and j. */
  lemma BindingHashes(c: Curve, xTilde: Point, rs: seq<Point>, message: seq<byte>, j: nat)
    requires |rs| == NV && Binding(c, xTilde, rs, message, j).Ok?
    ensures var d := c.hash(XCoor(xTilde) + XCoor(rs[0]) + XCoor(rs[1]) + message + SerializeScalar(j));
            |d| == 32 && Binding(c, xTilde, rs, message, j).value == FromBytes(d) < c.q
  {
    hide HashScalars, XCoor, SerializeScalar;
    var x, m := ParseSlice(c, XCoor(xTilde)).value, ParseSlice(c, message).value;
    var rxs := XScalars(c, rs[..NV]).value;
    assert rs[..NV] == rs;
    XScalarsAre(c, rs);
    XBlock(xTilde);
    MessageBlock(message);
    var ks := [x] + rxs + [m] + [j];
    assert Encodings(ks) == [XCoor(xTilde), XCoor(rs[0]), XCoor(rs[1]), message, SerializeScalar(j)];
    FiveBlocks(XCoor(xTilde), XCoor(rs[0]), XCoor(rs[1]), message, SerializeScalar(j));
    HashOfBlocks(c, ks, XCoor(xTilde) + XCoor(rs[0]) + XCoor(rs[1]) + message + SerializeScalar(j));
  }

  lemma MessageBlock(message: seq<byte>)
    requires |message| == 32
    ensures SerializeScalar(FromBytes(message)) == message
  {
    ToFromBytes(message);
  }
}
