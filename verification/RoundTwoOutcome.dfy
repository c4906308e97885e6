/** How round 2 ends on any messages whatsoever, honest or not. */
module RoundTwoOutcome {
  import opened Wrappers
  import opened Arith
  import opened Curves
  import opened Keys
  import opened Musig2
  import opened SignatureTheory
  import opened SignatureCorrectness
  import opened Broadcast
  import opened Rounds

  /** The messages are the encodings of these scalars. */
  ghost predicate Encode(c: Curve, msgs: seq<MessageRound2>, shares: seq<nat>) {
    && |shares| == |msgs|
    && forall k :: 0 <= k < |msgs| ==> shares[k] < c.q && msgs[k].signFragment == SerializeScalar(shares[k])
  }

  /** The received shares are read exactly when every message is the encoding of a scalar. */
  lemma {:induction false} SharesReadIff(c: Curve, msgs: seq<MessageRound2>, count: nat, shares: seq<nat>)
    requires c.Valid() && count <= |msgs|
    ensures ParseShares(c, msgs, count) == Ok(shares) <==> Encode(c, msgs[..count], shares)
  {
    hide Curve.Valid, ParseSlice, SerializeScalar;
    if count == 0 {
    } else {
      var msg := msgs[count - 1];
      assert msgs[..count] == msgs[..count - 1] + [msg];
      if shares == [] {
        SharesReadIff(c, msgs, count - 1, shares);
      } else {
        var before, last := shares[..|shares| - 1], shares[|shares| - 1];
        assert shares == before + [last];
        SharesReadIff(c, msgs, count - 1, before);
        ScalarRoundTrip(c, msg.signFragment, last);
        EncodeSnoc(c, msgs[..count - 1], msg, before, last);
      }
    }
  }

  lemma {:induction false} SharesNeverPanic(c: Curve, msgs: seq<MessageRound2>, count: nat)
    requires count <= |msgs|
    ensures !ParseShares(c, msgs, count).Panic?
  {
    if count == 0 {
    } else {
      SharesNeverPanic(c, msgs, count - 1);
    }
  }

  lemma EncodeSnoc(c: Curve, msgs: seq<MessageRound2>, msg: MessageRound2, shares: seq<nat>, s: nat)
    ensures Encode(c, msgs + [msg], shares + [s]) <==>
            Encode(c, msgs, shares) && s < c.q && msg.signFragment == SerializeScalar(s)
  {
    hide SerializeScalar;
    if Encode(c, msgs + [msg], shares + [s]) {
      forall k | 0 <= k < |msgs|
        ensures shares[k] < c.q && msgs[k].signFragment == SerializeScalar(shares[k])
      {
        assert (msgs + [msg])[k] == msgs[k] && (shares + [s])[k] == shares[k];
      }
      assert (msgs + [msg])[|msgs|] == msg && (shares + [s])[|msgs|] == s;
    }
  }

  /** The messages are shares that combine with one's own. */
  ghost predicate Combine(c: Curve, own: nat, msgs: seq<MessageRound2>, shares: seq<nat>)
    requires c.q > 0
  {
    Encode(c, msgs, shares) && NoPartialSumVanishes(c.q, own, shares)
  }

  /** The signature that the shares add up to. */
  function SignatureOf(c: Curve, r: Round2, shares: seq<nat>): Signature
    requires c.q > 0
  {
    Signature(XOf(r.r), (r.state2.s + Sum(shares)) % c.q)
  }

  /** It verifies, its R and its message being readable. */
  ghost predicate Accepted(c: Curve, r: Round2, shares: seq<nat>)
    requires c.q > 0
  {
    && XOf(r.r) < c.q && |r.message| == 32
    && Verify(c, SignatureOf(c, r, shares), FromBytes(r.message) % c.q, r.keyAgg.xTilde) == Ok(true)
  }

  /** Which panic it is: an `unwrap` of R or of the message, or else the assertion. */
  function CauseOf(c: Curve, r: Round2): PanicCause {
    if XOf(r.r) < c.q && |r.message| == 32 then VerifyAssertion else UnwrapOnError
  }

  /**
   Round 2 returns an error exactly when some message is not the encoding of a scalar or a partial
   sum vanishes. Otherwise the sum of the shares decides: it becomes the result when the signature
   verifies, and the assertion panics when it does not.
   */
  lemma Round2Outcome(c: Curve, r: Round2, input: BroadcastMsgs<MessageRound2>)
    requires c.Valid() && c.OnCurve(r.r) && r.state2.s < c.q
    ensures Round2Step(c, r, input).Err? <==> forall shares :: !Combine(c, r.state2.s, input.msgs, shares)
    ensures forall shares :: Combine(c, r.state2.s, input.msgs, shares) ==>
                               if Accepted(c, r, shares)
                               then
                                 Round2Step(c, r, input) ==
                                 Ok(SignResult(r.r, SignatureOf(c, r, shares).s, r.commit))
                               else Round2Step(c, r, input) == Panic(CauseOf(c, r))
  {
    FieldFits(c);
    var parsed := ParseShares(c, input.msgs, |input.msgs|);
    assert input.msgs[..|input.msgs|] == input.msgs;
    SharesNeverPanic(c, input.msgs, |input.msgs|);
    hide *;
    forall shares
      ensures Combine(c, r.state2.s, input.msgs, shares) <==>
              parsed == Ok(shares) && NoPartialSumVanishes(c.q, r.state2.s, shares)
    {
      SharesReadIff(c, input.msgs, |input.msgs|, shares);
      CombineIs(c, r.state2.s, input.msgs, shares);
    }
    if parsed.Ok? {
      Round2OnShares(c, r, input, parsed.value);
    } else {
      Round2OnGarbage(c, r, input);
    }
  }

  lemma CombineIs(c: Curve, own: nat, msgs: seq<MessageRound2>, shares: seq<nat>)
    requires c.q > 0
    ensures Combine(c, own, msgs, shares) <==> Encode(c, msgs, shares) && NoPartialSumVanishes(c.q, own, shares)
  {
    hide Encode, NoPartialSumVanishes;
  }

  lemma Round2OnGarbage(c: Curve, r: Round2, input: BroadcastMsgs<MessageRound2>)
    requires c.q > 0 && ParseShares(c, input.msgs, |input.msgs|).Err?
    ensures Round2Step(c, r, input).Err?
  {
    hide ParseShares;
  }

  lemma Round2OnShares(c: Curve, r: Round2, input: BroadcastMsgs<MessageRound2>, shares: seq<nat>)
    requires c.Valid() && c.q > 0 && c.OnCurve(r.r) && r.state2.s < c.q
    requires ParseShares(c, input.msgs, |input.msgs|) == Ok(shares)
    ensures if !NoPartialSumVanishes(c.q, r.state2.s, shares) then Round2Step(c, r, input).Err?
            else if Accepted(c, r, shares)
            then Round2Step(c, r, input) == Ok(SignResult(r.r, SignatureOf(c, r, shares).s, r.commit))
            else Round2Step(c, r, input) == Panic(CauseOf(c, r))
  {
    hide Curve.Valid, Curve.OnCurve, ParseShares, Verify, NoPartialSumVanishes, FoldScalars, XOf, XCoor, Cong;
    FoldScalarsSum(c, r.state2.s, shares);
    FoldScalarsSucceedsIff(c, r.state2.s, shares);
    XParse(c, r.r);
    VerifyNeverFalse(c, SignatureOf(c, r, shares), FromBytes(r.message) % c.q, r.keyAgg.xTilde);
    if FoldScalars(c, r.state2.s, shares).Ok? {
      ResidueOf(FoldScalars(c, r.state2.s, shares).value, r.state2.s + Sum(shares), c.q);
    }
  }

  lemma ResidueOf(a: nat, b: nat, q: nat)
    requires q > 0 && a < q && Cong(a, b, q)
    ensures a == b % q
  {
    ModUnique(a, 0, a, q);
  }

  lemma VerifyNeverFalse(c: Curve, sig: Signature, message: nat, pk: Point)
    requires c.Valid() && c.q > 0
    ensures Verify(c, sig, message, pk) == Ok(true) || Verify(c, sig, message, pk).Err?
  {
    VerifyIff(c, sig, message, pk);
  }
}
