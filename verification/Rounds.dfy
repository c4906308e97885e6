/** The computations of the three rounds, from wire messages to wire messages. */
module Rounds {
  import opened Wrappers
  import opened Arith
  import opened Curves
  import opened Keys
  import opened Musig2
  import opened Broadcast

  datatype MessageRound1 = MessageRound1(ephemeralKeys: seq<seq<byte>>, message: seq<byte>, pubkey: seq<byte>)
  datatype MessageRound2 = MessageRound2(signFragment: seq<byte>)

  datatype Prepare = Prepare(myInd: nat, keyPair: KeyPair, message: seq<byte>)
  datatype Round1 = Round1(myInd: nat, state1: State, keyPair: KeyPair, message: seq<byte>)
  datatype Round2 = Round2(myInd: nat, commit: nat, r: Point, state2: StatePrime, keyPair: KeyPair,
                           keyAgg: KeyAgg, message: seq<byte>)
  datatype SignResult = SignResult(r: Point, s: nat, commit: nat)

  // ---- Prepare ----

  /** The next round and the message it broadcasts. */
  function PrepareStep(c: Curve, p: Prepare): Outcome<(Round1, MessageRound1)> {
    var signed :- Sign(c, p.keyPair);
    Ok((Round1(p.myInd, signed.1, p.keyPair, p.message),
        MessageRound1(EncodeAll(signed.0), p.message, SerializePoint(p.keyPair.pub))))
  }

  method PrepareProceed(c: Curve, p: Prepare) returns (o: Outcome<(Round1, MessageRound1)>)
    ensures o == PrepareStep(c, p)
  {
    var ephk := CreateEphemeralKeys(c, p.keyPair);
    if ephk.IsFailure() {
      return ephk.PropagateFailure();
    }
    var encoded := ConvertToVec(Publics(ephk.value));
    return Ok((Round1(p.myInd, State(p.keyPair, ephk.value), p.keyPair, p.message),
               MessageRound1(encoded, p.message, SerializePoint(p.keyPair.pub))));
  }

  // ---- Round 1 ----

  /** The keys and nonces read from the first `count` messages, own key inserted at its place. */
  function Collect(c: Curve, me: nat, own: Point, msgs: seq<MessageRound1>, count: nat)
    : Outcome<(seq<Point>, seq<seq<Point>>)>
    requires count <= |msgs|
  {
    if count == 0 then Ok(([], []))
    else
      var before :- Collect(c, me, own, msgs, count - 1);
      var msg := msgs[count - 1];
      var pks := if count == me then before.0 + [own] else before.0;
      if |msg.pubkey| != 65 then Panic(SliceLengthMismatch)
      else
        var parsed := ParsePoint(c, msg.pubkey);
        var nonces :- DecodeAll(c, msg.ephemeralKeys);
        Ok((if parsed.Ok? then pks + [parsed.value] else pks, before.1 + [nonces]))
  }

  function WithOwnKey(me: nat, own: Point, msgs: seq<MessageRound1>, pks: seq<Point>): seq<Point> {
    if |msgs| + 1 == me then pks + [own] else pks
  }

  function Round1Step(c: Curve, r: Round1, input: BroadcastMsgs<MessageRound1>): Outcome<(Round2, MessageRound2)>
    requires c.q > 0 && r.myInd >= 1
  {
    var collected :- Collect(c, r.myInd, r.keyPair.pub, input.msgs, |input.msgs|);
    var pks := WithOwnKey(r.myInd, r.keyPair.pub, input.msgs, collected.0);
    var agg :- KeyAggregation(c, pks, r.myInd - 1);
    var sp :- SignPrime(c, r.state1, r.message, pks, collected.1, r.myInd - 1);
    var params :- GlobalParameters(c, r.state1, r.message, pks, collected.1, r.myInd - 1);
    Ok((Round2(r.myInd, params.c, params.r, sp, r.keyPair, agg, r.message),
        MessageRound2(SerializeScalar(sp.s))))
  }

  /** What a successful round 1 computed, from the lists it collected. */
  lemma Round1Result(c: Curve, r: Round1, input: BroadcastMsgs<MessageRound1>, pks: seq<Point>, nonces: seq<seq<Point>>)
    requires c.q > 0 && r.myInd >= 1 && Round1Step(c, r, input).Ok?
    requires Collect(c, r.myInd, r.keyPair.pub, input.msgs, |input.msgs|).Ok?
    requires var collected := Collect(c, r.myInd, r.keyPair.pub, input.msgs, |input.msgs|).value;
             WithOwnKey(r.myInd, r.keyPair.pub, input.msgs, collected.0) == pks && collected.1 == nonces
    ensures var (r2, m2) := Round1Step(c, r, input).value;
            && KeyAggregation(c, pks, r.myInd - 1) == Ok(r2.keyAgg)
            && SignPrime(c, r.state1, r.message, pks, nonces, r.myInd - 1) == Ok(r2.state2)
            && GlobalParameters(c, r.state1, r.message, pks, nonces, r.myInd - 1).Ok?
            && r2.message == r.message && m2 == MessageRound2(SerializeScalar(r2.state2.s))
            && var params := GlobalParameters(c, r.state1, r.message, pks, nonces, r.myInd - 1).value;
               r2.commit == params.c && r2.r == params.r
  {
    hide KeyAggregation, SignPrime, GlobalParameters, Collect, WithOwnKey;
  }

  lemma {:induction false} CollectFailureStays(c: Curve, me: nat, own: Point, msgs: seq<MessageRound1>, i: nat, n: nat)
    requires i <= n <= |msgs| && Collect(c, me, own, msgs, i).IsFailure()
    ensures Collect(c, me, own, msgs, n) == Collect(c, me, own, msgs, i)
  {
    if i == n {
    } else {
      CollectFailureStays(c, me, own, msgs, i, n - 1);
    }
  }

  method Round1Proceed(c: Curve, r: Round1, input: BroadcastMsgs<MessageRound1>)
    returns (o: Outcome<(Round2, MessageRound2)>)
    requires c.q > 0 && r.myInd >= 1
    ensures o == Round1Step(c, r, input)
  {
    hide KeyAggregation, SignPrime, GlobalParameters, ParsePoint, DecodeAll;
    var pks: seq<Point> := [];
    var receivedNonce: seq<seq<Point>> := [];
    for i := 0 to |input.msgs|
      invariant Collect(c, r.myInd, r.keyPair.pub, input.msgs, i) == Ok((pks, receivedNonce))
    {
      if i + 1 == r.myInd {
        pks := pks + [r.keyPair.pub];
      }
      var msg := input.msgs[i];
      if |msg.pubkey| != 65 {
        CollectFailureStays(c, r.myInd, r.keyPair.pub, input.msgs, i + 1, |input.msgs|);
        return Panic(SliceLengthMismatch);
      }
      var parsed := ParsePoint(c, msg.pubkey);
      if parsed.Ok? {
        pks := pks + [parsed.value];
      }
      var nonces := ConvertFromVec(c, msg.ephemeralKeys);
      if nonces.IsFailure() {
        CollectFailureStays(c, r.myInd, r.keyPair.pub, input.msgs, i + 1, |input.msgs|);
        return nonces.PropagateFailure();
      }
      receivedNonce := receivedNonce + [nonces.value];
    }
    if |input.msgs| + 1 == r.myInd {
      pks := pks + [r.keyPair.pub];
    }
    var partyIndex := r.myInd - 1;
    var agg := KeyAggregation(c, pks, partyIndex);
    if agg.IsFailure() {
      return agg.PropagateFailure();
    }
    var sp := SignPrime(c, r.state1, r.message, pks, receivedNonce, partyIndex);
    if sp.IsFailure() {
      return sp.PropagateFailure();
    }
    var params := ComputeGlobalParams(c, r.state1, r.message, pks, receivedNonce, partyIndex);
    if params.IsFailure() {
      return params.PropagateFailure();
    }
    return Ok((Round2(r.myInd, params.value.c, params.value.r, sp.value, r.keyPair, agg.value, r.message),
               MessageRound2(SerializeScalar(sp.value.s))));
  }

  // ---- Round 2 ----

  function ParseShares(c: Curve, msgs: seq<MessageRound2>, count: nat): (r: Outcome<seq<nat>>)
    requires count <= |msgs|
    ensures r.Ok? ==> |r.value| == count
  {
    if count == 0 then Ok([])
    else
      var before :- ParseShares(c, msgs, count - 1);
      var s :- ParseSlice(c, msgs[count - 1].signFragment);
      Ok(before + [s])
  }

  function Round2Step(c: Curve, r: Round2, input: BroadcastMsgs<MessageRound2>): Outcome<SignResult>
    requires c.q > 0
  {
    var shares :- ParseShares(c, input.msgs, |input.msgs|);
    var s :- SignDoublePrime(c, r.state2, shares);
    var rx :- ParseSlice(c, XCoor(r.r)).OrPanic(UnwrapOnError);
    var m :- ParseMessage(c, r.message).OrPanic(UnwrapOnError);
    var verified :- Verify(c, Signature(rx, s), m, r.keyAgg.xTilde).OrPanic(VerifyAssertion);
    Ok(SignResult(r.r, s, r.commit))
  }

  lemma {:induction false} ShareFailureStays(c: Curve, msgs: seq<MessageRound2>, i: nat, n: nat)
    requires i <= n <= |msgs| && ParseShares(c, msgs, i).IsFailure()
    ensures ParseShares(c, msgs, n) == ParseShares(c, msgs, i)
  {
    if i == n {
    } else {
      ShareFailureStays(c, msgs, i, n - 1);
    }
  }

  method Round2Proceed(c: Curve, r: Round2, input: BroadcastMsgs<MessageRound2>) returns (o: Outcome<SignResult>)
    requires c.q > 0
    ensures o == Round2Step(c, r, input)
  {
    var receivedRound2: seq<nat> := [];
    for i := 0 to |input.msgs|
      invariant ParseShares(c, input.msgs, i) == Ok(receivedRound2)
    {
      var s := ParseSlice(c, input.msgs[i].signFragment);
      if s.IsFailure() {
        ShareFailureStays(c, input.msgs, i + 1, |input.msgs|);
        return s.PropagateFailure();
      }
      receivedRound2 := receivedRound2 + [s.value];
    }
    var s := SignDoublePrime(c, r.state2, receivedRound2);
    if s.IsFailure() {
      return s.PropagateFailure();
    }
    var rx := ParseSlice(c, XCoor(r.r)).OrPanic(UnwrapOnError);
    if rx.IsFailure() {
      return rx.PropagateFailure();
    }
    var m := ParseMessage(c, r.message).OrPanic(UnwrapOnError);
    if m.IsFailure() {
      return m.PropagateFailure();
    }
    var verified := Verify(c, Signature(rx.value, s.value), m.value, r.keyAgg.xTilde).OrPanic(VerifyAssertion);
    if verified.IsFailure() {
      return verified.PropagateFailure();
    }
    return Ok(SignResult(r.r, s.value, r.commit));
  }

  /** Round 2 when everything it reads parses, the shares combine to s, and the signature verifies. */
  lemma Round2Succeeds(c: Curve, r: Round2, input: BroadcastMsgs<MessageRound2>, shares: seq<nat>,
                       s: nat, rx: nat, m: nat)
    requires c.q > 0 && ParseShares(c, input.msgs, |input.msgs|) == Ok(shares)
    requires SignDoublePrime(c, r.state2, shares) == Ok(s)
    requires ParseSlice(c, XCoor(r.r)) == Ok(rx) && ParseMessage(c, r.message) == Ok(m)
    requires Verify(c, Signature(rx, s), m, r.keyAgg.xTilde) == Ok(true)
    ensures Round2Step(c, r, input) == Ok(SignResult(r.r, s, r.commit))
  {
    hide ParseShares, SignDoublePrime, ParseSlice, ParseMessage, Verify;
  }

  lemma Round2Fails(c: Curve, r: Round2, input: BroadcastMsgs<MessageRound2>, shares: seq<nat>)
    requires c.q > 0 && ParseShares(c, input.msgs, |input.msgs|) == Ok(shares)
    requires SignDoublePrime(c, r.state2, shares).Err?
    ensures Round2Step(c, r, input).Err?
  {
    hide ParseShares, SignDoublePrime, ParseSlice, ParseMessage, Verify;
  }

  lemma {:induction false} ParseSharesAll(c: Curve, msgs: seq<MessageRound2>, shares: seq<nat>, count: nat)
    requires count <= |msgs| == |shares|
    requires forall k :: 0 <= k < |msgs| ==> ParseSlice(c, msgs[k].signFragment) == Ok(shares[k])
    ensures ParseShares(c, msgs, count) == Ok(shares[..count])
  {
    hide ParseSlice;
    if count == 0 {
    } else {
      ParseSharesAll(c, msgs, shares, count - 1);
      assert shares[..count] == shares[..count - 1] + [shares[count - 1]];
    }
  }

  // ---- the list of keys ----

  /** Puts x at index i. */
  function InsertAt<T>(s: seq<T>, i: nat, x: T): (r: seq<T>)
    requires i <= |s|
    ensures |r| == |s| + 1
  {
    s[..i] + [x] + s[i..]
  }

  /** Messages whose key and nonces all parse, to the given points. */
  ghost predicate AllParse(c: Curve, msgs: seq<MessageRound1>, keys: seq<Point>, nonces: seq<seq<Point>>) {
    && |keys| == |nonces| == |msgs|
    && forall i :: 0 <= i < |msgs| ==>
                     && |msgs[i].pubkey| == 65
                     && ParsePoint(c, msgs[i].pubkey) == Ok(keys[i])
                     && DecodeAll(c, msgs[i].ephemeralKeys) == Ok(nonces[i])
  }

  lemma {:induction false} CollectPrefix(c: Curve, me: nat, own: Point, msgs: seq<MessageRound1>,
                                         keys: seq<Point>, nonces: seq<seq<Point>>, count: nat)
    requires me >= 1 && count <= |msgs| && AllParse(c, msgs, keys, nonces)
    ensures Collect(c, me, own, msgs, count) ==
            Ok((if me <= count then InsertAt(keys[..count], me - 1, own) else keys[..count], nonces[..count]))
  {
    hide ParsePoint, DecodeAll, InsertAt;
    if count == 0 {
      assert keys[..0] == [] && nonces[..0] == [];
    } else {
      CollectPrefix(c, me, own, msgs, keys, nonces, count - 1);
      assert keys[..count] == keys[..count - 1] + [keys[count - 1]];
      assert nonces[..count] == nonces[..count - 1] + [nonces[count - 1]];
      if me <= count {
        InsertSnoc(keys[..count - 1], me - 1, own, keys[count - 1]);
      }
    }
  }

  lemma InsertSnoc<T>(s: seq<T>, i: nat, x: T, y: T)
    requires i <= |s|
    ensures InsertAt(s + [y], i, x) == InsertAt(s, i, x) + [y]
    ensures InsertAt(s, |s|, x) == s + [x]
  {
  }

  /**
   When every received key parses, the key list is the received keys with the own key inserted at
   its index, for every position including the first and the last.
   */
  lemma CollectInsertsOwnKey(c: Curve, me: nat, own: Point, msgs: seq<MessageRound1>,
                             keys: seq<Point>, nonces: seq<seq<Point>>)
    requires ValidIndex(me, |msgs| + 1) && AllParse(c, msgs, keys, nonces)
    ensures Collect(c, me, own, msgs, |msgs|).Ok?
    ensures var collected := Collect(c, me, own, msgs, |msgs|).value;
            && WithOwnKey(me, own, msgs, collected.0) == InsertAt(keys, me - 1, own)
            && collected.1 == nonces
  {
    CollectPrefix(c, me, own, msgs, keys, nonces, |msgs|);
    assert keys[..|msgs|] == keys && nonces[..|msgs|] == nonces;
    if me == |msgs| + 1 {
      assert keys[..me - 1] == keys && keys[me - 1..] == [];
    }
  }
}
