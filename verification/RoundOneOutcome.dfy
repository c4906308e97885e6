/** How round 1 ends on any messages whatsoever, honest or not. */
module RoundOneOutcome {
  import opened Wrappers
  import opened Arith
  import opened Curves
  import opened Keys
  import opened Musig2
  import opened Hashing
  import opened SignatureTheory
  import opened SignatureCorrectness
  import opened SigningGuards
  import opened Broadcast
  import opened Rounds

  // ---- reading the messages ----

  function PubKeys(msgs: seq<MessageRound1>): (r: seq<seq<byte>>)
    ensures |r| == |msgs| && forall k :: 0 <= k < |msgs| ==> r[k] == msgs[k].pubkey
  {
    seq(|msgs|, k requires 0 <= k < |msgs| => msgs[k].pubkey)
  }

  /** Every key and every nonce is 65 bytes long. */
  ghost predicate WellSized(msgs: seq<MessageRound1>) {
    forall k :: 0 <= k < |msgs| ==> SizedMessage(msgs[k])
  }

  ghost predicate SizedMessage(msg: MessageRound1) {
    |msg.pubkey| == 65 && forall j :: 0 <= j < |msg.ephemeralKeys| ==> |msg.ephemeralKeys[j]| == 65
  }

  /** The keys that parse, in order. */
  ghost function ReadKeys(c: Curve, msgs: seq<MessageRound1>): (r: seq<Point>)
    requires WellSized(msgs)
  {
    KeysDecode(c, msgs);
    DecodeAll(c, PubKeys(msgs)).value
  }

  lemma KeysDecode(c: Curve, msgs: seq<MessageRound1>)
    requires WellSized(msgs)
    ensures DecodeAll(c, PubKeys(msgs)).Ok?
  {
    DecodedList(c, PubKeys(msgs));
    forall k | 0 <= k < |msgs|
      ensures |PubKeys(msgs)[k]| == 65
    {
      assert SizedMessage(msgs[k]);
    }
  }

  lemma NoncesDecode(c: Curve, msg: MessageRound1)
    requires SizedMessage(msg)
    ensures DecodeAll(c, msg.ephemeralKeys).Ok?
  {
    DecodedList(c, msg.ephemeralKeys);
  }

  /** The nonces that parse, message by message. */
  ghost function ReadNonces(c: Curve, msgs: seq<MessageRound1>): (r: seq<seq<Point>>)
    requires WellSized(msgs)
    ensures |r| == |msgs|
    ensures forall k :: 0 <= k < |msgs| ==> DecodeAll(c, msgs[k].ephemeralKeys) == Ok(r[k])
  {
    if msgs == [] then []
    else
      var before := msgs[..|msgs| - 1];
      assert SizedMessage(msgs[|msgs| - 1]);
      NoncesDecode(c, msgs[|msgs| - 1]);
      assert forall k :: 0 <= k < |before| ==> SizedMessage(before[k]) by {
        forall k | 0 <= k < |before| ensures SizedMessage(before[k]) { assert SizedMessage(msgs[k]); }
      }
      ReadNonces(c, before) + [DecodeAll(c, msgs[|msgs| - 1].ephemeralKeys).value]
  }

  lemma SizedPrefix(msgs: seq<MessageRound1>, k: nat)
    requires WellSized(msgs) && k <= |msgs|
    ensures WellSized(msgs[..k]) && WellSized(msgs[k..])
  {
    hide SizedMessage;
    forall j | 0 <= j < k
      ensures SizedMessage(msgs[..k][j])
    {
      assert SizedMessage(msgs[j]);
    }
    forall j | 0 <= j < |msgs| - k
      ensures SizedMessage(msgs[k..][j])
    {
      assert SizedMessage(msgs[k + j]);
    }
  }

  /** The keys read from the messages, with one's own after those of the parties before. */
  ghost function KeyList(c: Curve, me: nat, own: Point, msgs: seq<MessageRound1>): seq<Point>
    requires WellSized(msgs) && 1 <= me <= |msgs| + 1
  {
    SizedPrefix(msgs, me - 1);
    ReadKeys(c, msgs[..me - 1]) + [own] + ReadKeys(c, msgs[me - 1..])
  }

  lemma ReadKeysSnoc(c: Curve, msgs: seq<MessageRound1>, msg: MessageRound1)
    requires WellSized(msgs) && SizedMessage(msg)
    ensures WellSized(msgs + [msg])
    ensures ReadKeys(c, msgs + [msg]) ==
            ReadKeys(c, msgs) + if ParsePoint(c, msg.pubkey).Ok? then [ParsePoint(c, msg.pubkey).value] else []
  {
    hide ParsePoint;
    forall j | 0 <= j < |msgs| + 1
      ensures SizedMessage((msgs + [msg])[j])
    {
      if j < |msgs| {
        assert SizedMessage(msgs[j]);
      }
    }
    KeysDecode(c, msgs);
    assert PubKeys(msgs + [msg]) == PubKeys(msgs) + [msg.pubkey];
    DecodeSnoc(c, PubKeys(msgs), msg.pubkey);
    hide DecodeAll;
    assert ReadKeys(c, msgs) + [] == ReadKeys(c, msgs);
  }

  /** The first `count` messages read, one's own key among them once its place is reached. */
  ghost function KeysSoFar(c: Curve, me: nat, own: Point, msgs: seq<MessageRound1>, count: nat): seq<Point>
    requires WellSized(msgs) && count <= |msgs| && me >= 1
  {
    SizedPrefix(msgs, count);
    if count < me then ReadKeys(c, msgs[..count])
    else KeyList(c, me, own, msgs[..count])
  }

  lemma {:induction false} CollectReads(c: Curve, me: nat, own: Point, msgs: seq<MessageRound1>, count: nat)
    requires WellSized(msgs) && count <= |msgs| && me >= 1
    ensures Collect(c, me, own, msgs, count) ==
            Ok((KeysSoFar(c, me, own, msgs, count), ReadNonces(c, msgs)[..count]))
  {
    hide *;
    if count == 0 {
      CollectNothing(c, me, own, msgs);
    } else {
      CollectReads(c, me, own, msgs, count - 1);
      KeysSoFarStep(c, me, own, msgs, count);
      NoncesSoFarStep(c, msgs, count);
      CollectStep(c, me, own, msgs, count);
    }
  }

  lemma CollectNothing(c: Curve, me: nat, own: Point, msgs: seq<MessageRound1>)
    requires WellSized(msgs) && me >= 1
    ensures Collect(c, me, own, msgs, 0) == Ok((KeysSoFar(c, me, own, msgs, 0), ReadNonces(c, msgs)[..0]))
  {
    SizedPrefix(msgs, 0);
    assert PubKeys(msgs[..0]) == [];
    assert ReadNonces(c, msgs)[..0] == [];
  }

  lemma NoncesSoFarStep(c: Curve, msgs: seq<MessageRound1>, count: nat)
    requires WellSized(msgs) && 0 < count <= |msgs|
    ensures DecodeAll(c, msgs[count - 1].ephemeralKeys).Ok?
    ensures ReadNonces(c, msgs)[..count] ==
            ReadNonces(c, msgs)[..count - 1] + [DecodeAll(c, msgs[count - 1].ephemeralKeys).value]
  {
    hide DecodeAll, SizedMessage;
    var ns := ReadNonces(c, msgs);
    assert DecodeAll(c, msgs[count - 1].ephemeralKeys) == Ok(ns[count - 1]);
    assert ns[..count] == ns[..count - 1] + [ns[count - 1]];
  }

  lemma CollectStep(c: Curve, me: nat, own: Point, msgs: seq<MessageRound1>, count: nat)
    requires 0 < count <= |msgs| && Collect(c, me, own, msgs, count - 1).Ok? && |msgs[count - 1].pubkey| == 65
    requires DecodeAll(c, msgs[count - 1].ephemeralKeys).Ok?
    ensures var before := Collect(c, me, own, msgs, count - 1).value;
            var parsed := ParsePoint(c, msgs[count - 1].pubkey);
            Collect(c, me, own, msgs, count) ==
            Ok(((if count == me then before.0 + [own] else before.0) + (if parsed.Ok? then [parsed.value] else []),
                before.1 + [DecodeAll(c, msgs[count - 1].ephemeralKeys).value]))
  {
    hide DecodeAll, ParsePoint;
    var before := Collect(c, me, own, msgs, count - 1).value;
    var pks := if count == me then before.0 + [own] else before.0;
    assert pks + [] == pks;
  }

  lemma KeysSoFarStep(c: Curve, me: nat, own: Point, msgs: seq<MessageRound1>, count: nat)
    requires WellSized(msgs) && 0 < count <= |msgs| && me >= 1
    ensures |msgs[count - 1].pubkey| == 65
    ensures var before := KeysSoFar(c, me, own, msgs, count - 1);
            var parsed := ParsePoint(c, msgs[count - 1].pubkey);
            KeysSoFar(c, me, own, msgs, count) ==
            (if count == me then before + [own] else before) + if parsed.Ok? then [parsed.value] else []
  {
    var msg := msgs[count - 1];
    assert SizedMessage(msg);
    SizedPrefix(msgs, count);
    SizedPrefix(msgs, count - 1);
    assert msgs[..count] == msgs[..count - 1] + [msg];
    if count < me {
      ReadKeysSnoc(c, msgs[..count - 1], msg);
    } else {
      var tail := msgs[..count][me - 1..];
      SizedPrefix(msgs[..count], me - 1);
      SizedPrefix(msgs[..count - 1], me - 1);
      assert msgs[..count][..me - 1] == msgs[..count - 1][..me - 1];
      assert tail == msgs[..count - 1][me - 1..] + [msg];
      ReadKeysSnoc(c, msgs[..count - 1][me - 1..], msg);
      if count == me {
        assert msgs[..count - 1][me - 1..] == [];
        assert msgs[..count - 1][..me - 1] == msgs[..count - 1];
        assert PubKeys([]) == [];
      }
      hide ReadKeys, ParsePoint;
    }
  }

  /** A message of the wrong size panics, whatever comes before it. */
  lemma {:induction false} CollectPanics(c: Curve, me: nat, own: Point, msgs: seq<MessageRound1>, count: nat, k: nat)
    requires k < count <= |msgs| && !SizedMessage(msgs[k])
    ensures Collect(c, me, own, msgs, count) == Panic(SliceLengthMismatch)
  {
    hide ParsePoint, DecodeAll;
    if k < count - 1 {
      CollectPanics(c, me, own, msgs, count - 1, k);
    } else {
      CollectOnlyPanics(c, me, own, msgs, count - 1);
      DecodedList(c, msgs[k].ephemeralKeys);
    }
  }

  lemma {:induction false} CollectOnlyPanics(c: Curve, me: nat, own: Point, msgs: seq<MessageRound1>, count: nat)
    requires count <= |msgs|
    ensures Collect(c, me, own, msgs, count).Ok? || Collect(c, me, own, msgs, count) == Panic(SliceLengthMismatch)
  {
    hide ParsePoint, DecodeAll;
    if count == 0 {
    } else {
      CollectOnlyPanics(c, me, own, msgs, count - 1);
      DecodedList(c, msgs[count - 1].ephemeralKeys);
    }
  }

  /**
   What round 1 reads from any messages. It panics exactly when a key or a nonce is not 65 bytes.
   Otherwise the key list is the keys of the parties before one that parse, one's own key, and the
   keys of the parties after one that parse; and the nonces are those that parse, message by message.
   */
  lemma CollectOutcome(c: Curve, me: nat, own: Point, msgs: seq<MessageRound1>)
    requires 1 <= me <= |msgs| + 1
    ensures var o := Collect(c, me, own, msgs, |msgs|);
            if !WellSized(msgs) then o == Panic(SliceLengthMismatch)
            else
              && o.Ok? && o.value.1 == ReadNonces(c, msgs)
              && WithOwnKey(me, own, msgs, o.value.0) == KeyList(c, me, own, msgs)
  {
    if WellSized(msgs) {
      CollectReads(c, me, own, msgs, |msgs|);
      SizedPrefix(msgs, |msgs|);
      assert msgs[..|msgs|] == msgs && ReadNonces(c, msgs)[..|msgs|] == ReadNonces(c, msgs);
      if me == |msgs| + 1 {
        assert msgs[..me - 1] == msgs && msgs[me - 1..] == [];
        assert PubKeys([]) == [];
        assert ReadKeys(c, []) == [];
      }
    } else {
      var k :| 0 <= k < |msgs| && !SizedMessage(msgs[k]);
      CollectPanics(c, me, own, msgs, |msgs|, k);
    }
  }

  lemma {:induction false} AllParsable(c: Curve, s: seq<seq<byte>>, i: nat)
    requires i <= |s| && forall j :: 0 <= j < |s| ==> |s[j]| == 65
    ensures Parsable(c, s, i) == i <==> forall j :: 0 <= j < i ==> ParsePoint(c, s[j]).Ok?
  {
    hide ParsePoint;
    if i == 0 {
    } else {
      AllParsable(c, s, i - 1);
    }
  }

  /**
   Where one's own key is: behind the earlier keys that parse. So it is at `my_ind - 1`, the index
   under which its coefficient is looked up, exactly when all earlier keys parse.
   */
  lemma OwnKeyPlace(c: Curve, me: nat, own: Point, msgs: seq<MessageRound1>)
    requires WellSized(msgs) && 1 <= me <= |msgs| + 1
    ensures WellSized(msgs[..me - 1])
    ensures var place := |ReadKeys(c, msgs[..me - 1])|;
            && place <= me - 1 && place < |KeyList(c, me, own, msgs)| && KeyList(c, me, own, msgs)[place] == own
            && (place == me - 1 <==> forall j :: 0 <= j < me - 1 ==> ParsePoint(c, msgs[j].pubkey).Ok?)
  {
    SizedPrefix(msgs, me - 1);
    var place := |ReadKeys(c, msgs[..me - 1])|;
    assert KeyList(c, me, own, msgs)[place] == own by {
      hide ReadKeys;
    }
    hide *;
    ReadKeysLength(c, msgs, me - 1);
  }

  lemma ReadKeysLength(c: Curve, msgs: seq<MessageRound1>, k: nat)
    requires WellSized(msgs) && k <= |msgs|
    ensures WellSized(msgs[..k]) && |ReadKeys(c, msgs[..k])| <= k
    ensures forall j :: 0 <= j < k ==> |msgs[j].pubkey| == 65
    ensures |ReadKeys(c, msgs[..k])| == k <==> forall j :: 0 <= j < k ==> ParsePoint(c, msgs[j].pubkey).Ok?
  {
    SizedPrefix(msgs, k);
    var keys := PubKeys(msgs[..k]);
    KeysDecode(c, msgs[..k]);
    DecodedList(c, keys);
    AllParsable(c, keys, k);
    hide DecodeAll, ParsePoint, Parsable;
    assert forall j :: 0 <= j < k ==> keys[j] == msgs[j].pubkey;
  }

  // ---- computing with what was read ----

  /** The logarithms of curve points. */
  ghost function Logs(c: Curve, pts: seq<Point>): (ks: seq<nat>)
    requires c.Valid() && AllOnCurve(c, pts)
    ensures HaveLogs(c, pts, ks)
  {
    if pts == [] then []
    else
      assert c.OnCurve(pts[0]);
      var rest := Logs(c, pts[1..]);
      [c.Log(pts[0])] + rest
  }

  ghost predicate AllListsOnCurve(c: Curve, lists: seq<seq<Point>>) {
    forall k :: 0 <= k < |lists| ==> AllOnCurve(c, lists[k])
  }

  ghost predicate LongEnough(lists: seq<seq<Point>>, j: nat) {
    forall k :: 0 <= k < |lists| ==> j < |lists[k]|
  }

  /** The j-th point of every list. */
  function Column(lists: seq<seq<Point>>, j: nat): (r: seq<Point>)
    requires forall k :: 0 <= k < |lists| ==> j < |lists[k]|
    ensures |r| == |lists| && forall k :: 0 <= k < |lists| ==> r[k] == lists[k][j]
  {
    seq(|lists|, k requires 0 <= k < |lists| => lists[k][j])
  }

  /** Summing up a column of nonces is the fold of point additions over it. */
  lemma {:induction false} NonceSumIsFold(c: Curve, acc: Point, lists: seq<seq<Point>>, j: nat)
    requires LongEnough(lists, j)
    ensures NonceSum(c, acc, lists, j) == FoldPoints(c, acc, Column(lists, j)).OrPanic(ExpectedValid)
    decreases lists
  {
    if lists == [] {
    } else {
      assert Column(lists, j)[1..] == Column(lists[1..], j);
      var next := AddPoint(c, acc, lists[0][j]);
      if next.Ok? {
        NonceSumIsFold(c, next.value, lists[1..], j);
      }
    }
  }

  lemma {:induction false} ShortListPanics(c: Curve, acc: Point, lists: seq<seq<Point>>, j: nat)
    ensures NonceSum(c, acc, lists, j).Ok? || NonceSum(c, acc, lists, j).Panic?
    ensures !LongEnough(lists, j) ==> NonceSum(c, acc, lists, j).Panic?
    decreases lists
  {
    if lists == [] {
    } else {
      var next := AddPoint(c, acc, if j < |lists[0]| then lists[0][j] else Infinity);
      if j < |lists[0]| && next.Ok? {
        ShortListPanics(c, next.value, lists[1..], j);
        if LongEnough(lists[1..], j) {
          forall k | 0 <= k < |lists|
            ensures j < |lists[k]|
          {
            if k > 0 {
              assert lists[1..][k - 1] == lists[k];
            }
          }
        }
      }
    }
  }

  lemma ColumnOnCurve(c: Curve, lists: seq<seq<Point>>, j: nat)
    requires AllListsOnCurve(c, lists) && LongEnough(lists, j)
    ensures AllOnCurve(c, Column(lists, j))
  {
    hide Curve.OnCurve;
    forall k | 0 <= k < |lists|
      ensures c.OnCurve(Column(lists, j)[k])
    {
      assert AllOnCurve(c, lists[k]);
    }
  }

  /** The j-th nonces add up: every list has one, and no partial sum, own nonce first, is infinite. */
  ghost predicate ColumnAddsUp(c: Curve, own: nat, lists: seq<seq<Point>>, j: nat)
    requires c.Valid() && c.q > 0 && AllListsOnCurve(c, lists)
  {
    && LongEnough(lists, j)
    && (ColumnOnCurve(c, lists, j); NoPartialSumVanishes(c.q, own, Logs(c, Column(lists, j))))
  }

  ghost function ColumnLog(c: Curve, own: nat, lists: seq<seq<Point>>, j: nat): nat
    requires c.Valid() && AllListsOnCurve(c, lists) && LongEnough(lists, j)
  {
    ColumnOnCurve(c, lists, j);
    own + Sum(Logs(c, Column(lists, j)))
  }

  /** Aggregating any received nonces: their sum, or a panic. */
  lemma NonceSumOutcome(c: Curve, own: nat, lists: seq<seq<Point>>, j: nat)
    requires c.Valid() && c.q > 0 && AllListsOnCurve(c, lists)
    ensures if ColumnAddsUp(c, own, lists, j)
            then LongEnough(lists, j) && NonceSum(c, c.Exp(own), lists, j) == Ok(c.Exp(ColumnLog(c, own, lists, j)))
            else NonceSum(c, c.Exp(own), lists, j).Panic?
  {
    hide Curve.Valid, Curve.Exp, NonceSum, AllListsOnCurve, LongEnough, NoPartialSumVanishes;
    ShortListPanics(c, c.Exp(own), lists, j);
    if LongEnough(lists, j) {
      ColumnOnCurve(c, lists, j);
      assert forall k :: 0 <= k < |lists| ==> j < |lists[k]| by {
        LongEnoughIs(lists, j);
      }
      NonceSumIsFold(c, c.Exp(own), lists, j);
      var col := Column(lists, j);
      FoldPointsSucceedsIff(c, own, col, Logs(c, col));
      FoldPointsSum(c, own, col, Logs(c, col));
    }
  }

  lemma LongEnoughIs(lists: seq<seq<Point>>, j: nat)
    requires LongEnough(lists, j)
    ensures forall k :: 0 <= k < |lists| ==> j < |lists[k]|
  {
  }

  /** The coefficients for these keys. */
  function KeyWeights(c: Curve, pks: seq<Point>): (r: seq<nat>)
    ensures |r| == |pks|
  {
    KeyHashes(c, Xs(pks), Xs(pks))
  }

  /** Key aggregation never returns an error: an index out of range panics, and so does every failure. */
  lemma KeyAggregationNeverErrs(c: Curve, pks: seq<Point>, i: nat)
    ensures !KeyAggregation(c, pks, i).Err?
    ensures i >= |pks| ==> KeyAggregation(c, pks, i) == Panic(NoSuchParty)
    ensures i < |pks| && KeyAggregation(c, pks, i).Panic? ==> KeyAggregation(c, pks, i) == Panic(ExpectedValid)
  {
    KeyStepsNeverPanic(c, pks);
    hide XScalars, Coefficients, WeightKeys, FoldPoints;
  }

  lemma KeyStepsNeverPanic(c: Curve, pks: seq<Point>)
    ensures !XScalars(c, pks).Panic?
    ensures XScalars(c, pks).Ok? ==>
              var a := Coefficients(c, XScalars(c, pks).value, XScalars(c, pks).value);
              && !a.Panic?
              && (a.Ok? ==>
                    && !WeightKeys(c, pks, a.value).Panic?
                    && (WeightKeys(c, pks, a.value).Ok? && pks != [] ==>
                          !FoldPoints(c, WeightKeys(c, pks, a.value).value[0],
                                      WeightKeys(c, pks, a.value).value[1..]).Panic?))
  {
    hide XScalars, Coefficients, WeightKeys, FoldPoints;
    XScalarsNeverPanic(c, pks);
    if XScalars(c, pks).Ok? {
      var xs := XScalars(c, pks).value;
      CoefficientsNeverPanic(c, xs, xs);
      if Coefficients(c, xs, xs).Ok? {
        var a := Coefficients(c, xs, xs).value;
        WeightKeysIff(c, pks, a);
        if WeightKeys(c, pks, a).Ok? && pks != [] {
          FoldPointsNeverPanics(c, WeightKeys(c, pks, a).value[0], WeightKeys(c, pks, a).value[1..]);
        }
      }
    }
  }

  lemma {:induction false} CoefficientsNeverPanic(c: Curve, of: seq<nat>, xs: seq<nat>)
    ensures !Coefficients(c, of, xs).Panic?
  {
    hide HashScalars;
    if of == [] {
    } else {
      CoefficientsNeverPanic(c, of[1..], xs);
    }
  }

  lemma {:induction false} FoldPointsNeverPanics(c: Curve, acc: Point, pts: seq<Point>)
    ensures !FoldPoints(c, acc, pts).Panic?
    decreases pts
  {
    if pts == [] {
    } else {
      var next := AddPoint(c, acc, pts[0]);
      if next.Ok? {
        FoldPointsNeverPanics(c, next.value, pts[1..]);
      }
    }
  }

  /** The received keys aggregate for the party at index i. */
  ghost predicate KeysUsable(c: Curve, pks: seq<Point>, i: nat)
    requires c.Valid() && c.q > 0 && AllOnCurve(c, pks)
  {
    i < |pks| && KeysAggregate(c, pks, Logs(c, pks))
  }

  ghost function KeySum(c: Curve, pks: seq<Point>): Point
    requires c.Valid() && AllOnCurve(c, pks)
  {
    c.Exp(Dot(KeyWeights(c, pks), Logs(c, pks)))
  }

  lemma KeyAggregationOutcome(c: Curve, pks: seq<Point>, i: nat)
    requires c.Valid() && c.q > 0 && AllOnCurve(c, pks)
    ensures if KeysUsable(c, pks, i)
            then i < |pks| && KeyAggregation(c, pks, i) == Ok(KeyAgg(KeySum(c, pks), KeyWeights(c, pks)[i]))
            else KeyAggregation(c, pks, i) == Panic(if i < |pks| then ExpectedValid else NoSuchParty)
  {
    var ks := Logs(c, pks);
    KeyAggregationNeverErrs(c, pks, i);
    hide Curve.Valid, Curve.Exp, KeyHashes, AllOnCurve, AllXBelow, AllBelow, AllPositive, Dot, Logs;
    if i < |pks| {
      KeyAggregationIff(c, pks, ks, i);
      KeysAggregateIs(c, pks, ks);
      hide KeyAggregation, KeysAggregate, NoPartialSumVanishes;
      if KeysAggregate(c, pks, ks) {
        AggregateKeyLog(c, pks, ks, i);
        KeyAggregationIgnoresIndex(c, pks, i, i);
      }
    }
  }

  /** All received nonces add up. */
  ghost predicate NoncesUsable(c: Curve, st: State, lists: seq<seq<Point>>)
    requires c.Valid() && c.q > 0 && AllListsOnCurve(c, lists) && |st.ephk| == NV
  {
    ColumnAddsUp(c, st.ephk[0].sec, lists, 0) && ColumnAddsUp(c, st.ephk[1].sec, lists, 1)
  }

  lemma NonceSumsOutcome(c: Curve, st: State, lists: seq<seq<Point>>)
    requires c.Valid() && c.q > 0 && AllListsOnCurve(c, lists) && Consistent(c, st)
    ensures if NoncesUsable(c, st, lists)
            then
              && LongEnough(lists, 0) && LongEnough(lists, 1)
              && NonceSums(c, st, lists, NV) ==
                 Ok([c.Exp(ColumnLog(c, st.ephk[0].sec, lists, 0)), c.Exp(ColumnLog(c, st.ephk[1].sec, lists, 1))])
            else NonceSums(c, st, lists, NV).Panic?
  {
    NonceSumOutcome(c, st.ephk[0].sec, lists, 0);
    NonceSumOutcome(c, st.ephk[1].sec, lists, 1);
    hide Curve.Valid, Curve.Exp, NonceSum, ColumnAddsUp, ColumnLog, AllListsOnCurve, LongEnough;
    NonceSumsSteps(c, st, lists);
  }

  lemma NonceSumsSteps(c: Curve, st: State, lists: seq<seq<Point>>)
    requires |st.ephk| == NV
    ensures var s0, s1 := NonceSum(c, st.ephk[0].pub, lists, 0), NonceSum(c, st.ephk[1].pub, lists, 1);
            && (s0.Ok? && s1.Ok? ==> NonceSums(c, st, lists, NV) == Ok([s0.value, s1.value]))
            && (s0.Panic? || (s0.Ok? && s1.Panic?) ==> NonceSums(c, st, lists, NV).Panic?)
  {
    hide NonceSum;
    assert NonceSums(c, st, lists, 0) == Ok([]);
    var s0, s1 := NonceSum(c, st.ephk[0].pub, lists, 0), NonceSum(c, st.ephk[1].pub, lists, 1);
    if s0.Ok? {
      assert NonceSums(c, st, lists, 1) == Ok([] + [s0.value]);
      if s1.Ok? {
        assert [] + [s0.value] + [s1.value] == [s0.value, s1.value];
      }
    }
  }

  /** The parameters for this aggregate key and these aggregated nonces. */
  ghost function ParamsOf(c: Curve, message: seq<byte>, xTilde: Point, n0: nat, n1: nat): (params: GlobalParams)
    requires c.q > 0
    ensures |params.b| == NV && params.b[0] == 1
  {
    var b := BindingHash(c, xTilde, c.Exp(n0), c.Exp(n1), FromBytes(message));
    var r := c.Exp(NonceExponent([1, b], n0, n1));
    GlobalParams(ChallengeOf(c, XOf(r), xTilde, FromBytes(message) % c.q), r, [1, b])
  }

  lemma ParamsNeverPanic(c: Curve, message: seq<byte>, xTilde: Point, rs: seq<Point>)
    requires c.q > 0 && |rs| == NV
    ensures !ParamsFromNonces(c, message, xTilde, rs).Panic?
  {
    BindingsNeverPanic(c, xTilde, rs, message, NV);
    var bs := Bindings(c, xTilde, rs, message, NV);
    hide Bindings, XCoor, HashScalars;
    if bs.Ok? {
      var r0 := MulPoint(c, rs[0], bs.value[0]);
      WeightedNeverPanics(c, if r0.Ok? then r0.value else Infinity, rs[1..], bs.value[1..]);
    }
  }

  lemma {:induction false} XScalarsNeverPanic(c: Curve, pts: seq<Point>)
    ensures !XScalars(c, pts).Panic?
  {
    if pts == [] {
    } else {
      XScalarsNeverPanic(c, pts[1..]);
    }
  }

  lemma {:induction false} BindingsNeverPanic(c: Curve, xTilde: Point, rs: seq<Point>, message: seq<byte>, count: nat)
    requires |rs| >= NV && count >= 1
    ensures !Bindings(c, xTilde, rs, message, count).Panic?
  {
    hide HashScalars, XCoor;
    if count == 1 {
    } else {
      XScalarsNeverPanic(c, rs[..NV]);
      BindingsNeverPanic(c, xTilde, rs, message, count - 1);
    }
  }

  lemma {:induction false} WeightedNeverPanics(c: Curve, acc: Point, rs: seq<Point>, bs: seq<nat>)
    ensures !WeightedPoints(c, acc, rs, bs).Panic?
    decreases rs
  {
    if rs == [] || bs == [] {
    } else {
      var w := MulPoint(c, rs[0], bs[0]);
      if w.Ok? && AddPoint(c, acc, w.value).Ok? {
        WeightedNeverPanics(c, AddPoint(c, acc, w.value).value, rs[1..], bs[1..]);
      }
    }
  }

  /** A share is computed or refused; it panics only without nonces or coefficients. */
  lemma ShareNeverPanics(c: Curve, st: State, bs: seq<nat>, ch: nat, x: KeyPair, a: nat, isOdd: bool)
    requires c.q > 0
    ensures SignatureShare(c, st, bs, ch, x, a, isOdd).Panic? <==> st.ephk == [] || bs == []
  {
    if st.ephk != [] && bs != [] {
      var m := MulScalar(c, st.ephk[0].sec, bs[0]);
      if m.Ok? {
        ShareFoldNeverPanics(c, if isOdd then NegScalar(c, m.value) else m.value, st.ephk[1..], bs[1..], isOdd);
      }
      hide ShareFold, NegScalar;
    }
  }

  lemma {:induction false} ShareFoldNeverPanics(c: Curve, acc: nat, ephk: seq<KeyPair>, bs: seq<nat>, isOdd: bool)
    requires c.q > 0
    ensures !ShareFold(c, acc, ephk, bs, isOdd).Panic?
    decreases ephk
  {
    hide NegScalar;
    if ephk == [] || bs == [] {
    } else {
      var m := MulScalar(c, ephk[0].sec, bs[0]);
      if m.Ok? {
        var next := AddScalar(c, acc, if isOdd then NegScalar(c, m.value) else m.value);
        if next.Ok? {
          ShareFoldNeverPanics(c, next.value, ephk[1..], bs[1..], isOdd);
        }
      }
    }
  }

  /** Everything that has to be read and added up, can be. */
  ghost predicate Usable(c: Curve, st: State, pks: seq<Point>, lists: seq<seq<Point>>, i: nat)
    requires c.Valid() && c.q > 0 && AllOnCurve(c, pks) && AllListsOnCurve(c, lists) && |st.ephk| == NV
  {
    KeysUsable(c, pks, i) && NoncesUsable(c, st, lists)
  }

  lemma UsableLists(c: Curve, st: State, pks: seq<Point>, lists: seq<seq<Point>>, i: nat)
    requires c.Valid() && c.q > 0 && AllOnCurve(c, pks) && AllListsOnCurve(c, lists) && |st.ephk| == NV
    requires Usable(c, st, pks, lists, i)
    ensures LongEnough(lists, 0) && LongEnough(lists, 1) && i < |pks|
  {
    hide LongEnough, NoPartialSumVanishes, KeysAggregate, Curve.Valid;
  }

  /** The parameters exist for the keys and nonces read. */
  ghost predicate Derivable(c: Curve, st: State, message: seq<byte>, pks: seq<Point>, lists: seq<seq<Point>>)
    requires c.Valid() && c.q > 0 && AllOnCurve(c, pks) && AllListsOnCurve(c, lists) && |st.ephk| == NV
    requires LongEnough(lists, 0) && LongEnough(lists, 1)
  {
    ParametersExist(c, message, KeySum(c, pks), ColumnLog(c, st.ephk[0].sec, lists, 0),
                    ColumnLog(c, st.ephk[1].sec, lists, 1))
  }

  ghost function DerivedParams(c: Curve, st: State, message: seq<byte>, pks: seq<Point>, lists: seq<seq<Point>>)
    : (params: GlobalParams)
    requires c.Valid() && c.q > 0 && AllOnCurve(c, pks) && AllListsOnCurve(c, lists) && |st.ephk| == NV
    requires LongEnough(lists, 0) && LongEnough(lists, 1)
    ensures |params.b| == NV && params.b[0] == 1
  {
    ParamsOf(c, message, KeySum(c, pks), ColumnLog(c, st.ephk[0].sec, lists, 0),
             ColumnLog(c, st.ephk[1].sec, lists, 1))
  }

  /** Deriving the parameters from any keys and nonces: a panic, an error, or the values. */
  lemma ParametersOutcome(c: Curve, st: State, message: seq<byte>, pks: seq<Point>, lists: seq<seq<Point>>, i: nat)
    requires c.Valid() && c.q > 0 && AllOnCurve(c, pks) && AllListsOnCurve(c, lists) && Consistent(c, st)
    ensures var o := GlobalParameters(c, st, message, pks, lists, i);
            if !Usable(c, st, pks, lists, i) then o.Panic?
            else
              && LongEnough(lists, 0) && LongEnough(lists, 1)
              && if Derivable(c, st, message, pks, lists)
                 then o == Ok(DerivedParams(c, st, message, pks, lists))
                 else o.Err?
  {
    KeyAggregationOutcome(c, pks, i);
    NonceSumsOutcome(c, st, lists);
    hide Curve.Valid, Curve.Exp, AllOnCurve, AllListsOnCurve, Consistent, KeysUsable, NoncesUsable, KeyAggregation,
         NonceSums, ParamsFromNonces, LongEnough, ParametersExist, BindingHash, NonceExponent, ChallengeOf, ColumnLog,
         Dot, KeyHashes, Logs;
    GlobalParametersKinds(c, st, message, pks, lists, i);
    if Usable(c, st, pks, lists, i) {
      var x := KeySum(c, pks);
      var n0, n1 := ColumnLog(c, st.ephk[0].sec, lists, 0), ColumnLog(c, st.ephk[1].sec, lists, 1);
      c.ExpOnCurve(Dot(KeyWeights(c, pks), Logs(c, pks)));
      ParamsIff(c, message, x, n0, n1);
      ParamsNeverPanic(c, message, x, [c.Exp(n0), c.Exp(n1)]);
    }
  }

  lemma GlobalParametersKinds(c: Curve, st: State, message: seq<byte>, pks: seq<Point>, msgs: seq<seq<Point>>, i: nat)
    requires c.q > 0
    ensures var agg, rs := KeyAggregation(c, pks, i), NonceSums(c, st, msgs, NV);
            && (agg.Panic? || (agg.Ok? && rs.Panic?) ==> GlobalParameters(c, st, message, pks, msgs, i).Panic?)
            && (agg.Ok? && rs.Ok? ==>
                  GlobalParameters(c, st, message, pks, msgs, i) ==
                  ParamsFromNonces(c, message, agg.value.xTilde, rs.value))
  {
    hide KeyAggregation, NonceSums, ParamsFromNonces;
  }

  /** The share exists, with these parameters. */
  ghost predicate Signable(c: Curve, st: State, pks: seq<Point>, i: nat, params: GlobalParams)
    requires c.q > 0 && i < |pks| && |params.b| == NV && |st.ephk| == NV
  {
    ShareExists(c.q, st.ephk[0].sec, st.ephk[1].sec, params.b[1], params.c, st.keyPair.sec, KeyWeights(c, pks)[i],
                SignOf(c.OddY(params.r)))
  }

  /** The share satisfies the share equation with the coefficient at index i. */
  ghost predicate Signs(c: Curve, st: State, pks: seq<Point>, i: nat, params: GlobalParams, s: nat)
    requires c.q > 0 && i < |pks|
  {
    s < c.q && IsShare(c.q, s, st, KeyWeights(c, pks)[i], params.b, params.c, SignOf(c.OddY(params.r)))
  }

  /** `sign_prime` on any keys and nonces. */
  lemma SignPrimeOutcome(c: Curve, st: State, message: seq<byte>, pks: seq<Point>, lists: seq<seq<Point>>, i: nat)
    requires c.Valid() && c.q > 0 && AllOnCurve(c, pks) && AllListsOnCurve(c, lists) && Consistent(c, st)
    requires Usable(c, st, pks, lists, i) && LongEnough(lists, 0) && LongEnough(lists, 1) && i < |pks|
    requires Derivable(c, st, message, pks, lists)
    ensures var params := DerivedParams(c, st, message, pks, lists);
            var o := SignPrime(c, st, message, pks, lists, i);
            && GlobalParameters(c, st, message, pks, lists, i) == Ok(params)
            && if Signable(c, st, pks, i, params)
               then o.Ok? && o.value.r == params.r && Signs(c, st, pks, i, params, o.value.s)
               else o.Err?
  {
    hide *;
    ConsistentLength(c, st);
    ParametersOutcome(c, st, message, pks, lists, i);
    KeyAggregationOutcome(c, pks, i);
    UsableParts(c, st, pks, lists, i);
    WeightBounds(c, st, message, pks, lists, i);
    var params := DerivedParams(c, st, message, pks, lists);
    DerivedParts(c, st, message, pks, lists);
    SignPrimeKinds(c, st, message, pks, lists, i);
    ShareOutcome(c, st, pks, i, params);
  }

  lemma UsableParts(c: Curve, st: State, pks: seq<Point>, lists: seq<seq<Point>>, i: nat)
    requires c.Valid() && c.q > 0 && AllOnCurve(c, pks) && AllListsOnCurve(c, lists) && |st.ephk| == NV
    requires Usable(c, st, pks, lists, i)
    ensures KeysUsable(c, pks, i) && NoncesUsable(c, st, lists)
  {
    hide KeysUsable, NoncesUsable;
  }

  lemma ShareOutcome(c: Curve, st: State, pks: seq<Point>, i: nat, params: GlobalParams)
    requires c.Valid() && c.q > 0 && i < |pks| && |st.ephk| == NV
    requires |params.b| == NV && params.b[0] == 1 && 0 < params.b[1] < c.q && 0 < KeyWeights(c, pks)[i] < c.q
    ensures var o := SignatureShare(c, st, params.b, params.c, st.keyPair, KeyWeights(c, pks)[i], c.OddY(params.r));
            if Signable(c, st, pks, i, params) then o.Ok? && Signs(c, st, pks, i, params, o.value) else o.Err?
  {
    hide *;
    var a := KeyWeights(c, pks)[i];
    ListOfTwo(params.b);
    ShareIff(c, st, params.b[1], params.c, st.keyPair, a, c.OddY(params.r));
    ShareNeverPanics(c, st, params.b, params.c, st.keyPair, a, c.OddY(params.r));
    SignableIs(c, st, pks, i, params);
    var share := SignatureShare(c, st, params.b, params.c, st.keyPair, a, c.OddY(params.r));
    if share.Ok? {
      ShareEquation(c, st, params.b, params.c, st.keyPair, a, c.OddY(params.r));
      SignsIs(c, st, pks, i, params, share.value);
    }
  }

  lemma ListOfTwo(b: seq<nat>)
    requires |b| == NV && b[0] == 1
    ensures b == [1, b[1]]
  {
  }

  lemma DerivedParts(c: Curve, st: State, message: seq<byte>, pks: seq<Point>, lists: seq<seq<Point>>)
    requires c.Valid() && c.q > 0 && AllOnCurve(c, pks) && AllListsOnCurve(c, lists) && |st.ephk| == NV
    requires LongEnough(lists, 0) && LongEnough(lists, 1) && Derivable(c, st, message, pks, lists)
    ensures 0 < DerivedParams(c, st, message, pks, lists).b[1] < c.q
  {
    hide Curve.Valid, Curve.Exp, AllOnCurve, AllListsOnCurve, LongEnough, ColumnLog, KeySum, BindingHash, ChallengeOf,
         NonceExponent;
  }

  lemma WeightBounds(c: Curve, st: State, message: seq<byte>, pks: seq<Point>, lists: seq<seq<Point>>, i: nat)
    requires c.Valid() && c.q > 0 && AllOnCurve(c, pks) && AllListsOnCurve(c, lists) && |st.ephk| == NV
    requires Usable(c, st, pks, lists, i) && i < |pks|
    ensures 0 < KeyWeights(c, pks)[i] < c.q
  {
    hide Curve.Valid, AllOnCurve, AllListsOnCurve, NoncesUsable, NoPartialSumVanishes, Logs, HashValue;
    KeysAggregateIs(c, pks, Logs(c, pks));
  }

  lemma SignPrimeKinds(c: Curve, st: State, message: seq<byte>, pks: seq<Point>, msgs: seq<seq<Point>>, i: nat)
    requires c.q > 0 && KeyAggregation(c, pks, i).Ok? && GlobalParameters(c, st, message, pks, msgs, i).Ok?
    ensures var params := GlobalParameters(c, st, message, pks, msgs, i).value;
            var share := SignatureShare(c, st, params.b, params.c, st.keyPair, KeyAggregation(c, pks, i).value.a,
                                        c.OddY(params.r));
            SignPrime(c, st, message, pks, msgs, i) ==
            (match share
             case Ok(s) => Ok(StatePrime(params.r, s))
             case Err(e) => Err(e)
             case Panic(p) => Panic(p))
  {
    hide KeyAggregation, SignatureShare, GlobalParameters;
  }

  lemma SignableIs(c: Curve, st: State, pks: seq<Point>, i: nat, params: GlobalParams)
    requires c.q > 0 && i < |pks| && |params.b| == NV && |st.ephk| == NV
    ensures Signable(c, st, pks, i, params) <==>
            ShareExists(c.q, st.ephk[0].sec, st.ephk[1].sec, params.b[1], params.c, st.keyPair.sec,
                        KeyWeights(c, pks)[i], SignOf(c.OddY(params.r)))
  {
  }

  lemma SignsIs(c: Curve, st: State, pks: seq<Point>, i: nat, params: GlobalParams, s: nat)
    requires c.q > 0 && i < |pks| && s < c.q
    requires Cong(s, SignOf(c.OddY(params.r)) * Dot(Secs(st.ephk), params.b) +
                     params.c * (KeyWeights(c, pks)[i] * st.keyPair.sec), c.q)
    ensures Signs(c, st, pks, i, params, s)
  {
    hide Cong, Dot, KeyWeights;
  }

  // ---- round 1 as a whole ----

  lemma {:induction false} DecodedOnCurve(c: Curve, s: seq<seq<byte>>)
    requires DecodeAll(c, s).Ok?
    ensures AllOnCurve(c, DecodeAll(c, s).value)
  {
    hide Curve.OnCurve;
    if s == [] {
    } else {
      DecodedOnCurve(c, s[1..]);
      if ParsePoint(c, s[0]).Ok? {
        ParsedOnCurve(c, s[0]);
      }
      hide ParsePoint;
    }
  }

  lemma ParsedOnCurve(c: Curve, s: seq<byte>)
    requires |s| == 65 && ParsePoint(c, s).Ok?
    ensures c.OnCurve(ParsePoint(c, s).value)
  {
  }

  lemma ReadKeysOnCurve(c: Curve, msgs: seq<MessageRound1>)
    requires WellSized(msgs)
    ensures AllOnCurve(c, ReadKeys(c, msgs))
  {
    KeysDecode(c, msgs);
    DecodedOnCurve(c, PubKeys(msgs));
  }

  /** What is read lies on the curve. */
  lemma ReadOnCurve(c: Curve, me: nat, own: Point, msgs: seq<MessageRound1>)
    requires WellSized(msgs) && 1 <= me <= |msgs| + 1 && c.OnCurve(own)
    ensures AllOnCurve(c, KeyList(c, me, own, msgs)) && AllListsOnCurve(c, ReadNonces(c, msgs))
  {
    SizedPrefix(msgs, me - 1);
    ReadKeysOnCurve(c, msgs[..me - 1]);
    ReadKeysOnCurve(c, msgs[me - 1..]);
    var ns := ReadNonces(c, msgs);
    forall k | 0 <= k < |ns|
      ensures AllOnCurve(c, ns[k])
    {
      assert DecodeAll(c, msgs[k].ephemeralKeys) == Ok(ns[k]);
      DecodedOnCurve(c, msgs[k].ephemeralKeys);
    }
    hide Curve.OnCurve, DecodeAll, ReadKeys;
  }

  /** How round 1 ends once the messages have been read. */
  ghost predicate EndsOn(c: Curve, r: Round1, pks: seq<Point>, lists: seq<seq<Point>>, i: nat,
                         o: Outcome<(Round2, MessageRound2)>)
    requires c.Valid() && c.q > 0 && AllOnCurve(c, pks) && AllListsOnCurve(c, lists) && |r.state1.ephk| == NV
  {
    var st := r.state1;
    if !Usable(c, st, pks, lists, i) then o.Panic?
    else
      UsableLists(c, st, pks, lists, i);
      if !Derivable(c, st, r.message, pks, lists) then o.Err?
      else
        var params := DerivedParams(c, st, r.message, pks, lists);
        if !Signable(c, st, pks, i, params) then o.Err?
        else
          && o.Ok?
          && var (r2, m2) := o.value;
             && r2 == Round2(r.myInd, params.c, params.r, r2.state2, r.keyPair,
                             KeyAgg(KeySum(c, pks), KeyWeights(c, pks)[i]), r.message)
             && r2.state2.r == params.r && Signs(c, st, pks, i, params, r2.state2.s)
             && m2 == MessageRound2(SerializeScalar(r2.state2.s))
  }

  lemma Round1Kinds(c: Curve, r: Round1, input: BroadcastMsgs<MessageRound1>, pks: seq<Point>, lists: seq<seq<Point>>)
    requires c.q > 0 && r.myInd >= 1
    requires Collect(c, r.myInd, r.keyPair.pub, input.msgs, |input.msgs|).Ok?
    requires var collected := Collect(c, r.myInd, r.keyPair.pub, input.msgs, |input.msgs|).value;
             WithOwnKey(r.myInd, r.keyPair.pub, input.msgs, collected.0) == pks && collected.1 == lists
    ensures var i := r.myInd - 1;
            var agg, params := KeyAggregation(c, pks, i), GlobalParameters(c, r.state1, r.message, pks, lists, i);
            var sp, o := SignPrime(c, r.state1, r.message, pks, lists, i), Round1Step(c, r, input);
            && (agg.Panic? || params.Panic? ==> o.Panic?)
            && (agg.Ok? && params.Err? ==> o.Err?)
            && (agg.Ok? && params.Ok? && sp.Err? ==> o.Err?)
            && (agg.Ok? && params.Ok? && sp.Ok? ==>
                  o == Ok((Round2(r.myInd, params.value.c, params.value.r, sp.value, r.keyPair, agg.value, r.message),
                           MessageRound2(SerializeScalar(sp.value.s)))))
  {
    hide KeyAggregation, SignPrime, GlobalParameters, Collect, WithOwnKey, SerializeScalar;
    SignPrimePasses(c, r.state1, r.message, pks, lists, r.myInd - 1);
  }

  lemma SignPrimePasses(c: Curve, st: State, message: seq<byte>, pks: seq<Point>, lists: seq<seq<Point>>, i: nat)
    requires c.q > 0
    ensures var agg, params := KeyAggregation(c, pks, i), GlobalParameters(c, st, message, pks, lists, i);
            var sp := SignPrime(c, st, message, pks, lists, i);
            && (agg.Ok? && params.Panic? ==> sp.Panic?) && (agg.Ok? && params.Err? ==> sp.Err?)
            && (agg.Panic? ==> sp.Panic?) && !agg.Err?
  {
    KeyAggregationNeverErrs(c, pks, i);
    hide KeyAggregation, GlobalParameters, SignatureShare;
  }

  /**
   Round 1 on any messages. It panics when a key or nonce has the wrong size, when what was read
   leaves no key at one's own index or cannot be aggregated, or when a nonce is missing or a partial
   sum of nonces is infinite. It returns an error when the parameters or the share do not exist. And
   otherwise it moves on with the parameters and the share that belong to what was read.
   */
  lemma Round1Outcome(c: Curve, r: Round1, input: BroadcastMsgs<MessageRound1>)
    requires c.Valid() && c.q > 0 && Consistent(c, r.state1) && c.OnCurve(r.keyPair.pub)
    requires 1 <= r.myInd <= |input.msgs| + 1
    ensures |r.state1.ephk| == NV
    ensures var o := Round1Step(c, r, input);
            if !WellSized(input.msgs) then o == Panic(SliceLengthMismatch)
            else
              var pks, lists := KeyList(c, r.myInd, r.keyPair.pub, input.msgs), ReadNonces(c, input.msgs);
              && AllOnCurve(c, pks) && AllListsOnCurve(c, lists)
              && EndsOn(c, r, pks, lists, r.myInd - 1, o)
  {
    hide *;
    ConsistentLength(c, r.state1);
    CollectOutcome(c, r.myInd, r.keyPair.pub, input.msgs);
    if WellSized(input.msgs) {
      var pks, lists := KeyList(c, r.myInd, r.keyPair.pub, input.msgs), ReadNonces(c, input.msgs);
      ReadOnCurve(c, r.myInd, r.keyPair.pub, input.msgs);
      Round1Kinds(c, r, input, pks, lists);
      Round1OnRead(c, r, input, pks, lists);
    } else {
      Round1OnGarbage(c, r, input);
    }
  }

  /** The last party panics over any earlier key that does not parse: its own index is out of range. */
  lemma LastPartyNeedsAllKeys(c: Curve, r: Round1, input: BroadcastMsgs<MessageRound1>, k: nat)
    requires c.Valid() && c.q > 0 && Consistent(c, r.state1) && c.OnCurve(r.keyPair.pub)
    requires r.myInd == |input.msgs| + 1 && k < |input.msgs| && |input.msgs[k].pubkey| == 65
    requires !ParsePoint(c, input.msgs[k].pubkey).Ok?
    ensures Round1Step(c, r, input).Panic?
  {
    hide Curve.Valid, Curve.OnCurve, Consistent, ParsePoint, Round1Step, WellSized, EndsOn, ReadKeys, ReadNonces;
    Round1Outcome(c, r, input);
    if WellSized(input.msgs) {
      var msgs, me := input.msgs, r.myInd;
      ReadKeysLength(c, msgs, me - 1);
      assert msgs[me - 1..] == [];
      NoKeysRead(c);
      SizedPrefix(msgs, me - 1);
      assert |KeyList(c, me, r.keyPair.pub, msgs)| <= me - 1;
      NotUsable(c, r, KeyList(c, me, r.keyPair.pub, msgs), ReadNonces(c, msgs), me - 1, Round1Step(c, r, input));
    }
  }

  lemma NoKeysRead(c: Curve)
    ensures ReadKeys(c, []) == []
  {
    assert PubKeys([]) == [];
  }

  lemma NotUsable(c: Curve, r: Round1, pks: seq<Point>, lists: seq<seq<Point>>, i: nat,
                  o: Outcome<(Round2, MessageRound2)>)
    requires c.Valid() && c.q > 0 && AllOnCurve(c, pks) && AllListsOnCurve(c, lists) && |r.state1.ephk| == NV
    requires EndsOn(c, r, pks, lists, i, o) && i >= |pks|
    ensures o.Panic?
  {
    hide Curve.Valid, AllOnCurve, AllListsOnCurve, NoncesUsable, Derivable;
  }

  lemma Round1OnGarbage(c: Curve, r: Round1, input: BroadcastMsgs<MessageRound1>)
    requires c.q > 0 && r.myInd >= 1
    requires Collect(c, r.myInd, r.keyPair.pub, input.msgs, |input.msgs|) == Panic(SliceLengthMismatch)
    ensures Round1Step(c, r, input) == Panic(SliceLengthMismatch)
  {
    hide Collect, KeyAggregation, SignPrime, GlobalParameters;
  }

  lemma Round1OnRead(c: Curve, r: Round1, input: BroadcastMsgs<MessageRound1>, pks: seq<Point>, lists: seq<seq<Point>>)
    requires c.Valid() && c.q > 0 && Consistent(c, r.state1) && r.myInd >= 1 && |r.state1.ephk| == NV
    requires AllOnCurve(c, pks) && AllListsOnCurve(c, lists)
    requires Collect(c, r.myInd, r.keyPair.pub, input.msgs, |input.msgs|).Ok?
    requires var collected := Collect(c, r.myInd, r.keyPair.pub, input.msgs, |input.msgs|).value;
             WithOwnKey(r.myInd, r.keyPair.pub, input.msgs, collected.0) == pks && collected.1 == lists
    ensures EndsOn(c, r, pks, lists, r.myInd - 1, Round1Step(c, r, input))
  {
    hide *;
    var st, i := r.state1, r.myInd - 1;
    Round1Kinds(c, r, input, pks, lists);
    KeyAggregationNeverErrs(c, pks, i);
    KeyAggregationOutcome(c, pks, i);
    ParametersOutcome(c, st, r.message, pks, lists, i);
    if Usable(c, st, pks, lists, i) {
      UsableParts(c, st, pks, lists, i);
      UsableLists(c, st, pks, lists, i);
      if Derivable(c, st, r.message, pks, lists) {
        SignPrimeOutcome(c, st, r.message, pks, lists, i);
      }
    }
    EndsOnIs(c, r, pks, lists, i, Round1Step(c, r, input));
  }

  lemma EndsOnIs(c: Curve, r: Round1, pks: seq<Point>, lists: seq<seq<Point>>, i: nat,
                 o: Outcome<(Round2, MessageRound2)>)
    requires c.Valid() && c.q > 0 && AllOnCurve(c, pks) && AllListsOnCurve(c, lists) && |r.state1.ephk| == NV
    requires Usable(c, r.state1, pks, lists, i) ==> LongEnough(lists, 0) && LongEnough(lists, 1) && i < |pks|
    requires !Usable(c, r.state1, pks, lists, i) ==> o.Panic?
    requires Usable(c, r.state1, pks, lists, i) && !Derivable(c, r.state1, r.message, pks, lists) ==> o.Err?
    requires Usable(c, r.state1, pks, lists, i) && Derivable(c, r.state1, r.message, pks, lists) ==>
               var params := DerivedParams(c, r.state1, r.message, pks, lists);
               if !Signable(c, r.state1, pks, i, params) then o.Err?
               else
                 && o.Ok? && o.value.0.state2.r == params.r
                 && Signs(c, r.state1, pks, i, params, o.value.0.state2.s)
                 && o.value.0 == Round2(r.myInd, params.c, params.r, o.value.0.state2, r.keyPair,
                                        KeyAgg(KeySum(c, pks), KeyWeights(c, pks)[i]), r.message)
                 && o.value.1 == MessageRound2(SerializeScalar(o.value.0.state2.s))
    ensures EndsOn(c, r, pks, lists, i, o)
  {
    hide Usable, Derivable, DerivedParams, Signable, Signs, KeySum, KeyWeights, SerializeScalar, Curve.Valid,
         AllOnCurve, AllListsOnCurve, LongEnough;
  }
}
