/** The store of broadcast messages: a vector of n-1 slots that behaves as a map from sender to body. */
module Broadcast {
  import opened Wrappers

  /** A message on the wire; no receiver means a broadcast. */
  datatype Msg<+B> = Msg(sender: nat, receiver: Option<nat>, body: B)

  datatype StoreErr =
    | MsgOverwrite
    | UnknownSender(sender: nat)
    | ExpectedBroadcast
    | ItsFromMe
    | WantsMoreMessages

  datatype StoreResult<+T> = Accepted(value: T) | Rejected(error: StoreErr)

  const U16_MAX: nat := 65535

  /** Party indices as the drivers hand them out: 1 <= me <= n, and n is a u16. */
  predicate ValidIndex(me: nat, n: nat) {
    1 <= me <= n <= U16_MAX
  }

  predicate IsOther(me: nat, n: nat, party: nat) {
    1 <= party <= n && party != me
  }

  // ---- the bijection between slots and the other parties ----

  function SlotOf(me: nat, party: nat): nat
    requires me >= 1 && party >= 1 && party != me
  {
    if party < me then party - 1 else party - 2
  }

  function PartyAt(me: nat, slot: nat): nat
    requires me >= 1
  {
    if slot < me - 1 then slot + 1 else slot + 2
  }

  /** Slots 0..n-2 and the parties other than me correspond one to one, in ascending order. */
  lemma SlotBijection(me: nat, n: nat, party: nat, slot: nat)
    requires ValidIndex(me, n)
    ensures IsOther(me, n, party) ==> SlotOf(me, party) < n - 1 && PartyAt(me, SlotOf(me, party)) == party
    ensures slot < n - 1 ==> IsOther(me, n, PartyAt(me, slot)) && SlotOf(me, PartyAt(me, slot)) == slot
    ensures forall slot' :: 0 <= slot' < slot ==> PartyAt(me, slot') < PartyAt(me, slot)
  {
  }

  // ---- the store as a map ----

  /** `push_msg` on the abstract store. */
  function Push<B>(me: nat, n: nat, m: map<nat, B>, msg: Msg<B>): StoreResult<map<nat, B>> {
    if msg.sender == 0 then Rejected(UnknownSender(msg.sender))
    else if msg.receiver.Some? then Rejected(ExpectedBroadcast)
    else if msg.sender == me then Rejected(ItsFromMe)
    else if msg.sender > n then Rejected(UnknownSender(msg.sender))
    else if msg.sender in m then Rejected(MsgOverwrite)
    else Accepted(m[msg.sender := msg.body])
  }

  /** The map after a push that may have been refused. */
  function Accept<B>(me: nat, n: nat, m: map<nat, B>, msg: Msg<B>): map<nat, B> {
    match Push(me, n, m, msg)
    case Accepted(m') => m'
    case Rejected(_) => m
  }

  function AcceptAll<B>(me: nat, n: nat, msgs: seq<Msg<B>>): map<nat, B> {
    if msgs == [] then map[] else Accept(me, n, AcceptAll(me, n, msgs[..|msgs| - 1]), msgs[|msgs| - 1])
  }

  predicate IsValidFrom<B>(me: nat, n: nat, party: nat, msg: Msg<B>) {
    msg.sender == party && IsOther(me, n, party) && msg.receiver.None?
  }

  /** Exactly when each answer is given, and what an accepted message does to the store. */
  ghost predicate IsAnswer<B>(me: nat, n: nat, m: map<nat, B>, msg: Msg<B>, answer: StoreResult<map<nat, B>>) {
    && (answer.Accepted? <==> IsValidFrom(me, n, msg.sender, msg) && msg.sender !in m)
    && (answer.Accepted? ==> answer.value == m[msg.sender := msg.body])
    && (answer == Rejected(MsgOverwrite) <==> IsValidFrom(me, n, msg.sender, msg) && msg.sender in m)
    && (answer == Rejected(ItsFromMe) <==> msg.receiver.None? && msg.sender == me)
    && (answer == Rejected(ExpectedBroadcast) <==> msg.receiver.Some? && msg.sender != 0)
    && (answer == Rejected(UnknownSender(msg.sender)) <==> msg.sender == 0 || (msg.receiver.None? && msg.sender > n))
  }

  lemma PushAnswers<B>(me: nat, n: nat, m: map<nat, B>, msg: Msg<B>)
    requires ValidIndex(me, n)
    ensures IsAnswer(me, n, m, msg, Push(me, n, m, msg))
  {
  }

  /** The conditions exclude each other and leave no gap, so they determine the answer. */
  lemma AnswerIsDetermined<B>(me: nat, n: nat, m: map<nat, B>, msg: Msg<B>,
                              a: StoreResult<map<nat, B>>, b: StoreResult<map<nat, B>>)
    requires ValidIndex(me, n) && IsAnswer(me, n, m, msg, a) && IsAnswer(me, n, m, msg, b)
    ensures a == b
  {
  }

  /** After any sequence of pushes the store maps each sender to its first valid body. */
  lemma {:induction false} FirstBodyWins<B>(me: nat, n: nat, msgs: seq<Msg<B>>, party: nat)
    ensures party in AcceptAll(me, n, msgs) <==> exists i :: 0 <= i < |msgs| && IsValidFrom(me, n, party, msgs[i])
    ensures forall i :: 0 <= i < |msgs| && IsValidFrom(me, n, party, msgs[i]) &&
                        (forall j :: 0 <= j < i ==> !IsValidFrom(me, n, party, msgs[j])) ==>
                          party in AcceptAll(me, n, msgs) && AcceptAll(me, n, msgs)[party] == msgs[i].body
  {
    if msgs == [] {
    } else {
      var before, last := msgs[..|msgs| - 1], msgs[|msgs| - 1];
      FirstBodyWins(me, n, before, party);
      assert forall i :: 0 <= i < |before| ==> before[i] == msgs[i];
      assert IsValidFrom(me, n, party, msgs[|msgs| - 1]) <==> IsValidFrom(me, n, party, last);
    }
  }

  lemma AcceptKeepsFull<B>(me: nat, n: nat, m: map<nat, B>, msg: Msg<B>)
    requires Full(me, n, m)
    ensures Accept(me, n, m, msg) == m
  {
  }

  /** The map holds a message of every other party. */
  predicate Full<B>(me: nat, n: nat, m: map<nat, B>) {
    forall party :: 1 <= party <= n && party != me ==> party in m
  }

  predicate WellKeyed<B>(me: nat, n: nat, m: map<nat, B>) {
    forall party :: party in m ==> IsOther(me, n, party)
  }

  /** The bodies in ascending order of sender. */
  function Ascending<B>(me: nat, n: nat, m: map<nat, B>): (s: seq<B>)
    requires ValidIndex(me, n) && Full(me, n, m)
    ensures |s| == n - 1
    ensures forall slot :: 0 <= slot < n - 1 ==> s[slot] == m[PartyAt(me, slot)]
  {
    seq(n - 1, slot requires 0 <= slot < n - 1 => m[PartyAt(me, slot)])
  }

  /** The other parties from which nothing was accepted, ascending, starting the search at a slot. */
  function MissingFrom<B>(me: nat, n: nat, m: map<nat, B>, slot: nat): (r: seq<nat>)
    requires ValidIndex(me, n) && slot <= n - 1
    decreases n - 1 - slot
  {
    if slot == n - 1 then []
    else (if PartyAt(me, slot) in m then [] else [PartyAt(me, slot)]) + MissingFrom(me, n, m, slot + 1)
  }

  lemma MissingStep<B>(me: nat, n: nat, m: map<nat, B>, slot: nat, before: seq<nat>)
    requires ValidIndex(me, n) && slot < n - 1
    ensures var party := PartyAt(me, slot);
            before + MissingFrom(me, n, m, slot) ==
            (if party in m then before else before + [party]) + MissingFrom(me, n, m, slot + 1)
  {
    var rest := MissingFrom(me, n, m, slot + 1);
    assert [] + rest == rest;
    assert before + ([PartyAt(me, slot)] + rest) == before + [PartyAt(me, slot)] + rest;
  }

  lemma MissingEnd<B>(me: nat, n: nat, m: map<nat, B>, before: seq<nat>)
    requires ValidIndex(me, n)
    ensures before + MissingFrom(me, n, m, n - 1) == before
  {
  }

  predicate StrictlyAscending(s: seq<nat>) {
    forall i, j :: 0 <= i < j < |s| ==> s[i] < s[j]
  }

  predicate AtLeast(lo: nat, s: seq<nat>) {
    forall i :: 0 <= i < |s| ==> lo <= s[i]
  }

  lemma AtLeastLess(lo: nat, hi: nat, s: seq<nat>)
    requires lo <= hi && AtLeast(hi, s)
    ensures AtLeast(lo, s)
  {
  }

  lemma PrependAscending(x: nat, s: seq<nat>)
    requires StrictlyAscending(s) && AtLeast(x + 1, s)
    ensures StrictlyAscending([x] + s) && AtLeast(x, [x] + s)
  {
  }

  lemma {:induction false} MissingMembers<B>(me: nat, n: nat, m: map<nat, B>, slot: nat, party: nat)
    requires ValidIndex(me, n) && slot <= n - 1
    ensures party in MissingFrom(me, n, m, slot) <==>
            IsOther(me, n, party) && SlotOf(me, party) >= slot && party !in m
    decreases n - 1 - slot
  {
    if slot == n - 1 {
    } else {
      MissingMembers(me, n, m, slot + 1, party);
    }
  }

  lemma {:induction false} MissingAscends<B>(me: nat, n: nat, m: map<nat, B>, slot: nat)
    requires ValidIndex(me, n) && slot <= n - 1
    ensures StrictlyAscending(MissingFrom(me, n, m, slot))
    ensures AtLeast(PartyAt(me, slot), MissingFrom(me, n, m, slot))
    decreases n - 1 - slot
  {
    if slot == n - 1 {
    } else {
      var x, rest := PartyAt(me, slot), MissingFrom(me, n, m, slot + 1);
      MissingAscends(me, n, m, slot + 1);
      var next := PartyAt(me, slot + 1);
      assert x + 1 <= next;
      hide StrictlyAscending, AtLeast, PartyAt;
      AtLeastLess(x + 1, next, rest);
      if x in m {
        assert MissingFrom(me, n, m, slot) == [] + rest == rest;
        AtLeastLess(x, next, rest);
      } else {
        PrependAscending(x, rest);
        assert MissingFrom(me, n, m, slot) == [x] + rest;
      }
    }
  }

  /** The blamed list names exactly the silent parties, each once and in ascending order. */
  lemma MissingIsExact<B>(me: nat, n: nat, m: map<nat, B>)
    requires ValidIndex(me, n)
    ensures forall party: nat :: party in MissingFrom(me, n, m, 0) <==> IsOther(me, n, party) && party !in m
    ensures StrictlyAscending(MissingFrom(me, n, m, 0))
  {
    hide MissingFrom;
    MissingAscends(me, n, m, 0);
    forall party: nat
      ensures party in MissingFrom(me, n, m, 0) <==> IsOther(me, n, party) && party !in m
    {
      MissingMembers(me, n, m, 0, party);
    }
  }

  lemma MissingIffNotFull<B>(me: nat, n: nat, m: map<nat, B>)
    requires ValidIndex(me, n)
    ensures MissingFrom(me, n, m, 0) == [] <==> Full(me, n, m)
  {
    MissingIsExact(me, n, m);
    hide MissingFrom;
    if MissingFrom(me, n, m, 0) != [] {
      assert MissingFrom(me, n, m, 0)[0] in MissingFrom(me, n, m, 0);
    }
  }

  // ---- received messages ----

  /** What `finish` returns. */
  datatype BroadcastMsgs<+B> = BroadcastMsgs(myInd: nat, msgs: seq<B>)
  {
    /** The `Index` operator, on zero-based party indices; None where it panics. */
    function At(index: nat): Option<B>
      requires myInd >= 1
    {
      if index < myInd - 1 then (if index < |msgs| then Some(msgs[index]) else None)
      else if index > myInd - 1 then (if index - 1 < |msgs| then Some(msgs[index - 1]) else None)
      else None
    }
  }

  /** Index k yields the message of party k+1, and panics at one's own place and beyond n. */
  lemma IndexIsZeroBased<B>(me: nat, n: nat, m: map<nat, B>, k: nat)
    requires ValidIndex(me, n) && Full(me, n, m)
    ensures BroadcastMsgs(me, Ascending(me, n, m)).At(k) ==
            if IsOther(me, n, k + 1) then Some(m[k + 1]) else None
  {
    if IsOther(me, n, k + 1) {
      SlotBijection(me, n, k + 1, 0);
    }
  }

  // ---- the store ----

  function CountNone<B>(s: seq<Option<B>>): (count: nat)
    ensures count <= |s|
  {
    if s == [] then 0 else (if s[0].None? then 1 else 0) + CountNone(s[1..])
  }

  lemma {:induction false} CountNoneUpdate<B>(s: seq<Option<B>>, i: nat, b: B)
    requires i < |s| && s[i].None?
    ensures CountNone(s[i := Some(b)]) == CountNone(s) - 1
  {
    if i > 0 {
      CountNoneUpdate(s[1..], i - 1, b);
      assert s[i := Some(b)][1..] == s[1..][i - 1 := Some(b)];
    } else {
      assert s[i := Some(b)][1..] == s[1..];
    }
  }

  lemma {:induction false} CountNoneZero<B>(s: seq<Option<B>>)
    ensures CountNone(s) == 0 <==> forall i :: 0 <= i < |s| ==> s[i].Some?
  {
    if s == [] {
    } else {
      CountNoneZero(s[1..]);
      assert forall i :: 1 <= i < |s| ==> s[i] == s[1..][i - 1];
    }
  }

  lemma {:induction false} CountNoneAll<B>(s: seq<Option<B>>)
    requires forall i :: 0 <= i < |s| ==> s[i].None?
    ensures CountNone(s) == |s|
  {
    if s == [] {
    } else {
      CountNoneAll(s[1..]);
    }
  }

  /** The map that a vector of slots stands for. */
  ghost function MapOf<B>(me: nat, slots: seq<Option<B>>): (m: map<nat, B>)
    requires 1 <= me <= |slots| + 1
  {
    map party: nat | 1 <= party <= |slots| + 1 && party != me && slots[SlotOf(me, party)].Some?
      :: slots[SlotOf(me, party)].value
  }

  class BroadcastMsgsStore<M> {
    const partyI: nat
    ghost const partiesN: nat
    var msgs: seq<Option<M>>
    var msgsLeft: nat

    ghost predicate Valid()
      reads this
    {
      ValidIndex(partyI, partiesN) && |msgs| == partiesN - 1 && msgsLeft == CountNone(msgs)
    }

    /** The accepted bodies by sender. */
    ghost function Contents(): map<nat, M>
      requires Valid()
      reads this
    {
      MapOf(partyI, msgs)
    }

    constructor (me: nat, n: nat)
      requires ValidIndex(me, n)
      ensures Valid() && partyI == me && partiesN == n && Contents() == map[]
    {
      partyI := me;
      partiesN := n;
      msgs := seq(n - 1, i => None);
      msgsLeft := n - 1;
      new;
      CountNoneAll(msgs);
    }

    method PushMsg(msg: Msg<M>) returns (r: StoreResult<()>)
      requires Valid()
      modifies this
      ensures Valid()
      ensures match Push(partyI, partiesN, old(Contents()), msg)
              case Accepted(m) => r == Accepted(()) && Contents() == m && msgsLeft == old(msgsLeft) - 1
              case Rejected(e) => r == Rejected(e) && Contents() == old(Contents()) && msgsLeft == old(msgsLeft)
      ensures IsAnswer(partyI, partiesN, old(Contents()), msg,
                       if r.Accepted? then Accepted(Contents()) else Rejected(r.error))
    {
      PushAnswers(partyI, partiesN, Contents(), msg);
      if msg.sender == 0 {
        return Rejected(UnknownSender(msg.sender));
      }
      if msg.receiver.Some? {
        return Rejected(ExpectedBroadcast);
      }
      if msg.sender == partyI {
        return Rejected(ItsFromMe);
      }
      var partyJ := if msg.sender < partyI then msg.sender else msg.sender - 1;
      if partyJ - 1 >= |msgs| {
        return Rejected(UnknownSender(msg.sender));
      }
      if msgs[partyJ - 1].Some? {
        return Rejected(MsgOverwrite);
      }
      CountNoneUpdate(msgs, partyJ - 1, msg.body);
      msgs := msgs[partyJ - 1 := Some(msg.body)];
      msgsLeft := msgsLeft - 1;
      MapOfUpdate(partyI, old(msgs), msg.sender, msg.body);
      return Accepted(());
    }

    /** None for index 0, where the slot computation underflows. */
    method ContainsMsgFrom(sender: nat) returns (b: Option<bool>)
      requires Valid()
      ensures b == if sender == 0 then None else Some(sender in Contents())
    {
      if sender == partyI {
        return Some(false);
      }
      var partyJ := if sender < partyI then sender else sender - 1;
      if partyJ == 0 {
        return None;
      }
      return Some(partyJ - 1 < |msgs| && msgs[partyJ - 1].Some?);
    }

    method WantsMore() returns (b: bool)
      requires Valid()
      ensures b <==> !Full(partyI, partiesN, Contents())
    {
      FullIffNoneLeft(partyI, partiesN, msgs);
      return msgsLeft > 0;
    }

    method Finish() returns (r: StoreResult<BroadcastMsgs<M>>)
      requires Valid()
      ensures r == if Full(partyI, partiesN, Contents())
                   then Accepted(BroadcastMsgs(partyI, Ascending(partyI, partiesN, Contents())))
                   else Rejected(WantsMoreMessages)
    {
      FullIffNoneLeft(partyI, partiesN, msgs);
      if msgsLeft > 0 {
        return Rejected(WantsMoreMessages);
      }
      CountNoneZero(msgs);
      var out: seq<M> := [];
      for i := 0 to |msgs|
        invariant |out| == i
        invariant forall k :: 0 <= k < i ==> out[k] == msgs[k].value
      {
        out := out + [msgs[i].value];
      }
      forall slot | 0 <= slot < |msgs|
        ensures out[slot] == Contents()[PartyAt(partyI, slot)]
      {
        SlotBijection(partyI, partiesN, 1, slot);
      }
      assert out == Ascending(partyI, partiesN, Contents());
      return Accepted(BroadcastMsgs(partyI, out));
    }

    /** How many messages are missing, and from whom. */
    method Blame() returns (left: nat, guilty: seq<nat>)
      requires Valid()
      ensures left == |guilty| && guilty == MissingFrom(partyI, partiesN, Contents(), 0)
    {
      left, guilty := msgsLeft, [];
      MissingCount(partyI, msgs, 0);
      assert msgs[0..] == msgs;
      hide MapOf, MissingFrom;
      ghost var m := Contents();
      for i := 0 to |msgs|
        invariant guilty + MissingFrom(partyI, partiesN, m, i) == MissingFrom(partyI, partiesN, m, 0)
      {
        SlotOccupied(partyI, msgs, i);
        MissingStep(partyI, partiesN, m, i, guilty);
        if msgs[i].None? {
          guilty := guilty + [if i < partyI - 1 then i + 1 else i + 2];
        }
      }
      MissingEnd(partyI, partiesN, m, guilty);
    }
  }

  lemma SlotOccupied<B>(me: nat, slots: seq<Option<B>>, i: nat)
    requires ValidIndex(me, |slots| + 1) && i < |slots|
    ensures slots[i].Some? <==> PartyAt(me, i) in MapOf(me, slots)
  {
    SlotBijection(me, |slots| + 1, 1, i);
  }

  lemma {:induction false} MissingCount<B>(me: nat, slots: seq<Option<B>>, slot: nat)
    requires ValidIndex(me, |slots| + 1) && slot <= |slots|
    ensures |MissingFrom(me, |slots| + 1, MapOf(me, slots), slot)| == CountNone(slots[slot..])
    decreases |slots| - slot
  {
    hide MapOf;
    if slot == |slots| {
    } else {
      SlotOccupied(me, slots, slot);
      MissingCount(me, slots, slot + 1);
      assert slots[slot..][1..] == slots[slot + 1..];
    }
  }

  lemma MapOfUpdate<B>(me: nat, slots: seq<Option<B>>, party: nat, b: B)
    requires ValidIndex(me, |slots| + 1) && IsOther(me, |slots| + 1, party)
    ensures SlotOf(me, party) < |slots|
    ensures MapOf(me, slots[SlotOf(me, party) := Some(b)]) == MapOf(me, slots)[party := b]
  {
    var n := |slots| + 1;
    SlotBijection(me, n, party, 0);
    forall k | IsOther(me, n, k) && k != party
      ensures SlotOf(me, k) != SlotOf(me, party)
    {
      SlotBijection(me, n, k, 0);
    }
  }

  lemma FullIffNoneLeft<B>(me: nat, n: nat, slots: seq<Option<B>>)
    requires ValidIndex(me, n) && |slots| == n - 1
    ensures Full(me, n, MapOf(me, slots)) <==> CountNone(slots) == 0
  {
    CountNoneZero(slots);
    if Full(me, n, MapOf(me, slots)) {
      forall i | 0 <= i < |slots|
        ensures slots[i].Some?
      {
        SlotBijection(me, n, 1, i);
        assert PartyAt(me, i) in MapOf(me, slots);
      }
    }
  }
}
