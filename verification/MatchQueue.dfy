/** Matchmaking, src/match/match_queue.cpp. Waiting times are seconds as exact reals and ratings
    unbounded integers; the double and int roundings of the source are not modelled. */
module MatchQueue {
  import opened Common

  datatype Rule = Rule(maxDelta: int, expansion: int, minSize: nat, maxSize: nat)
  datatype Candidate = Candidate(party: nat, mmr: int, size: nat, enqueued: real)
  type Queue = seq<Candidate>

  const DEFAULT_RULE: Rule := Rule(100, 5, 1, 5)

  // ----- Compatibility -----

  predicate SizeOk(rule: Rule, size: nat) {
    rule.minSize <= size <= rule.maxSize
  }

  function Abs(x: int): nat {
    if x < 0 then -x else x
  }

  /** Conversion to an integer drops the fraction, towards zero on both sides. */
  function Truncate(x: real): int {
    if x >= 0.0 then x.Floor else -((-x).Floor)
  }

  function Wait(a: Candidate, b: Candidate, now: real): real {
    if now - a.enqueued < now - b.enqueued then now - a.enqueued else now - b.enqueued
  }

  function Widening(rule: Rule, wait: real): real {
    rule.expansion as real * wait
  }

  function Tolerance(rule: Rule, wait: real): int {
    rule.maxDelta + Truncate(Widening(rule, wait))
  }

  predicate Compatible(rule: Rule, a: Candidate, b: Candidate, now: real) {
    && SizeOk(rule, a.size) && SizeOk(rule, b.size)
    && Abs(a.mmr - b.mmr) <= Tolerance(rule, Wait(a, b, now))
  }

  lemma TruncateMonotone(x: real, y: real)
    requires x <= y
    ensures Truncate(x) <= Truncate(y)
  {
  }

  lemma WideningMonotone(rule: Rule, x: real, y: real)
    requires 0 <= rule.expansion && x <= y
    ensures Widening(rule, x) <= Widening(rule, y)
  {
  }

  lemma ToleranceGrows(rule: Rule, x: real, y: real)
    requires 0 <= rule.expansion && x <= y
    ensures Tolerance(rule, x) <= Tolerance(rule, y)
  {
    hide Truncate, Widening;
    WideningMonotone(rule, x, y);
    TruncateMonotone(Widening(rule, x), Widening(rule, y));
  }

  /** With a rule that does not shrink, compatibility is symmetric and waiting never loses it. */
  lemma CompatibilityLasts(rule: Rule, a: Candidate, b: Candidate, now: real, later: real)
    requires 0 <= rule.expansion && now <= later
    ensures Compatible(rule, a, b, now) <==> Compatible(rule, b, a, now)
    ensures Compatible(rule, a, b, now) ==> Compatible(rule, a, b, later)
  {
    ToleranceGrows(rule, Wait(a, b, now), Wait(a, b, later));
    hide Tolerance;
    assert Wait(a, b, now) == Wait(b, a, now);
  }

  /** Two parties fit exactly if both sizes are within the rule and the rating gap is covered: what it
      is beyond the base tolerance by the widening of the shorter wait, with its fraction dropped. */
  lemma CompatibleExactly(rule: Rule, a: Candidate, b: Candidate, now: real)
    ensures
      var gap := if a.mmr < b.mmr then b.mmr - a.mmr else a.mmr - b.mmr;
      var wait := if a.enqueued < b.enqueued then now - b.enqueued else now - a.enqueued;
      Compatible(rule, a, b, now)
      <==> && rule.minSize <= a.size <= rule.maxSize && rule.minSize <= b.size <= rule.maxSize
           && (gap > rule.maxDelta ==> (gap - rule.maxDelta) as real <= rule.expansion as real * wait)
           && (gap <= rule.maxDelta ==> (gap - rule.maxDelta - 1) as real < rule.expansion as real * wait)
  {
    assert Widening(rule, Wait(a, b, now)) == rule.expansion as real * Wait(a, b, now);
  }

  /** By default parties of 1 to 5 fit once both have waited a second for each 5 points their ratings
      are more than 100 apart, and from the first if they are not. */
  lemma DefaultRuleExactly(a: Candidate, b: Candidate, now: real)
    requires a.enqueued <= now && b.enqueued <= now
    ensures
      var gap := if a.mmr < b.mmr then b.mmr - a.mmr else a.mmr - b.mmr;
      Compatible(DEFAULT_RULE, a, b, now)
      <==> && 1 <= a.size <= 5 && 1 <= b.size <= 5
           && (gap - 100) as real <= 5.0 * (now - a.enqueued) && (gap - 100) as real <= 5.0 * (now - b.enqueued)
  {
    CompatibleExactly(DEFAULT_RULE, a, b, now);
    hide Compatible;
  }

  lemma WideningReaches(rule: Rule, wait: real, excess: int)
    requires 0 < rule.expansion
    ensures rule.expansion as real * wait >= excess as real <==> wait >= excess as real / rule.expansion as real
  {
    var rate := rule.expansion as real;
    assert excess as real == excess as real / rate * rate;
    assert wait >= excess as real / rate ==> wait * rate >= excess as real / rate * rate;
    assert wait < excess as real / rate ==> wait * rate < excess as real / rate * rate;
  }

  /** Under a widening rule two well-sized parties whose ratings are further apart than the base
      tolerance fit exactly from when both have waited the excess divided by the widening rate. */
  lemma CompatibleFrom(rule: Rule, a: Candidate, b: Candidate, now: real)
    requires 0 < rule.expansion
    requires rule.minSize <= a.size <= rule.maxSize && rule.minSize <= b.size <= rule.maxSize
    requires (if a.mmr < b.mmr then b.mmr - a.mmr else a.mmr - b.mmr) > rule.maxDelta
    ensures
      var gap := if a.mmr < b.mmr then b.mmr - a.mmr else a.mmr - b.mmr;
      var needed := (gap - rule.maxDelta) as real / rule.expansion as real;
      Compatible(rule, a, b, now) <==> now - a.enqueued >= needed && now - b.enqueued >= needed
  {
    var gap := if a.mmr < b.mmr then b.mmr - a.mmr else a.mmr - b.mmr;
    CompatibleExactly(rule, a, b, now);
    WideningReaches(rule, if a.enqueued < b.enqueued then now - b.enqueued else now - a.enqueued, gap - rule.maxDelta);
    hide Compatible;
  }

  /** Seconds after which the tolerance has grown by `gap`, rounded up. */
  function CeilDiv(gap: nat, rate: nat): nat
    requires 0 < rate
  {
    (gap + rate - 1) / rate
  }

  lemma CeilDivCovers(gap: nat, rate: nat)
    requires 0 < rate
    ensures gap <= rate * CeilDiv(gap, rate)
  {
    var n := gap + rate - 1;
    assert n == rate * (n / rate) + n % rate;
  }

  /** Under a widening rule any two well-sized parties become compatible: at the latest once both
      have waited the rating gap beyond the base tolerance, divided by the widening rate. */
  lemma BoundedWaiting(rule: Rule, a: Candidate, b: Candidate, now: real)
    requires 0 < rule.expansion && SizeOk(rule, a.size) && SizeOk(rule, b.size)
    requires
      var excess := Max(0, Abs(a.mmr - b.mmr) - rule.maxDelta);
      now - a.enqueued >= CeilDiv(excess, rule.expansion) as real
      && now - b.enqueued >= CeilDiv(excess, rule.expansion) as real
    ensures Compatible(rule, a, b, now)
  {
    var excess := Max(0, Abs(a.mmr - b.mmr) - rule.maxDelta);
    var need := CeilDiv(excess, rule.expansion);
    ToleranceGrows(rule, need as real, Wait(a, b, now));
    ToleranceCovers(rule, excess);
    hide Tolerance, CeilDiv;
  }

  lemma ToleranceCovers(rule: Rule, excess: nat)
    requires 0 < rule.expansion
    ensures rule.maxDelta + excess <= Tolerance(rule, CeilDiv(excess, rule.expansion) as real)
  {
    var need := CeilDiv(excess, rule.expansion);
    CeilDivCovers(excess, rule.expansion);
    assert Widening(rule, need as real) == (rule.expansion * need) as real;
  }

  // ----- One call on the queue -----

  function Find(q: Queue, party: nat): (k: nat)
    ensures k <= |q|
    ensures forall i :: 0 <= i < k ==> q[i].party != party
    ensures k < |q| ==> q[k].party == party
  {
    if q == [] || q[0].party == party then 0 else 1 + Find(q[1..], party)
  }

  function Without(q: Queue, party: nat): Queue {
    if q == [] then []
    else if q[0].party == party then Without(q[1..], party)
    else [q[0]] + Without(q[1..], party)
  }

  function RemoveAt(q: Queue, k: nat): Queue
    requires k < |q|
  {
    q[..k] + q[k + 1..]
  }

  function Enqueue(rule: Rule, q: Queue, c: Candidate): (Queue, bool) {
    if c.party == 0 || !SizeOk(rule, c.size) then (q, false)
    else if Find(q, c.party) < |q| then (q[Find(q, c.party) := c], true)
    else (q + [c], true)
  }

  function Cancel(q: Queue, party: nat): (Queue, bool) {
    (Without(q, party), Find(q, party) < |q|)
  }

  function UpdateSize(rule: Rule, q: Queue, party: nat, size: nat, now: real): (Queue, bool) {
    var k := Find(q, party);
    if k == |q| then (q, false)
    else if !SizeOk(rule, size) then (RemoveAt(q, k), true)
    else (q[k := q[k].(size := size, enqueued := now)], true)
  }

  /** (i, j) is the first compatible pair of positions, row by row. */
  ghost predicate FirstPair(rule: Rule, q: Queue, now: real, i: nat, j: nat) {
    && i < j < |q| && Compatible(rule, q[i], q[j], now)
    && forall a, b :: 0 <= a < b < |q| && (a < i || (a == i && b < j)) ==> !Compatible(rule, q[a], q[b], now)
  }

  ghost predicate NoPair(rule: Rule, q: Queue, now: real) {
    forall a, b :: 0 <= a < b < |q| ==> !Compatible(rule, q[a], q[b], now)
  }

  /** The pair `findMatch` picks. */
  ghost function FindPair(rule: Rule, q: Queue, now: real): (found: Option<(nat, nat)>)
    ensures found.Some? ==> FirstPair(rule, q, now, found.value.0, found.value.1)
  {
    if exists i: nat, j: nat :: FirstPair(rule, q, now, i, j) then
      var i: nat, j: nat :| FirstPair(rule, q, now, i, j);
      Some((i, j))
    else None
  }

  lemma FirstPairIsFound(rule: Rule, q: Queue, now: real, i: nat, j: nat)
    requires FirstPair(rule, q, now, i, j)
    ensures FindPair(rule, q, now) == Some((i, j))
  {
    var found := FindPair(rule, q, now).value;
    assert found.0 == i && found.1 == j;
  }

  /** Whenever some pair is compatible there is a first one. */
  lemma {:induction false} SomePairIsFirst(rule: Rule, q: Queue, now: real, i: nat, j: nat)
    requires i < j < |q| && Compatible(rule, q[i], q[j], now)
    ensures exists a: nat, b: nat :: FirstPair(rule, q, now, a, b)
    decreases i, j
  {
    hide Compatible;
    if !FirstPair(rule, q, now, i, j) {
      var a, b :| 0 <= a < b < |q| && (a < i || (a == i && b < j)) && Compatible(rule, q[a], q[b], now);
      SomePairIsFirst(rule, q, now, a, b);
    }
  }

  /** findMatch comes back empty-handed exactly when no two waiting parties are compatible. */
  lemma FindsWhenThereIs(rule: Rule, q: Queue, now: real)
    ensures FindPair(rule, q, now).None? <==> NoPair(rule, q, now)
  {
    hide Compatible;
    if !NoPair(rule, q, now) {
      var a, b :| 0 <= a < b < |q| && Compatible(rule, q[a], q[b], now);
      SomePairIsFirst(rule, q, now, a, b);
    }
  }

  // ----- What every call keeps -----

  /** No party waits twice, none is party 0, and every size is within the rule. */
  ghost predicate WellFormed(rule: Rule, q: Queue) {
    && (forall i, j :: 0 <= i < j < |q| ==> q[i].party != q[j].party)
    && (forall i :: 0 <= i < |q| ==> q[i].party != 0 && SizeOk(rule, q[i].size))
  }

  lemma EnqueueKeeps(rule: Rule, q: Queue, c: Candidate)
    requires WellFormed(rule, q)
    ensures WellFormed(rule, Enqueue(rule, q, c).0)
  {
    if Find(q, c.party) == |q| {
      assert forall i :: 0 <= i < |q| ==> q[i].party != c.party;
    }
  }

  lemma {:induction false} WithoutShape(q: Queue, party: nat)
    ensures forall c :: c in Without(q, party) <==> c in q && c.party != party
    ensures (forall i, j :: 0 <= i < j < |q| ==> q[i].party != q[j].party) ==>
      (forall i, j :: 0 <= i < j < |Without(q, party)| ==> Without(q, party)[i].party != Without(q, party)[j].party)
  {
    if q != [] {
      var rest := Without(q[1..], party);
      WithoutShape(q[1..], party);
      assert forall c :: c in q <==> c == q[0] || c in q[1..];
      if q[0].party != party {
        assert Without(q, party) == [q[0]] + rest;
        if forall i, j :: 0 <= i < j < |q| ==> q[i].party != q[j].party {
          forall j | 0 <= j < |rest| ensures rest[j].party != q[0].party {
            assert rest[j] in q[1..];
            var k :| 0 <= k < |q[1..]| && q[1..][k] == rest[j];
            assert q[k + 1] == rest[j];
          }
        }
      }
    }
  }

  lemma CancelKeeps(rule: Rule, q: Queue, party: nat)
    requires WellFormed(rule, q)
    ensures WellFormed(rule, Cancel(q, party).0)
  {
    WithoutShape(q, party);
    var rest := Without(q, party);
    forall i | 0 <= i < |rest| ensures rest[i].party != 0 && SizeOk(rule, rest[i].size) {
      assert rest[i] in q;
    }
  }

  lemma RemoveAtKeeps(rule: Rule, q: Queue, k: nat)
    requires WellFormed(rule, q) && k < |q|
    ensures WellFormed(rule, RemoveAt(q, k))
  {
    var rest := RemoveAt(q, k);
    assert forall i :: 0 <= i < |rest| ==> rest[i] == q[if i < k then i else i + 1];
  }

  lemma RemoveEitherFirst(q: Queue, i: nat, j: nat)
    requires i < j < |q|
    ensures RemoveAt(RemoveAt(q, i), j - 1) == RemoveAt(RemoveAt(q, j), i)
    ensures RemoveAt(q, i)[j - 1] == q[j]
  {
    var x, y := RemoveAt(RemoveAt(q, i), j - 1), RemoveAt(RemoveAt(q, j), i);
    forall k | 0 <= k < |q| - 2 ensures x[k] == y[k] {
      assert x[k] == q[if k < i then k else if k < j - 1 then k + 1 else k + 2];
    }
  }

  lemma MatchIsTwoCancels(rule: Rule, q: Queue, i: nat, j: nat)
    requires WellFormed(rule, q) && i < j < |q|
    ensures RemoveAt(RemoveAt(q, j), i) == Without(Without(q, q[i].party), q[j].party)
  {
    hide WellFormed, Without;
    var once := RemoveAt(q, i);
    RemoveAtKeeps(rule, q, i);
    WithoutIsRemoveAt(rule, q, i);
    RemoveEitherFirst(q, i, j);
    WithoutIsRemoveAt(rule, once, j - 1);
  }

  /** A match takes out two different waiting parties and leaves every other one in its place. */
  lemma MatchKeeps(rule: Rule, q: Queue, i: nat, j: nat)
    requires WellFormed(rule, q) && i < j < |q|
    ensures
      var rest := RemoveAt(RemoveAt(q, j), i);
      && WellFormed(rule, rest)
      && q[i].party != q[j].party
      && rest == Without(Without(q, q[i].party), q[j].party)
  {
    MatchIsTwoCancels(rule, q, i, j);
    CancelKeeps(rule, q, q[i].party);
    CancelKeeps(rule, Without(q, q[i].party), q[j].party);
  }

  lemma {:induction false} WithoutAbsent(q: Queue, party: nat)
    requires forall i :: 0 <= i < |q| ==> q[i].party != party
    ensures Without(q, party) == q
  {
    if q != [] {
      WithoutAbsent(q[1..], party);
    }
  }

  lemma {:induction false} WithoutIsRemoveAt(rule: Rule, q: Queue, k: nat)
    requires WellFormed(rule, q) && k < |q|
    ensures Without(q, q[k].party) == RemoveAt(q, k)
    decreases |q|
  {
    if k == 0 {
      WithoutAbsent(q[1..], q[0].party);
      assert RemoveAt(q, 0) == q[1..];
    } else {
      assert q[1..][k - 1] == q[k];
      WithoutIsRemoveAt(rule, q[1..], k - 1);
      assert RemoveAt(q, k) == [q[0]] + RemoveAt(q[1..], k - 1);
    }
  }

  /** A party is queued exactly if it is not party 0 and its size is within the rule: in place of the
      entry it has, or at the back. */
  lemma EnqueuesExactly(rule: Rule, q: Queue, c: Candidate)
    requires WellFormed(rule, q)
    ensures
      var (t, ok) := Enqueue(rule, q, c);
      && (ok <==> c.party != 0 && rule.minSize <= c.size <= rule.maxSize)
      && (!ok ==> t == q)
      && (ok ==> forall i :: 0 <= i < |q| && q[i].party == c.party ==> t == q[i := c])
      && (ok && (forall i :: 0 <= i < |q| ==> q[i].party != c.party) ==> t == q + [c])
  {
  }

  /** Exactly a waiting party is taken out, and the others keep their order. */
  lemma CancelsExactly(rule: Rule, q: Queue, party: nat)
    requires WellFormed(rule, q)
    ensures
      var (t, ok) := Cancel(q, party);
      && (ok <==> exists i :: 0 <= i < |q| && q[i].party == party)
      && (!ok ==> t == q)
      && forall i :: 0 <= i < |q| && q[i].party == party ==> t == q[..i] + q[i + 1..]
  {
    var k := Find(q, party);
    if k < |q| {
      WithoutIsRemoveAt(rule, q, k);
    } else {
      WithoutAbsent(q, party);
    }
  }

  /** A waiting party's new size is stored and its waiting starts over; with a size outside the rule
      it leaves the queue. */
  lemma UpdatesExactly(rule: Rule, q: Queue, party: nat, size: nat, now: real)
    requires WellFormed(rule, q)
    ensures
      var (t, ok) := UpdateSize(rule, q, party, size, now);
      && (ok <==> exists i :: 0 <= i < |q| && q[i].party == party)
      && (!ok ==> t == q)
      && forall i :: 0 <= i < |q| && q[i].party == party ==>
           t == if rule.minSize <= size <= rule.maxSize then q[i := Candidate(party, q[i].mmr, size, now)]
                else q[..i] + q[i + 1..]
  {
  }

  // ----- The queue object -----

  class MatchMaker {
    const rule: Rule
    var queue: Queue

    ghost predicate Valid()
      reads this
    {
      WellFormed(rule, queue)
    }

    constructor (rule: Rule)
      ensures Valid() && this.rule == rule && queue == []
    {
      this.rule, queue := rule, [];
    }

    method IndexOf(party: nat) returns (k: nat)
      ensures k == Find(queue, party)
    {
      k := 0;
      while k < |queue| && queue[k].party != party
        invariant k <= |queue|
        invariant forall i :: 0 <= i < k ==> queue[i].party != party
      {
        k := k + 1;
      }
    }

    method Add(c: Candidate) returns (ok: bool)
      requires Valid()
      modifies this
      ensures Valid() && (queue, ok) == Enqueue(rule, old(queue), c)
    {
      EnqueueKeeps(rule, queue, c);
      if c.party == 0 || c.size < rule.minSize || c.size > rule.maxSize {
        return false;
      }
      var k := IndexOf(c.party);
      if k < |queue| {
        queue := queue[k := c];
      } else {
        queue := queue + [c];
      }
      return true;
    }

    method CancelParty(party: nat) returns (ok: bool)
      requires Valid()
      modifies this
      ensures Valid() && (queue, ok) == Cancel(old(queue), party)
    {
      CancelKeeps(rule, queue, party);
      var found := IndexOf(party);
      ok := found < |queue|;
      var kept: Queue := [];
      for i := 0 to |queue|
        invariant kept + Without(queue[i..], party) == Without(queue, party)
      {
        assert queue[i..][1..] == queue[i + 1..];
        if queue[i].party != party {
          kept := kept + [queue[i]];
        }
      }
      assert kept + [] == kept;
      queue := kept;
    }

    method UpdatePartySize(party: nat, size: nat, now: real) returns (ok: bool)
      requires Valid()
      modifies this
      ensures Valid() && (queue, ok) == UpdateSize(rule, old(queue), party, size, now)
    {
      var k := IndexOf(party);
      if k == |queue| {
        return false;
      }
      if size < rule.minSize || size > rule.maxSize {
        RemoveAtKeeps(rule, queue, k);
        queue := queue[..k] + queue[k + 1..];
      } else {
        queue := queue[k := queue[k].(size := size, enqueued := now)];
      }
      return true;
    }

    /** Finds a pair only if there is one, and then the first, and takes exactly those two out. */
    method FindMatch(now: real) returns (found: Option<(Candidate, Candidate)>)
      requires Valid()
      modifies this
      ensures Valid()
      ensures found.None? ==> queue == old(queue) && NoPair(rule, queue, now)
      ensures found.Some? ==>
        exists i: nat, j: nat ::
          && FirstPair(rule, old(queue), now, i, j)
          && found.value == (old(queue)[i], old(queue)[j])
          && queue == RemoveAt(RemoveAt(old(queue), j), i)
    {
      for i := 0 to |queue|
        invariant queue == old(queue)
        invariant forall a, b :: 0 <= a < i && a < b < |queue| ==> !Compatible(rule, queue[a], queue[b], now)
      {
        for j := i + 1 to |queue|
          invariant queue == old(queue)
          invariant forall b :: i < b < j ==> !Compatible(rule, queue[i], queue[b], now)
        {
          if Compatible(rule, queue[i], queue[j], now) {
            assert FirstPair(rule, queue, now, i, j);
            MatchKeeps(rule, queue, i, j);
            found := Some((queue[i], queue[j]));
            queue := queue[..j] + queue[j + 1..];
            queue := queue[..i] + queue[i + 1..];
            return;
          }
        }
      }
      return None;
    }
  }
}
