/** One client session, src/net/session.cpp: the token bucket, the bounded send queue and the
    replay window. Times here are seconds as exact reals, as the bucket computes with them. */
module Session {
  import opened Common

  type Payload = seq<Byte>

  // ----- Token bucket -----

  datatype Bucket = Bucket(capacity: real, tokens: real, rate: real, last: real)

  function MinReal(a: real, b: real): real {
    if a < b then a else b
  }

  function Refill(last: real, rate: real, now: real): real {
    (now - last) * rate
  }

  function Consume(b: Bucket, amount: real, now: real): (Bucket, bool) {
    var refilled := MinReal(b.capacity, b.tokens + Refill(b.last, b.rate, now));
    if refilled >= amount then (b.(tokens := refilled - amount, last := now), true)
    else (b.(tokens := refilled, last := now), false)
  }

  datatype Request = Request(amount: real, now: real)

  function ConsumeAll(b: Bucket, rs: seq<Request>): Bucket
    decreases |rs|
  {
    if rs == [] then b else ConsumeAll(Consume(b, rs[0].amount, rs[0].now).0, rs[1..])
  }

  /** The amount granted over a run of requests. */
  function Granted(b: Bucket, rs: seq<Request>): real
    decreases |rs|
  {
    if rs == [] then 0.0
    else
      var (next, ok) := Consume(b, rs[0].amount, rs[0].now);
      (if ok then rs[0].amount else 0.0) + Granted(next, rs[1..])
  }

  ghost predicate BucketOk(b: Bucket) {
    0.0 <= b.tokens <= b.capacity && 0.0 <= b.rate
  }

  /** Amounts are not negative and the clock does not run backwards. */
  ghost predicate Timely(start: real, rs: seq<Request>)
    decreases |rs|
  {
    rs != [] ==> rs[0].amount >= 0.0 && start <= rs[0].now && Timely(rs[0].now, rs[1..])
  }

  lemma RefillAdds(rate: real, a: real, b: real, c: real)
    ensures Refill(a, rate, b) + Refill(b, rate, c) == Refill(a, rate, c)
  {
  }

  lemma RefillIsPositive(rate: real, a: real, b: real)
    requires 0.0 <= rate && a <= b
    ensures 0.0 <= Refill(a, rate, b)
  {
  }

  lemma ConsumeBound(b: Bucket, amount: real, now: real)
    requires BucketOk(b) && amount >= 0.0 && b.last <= now
    ensures
      var (next, ok) := Consume(b, amount, now);
      && BucketOk(next) && next.rate == b.rate && next.capacity == b.capacity && next.last == now
      && next.tokens + (if ok then amount else 0.0) <= b.tokens + Refill(b.last, b.rate, now)
  {
    RefillIsPositive(b.rate, b.last, now);
    hide Refill;
  }

  /** Over any window of requests the tokens stay within the capacity, and what is granted plus
      what is left is at most what was there plus the refill of the elapsed time. */
  lemma {:induction false} RateBound(b: Bucket, rs: seq<Request>)
    requires BucketOk(b) && Timely(b.last, rs)
    ensures
      var after := ConsumeAll(b, rs);
      && BucketOk(after) && after.rate == b.rate && b.last <= after.last
      && Granted(b, rs) + after.tokens <= b.tokens + Refill(b.last, b.rate, after.last)
    decreases |rs|
  {
    RefillIsPositive(b.rate, b.last, b.last);
    hide Consume, Refill;
    if rs != [] {
      var next := Consume(b, rs[0].amount, rs[0].now).0;
      ConsumeBound(b, rs[0].amount, rs[0].now);
      RateBound(next, rs[1..]);
      RefillAdds(b.rate, b.last, next.last, ConsumeAll(next, rs[1..]).last);
    }
  }

  /** A request finds the tokens that were there and those earned since, up to the capacity; it is
      granted exactly when they cover it, and what it is granted is all that goes. */
  lemma ConsumeExactly(b: Bucket, amount: real, now: real)
    ensures
      var (next, ok) := Consume(b, amount, now);
      var earned := b.tokens + (now - b.last) * b.rate;
      && (ok <==> amount <= b.capacity && amount <= earned)
      && next.tokens + (if ok then amount else 0.0) == (if earned <= b.capacity then earned else b.capacity)
      && next.capacity == b.capacity && next.rate == b.rate && next.last == now
  {
  }

  lemma ConsumeWith(b: Bucket, amount: real, now: real, earned: real)
    requires earned == b.tokens + (now - b.last) * b.rate
    ensures
      var (next, ok) := Consume(b, amount, now);
      && (ok <==> amount <= b.capacity && amount <= earned)
      && next.tokens + (if ok then amount else 0.0) == (if earned <= b.capacity then earned else b.capacity)
      && next.last == now
  {
    ConsumeExactly(b, amount, now);
    hide Consume;
  }

  lemma EarnedAfter(rate: real, missing: real, elapsed: real)
    requires rate > 0.0
    ensures missing <= elapsed * rate <==> missing / rate <= elapsed
  {
    assert missing == missing / rate * rate;
    if missing / rate <= elapsed {
      assert (elapsed - missing / rate) * rate >= 0.0;
    } else {
      assert (missing / rate - elapsed) * rate > 0.0;
    }
  }

  /** With a positive rate a request within the capacity is granted exactly from the moment on at
      which the missing tokens have been earned, and one beyond the capacity never. */
  lemma GrantedFrom(b: Bucket, amount: real, now: real)
    requires BucketOk(b) && b.rate > 0.0
    ensures Consume(b, amount, now).1 <==> amount <= b.capacity && b.last + (amount - b.tokens) / b.rate <= now
  {
    ConsumeExactly(b, amount, now);
    EarnedAfter(b.rate, amount - b.tokens, now - b.last);
    hide Consume;
  }

  function Capped(capacity: real, amount: real): real {
    if amount <= capacity then amount else capacity
  }

  /** What a bucket holds when nothing is granted from now on. */
  function Holds(b: Bucket, now: real): real {
    Capped(b.capacity, b.tokens + (now - b.last) * b.rate)
  }

  lemma HoldsOn(b: Bucket, amount: real, now: real, later: real)
    requires BucketOk(b) && b.last <= now <= later && !Consume(b, amount, now).1
    ensures Holds(Consume(b, amount, now).0, later) == Holds(b, later)
  {
    var next := Consume(b, amount, now).0;
    ConsumeExactly(b, amount, now);
    RefillAdds(b.rate, b.last, now, later);
    RefillIsPositive(b.rate, now, later);
    hide Consume;
    assert (now - b.last) * b.rate + (later - now) * b.rate == (later - b.last) * b.rate;
  }

  /** Refused requests cost nothing: after any run of them a request is answered as if it were the
      first. */
  lemma {:induction false} RefusalsAreFree(b: Bucket, rs: seq<Request>, amount: real, now: real)
    requires BucketOk(b) && Timely(b.last, rs + [Request(amount, now)]) && amount >= 0.0
    requires Granted(b, rs) == 0.0 && forall r :: r in rs ==> r.amount > 0.0
    ensures Consume(ConsumeAll(b, rs), amount, now).1 <==> amount <= Holds(b, now)
    decreases |rs|
  {
    if rs == [] {
      assert rs + [Request(amount, now)] == [Request(amount, now)];
      ConsumeExactly(b, amount, now);
    } else {
      var r, next := rs[0], Consume(b, rs[0].amount, rs[0].now).0;
      assert (rs + [Request(amount, now)])[1..] == rs[1..] + [Request(amount, now)];
      assert r in rs && forall q :: q in rs[1..] ==> q in rs;
      GrantedIsNotNegative(next, rs[1..]);
      ConsumeBound(b, r.amount, r.now);
      TimelyEnds(r.now, rs[1..], Request(amount, now));
      HoldsOn(b, r.amount, r.now, now);
      hide Consume, Holds;
      RefusalsAreFree(next, rs[1..], amount, now);
    }
  }

  lemma {:induction false} GrantedIsNotNegative(b: Bucket, rs: seq<Request>)
    requires forall r :: r in rs ==> r.amount > 0.0
    ensures Granted(b, rs) >= 0.0
    decreases |rs|
  {
    hide Consume;
    if rs != [] {
      assert rs[0] in rs && forall q :: q in rs[1..] ==> q in rs;
      GrantedIsNotNegative(Consume(b, rs[0].amount, rs[0].now).0, rs[1..]);
    }
  }

  lemma {:induction false} TimelyEnds(start: real, rs: seq<Request>, last: Request)
    requires Timely(start, rs + [last])
    ensures start <= last.now
    decreases |rs|
  {
    if rs == [] {
      assert rs + [last] == [last];
    } else {
      assert (rs + [last])[1..] == rs[1..] + [last];
      TimelyEnds(rs[0].now, rs[1..], last);
    }
  }

  /** One step of the bound below, in plain numbers. */
  lemma FloorStep(capacity: real, tokens: real, first: real, rest: real, next: real, granted: real, later: real)
    requires first >= 0.0 && rest >= 0.0 && granted >= 0.0
    requires next + granted == Capped(capacity, tokens + first)
    requires later >= Capped(capacity, next + rest)
    ensures granted + later >= Capped(capacity, tokens + (first + rest))
  {
  }

  /** Over any window of requests nothing that was there or was earned is lost but what a full
      bucket spills: what is granted and what is left are at least the tokens at the start plus the
      refill, or the capacity. */
  lemma {:induction false} RateFloor(b: Bucket, rs: seq<Request>)
    requires BucketOk(b) && Timely(b.last, rs)
    ensures
      var after := ConsumeAll(b, rs);
      Granted(b, rs) + after.tokens >= Capped(b.capacity, b.tokens + Refill(b.last, b.rate, after.last))
    decreases |rs|
  {
    if rs == [] {
      assert Refill(b.last, b.rate, b.last) == 0.0;
    } else {
      var (next, ok) := Consume(b, rs[0].amount, rs[0].now);
      ConsumeBound(b, rs[0].amount, rs[0].now);
      ConsumeExactly(b, rs[0].amount, rs[0].now);
      assert next.tokens + (if ok then rs[0].amount else 0.0)
          == Capped(b.capacity, b.tokens + Refill(b.last, b.rate, next.last));
      RateFloor(next, rs[1..]);
      RateBound(next, rs[1..]);
      var last := ConsumeAll(next, rs[1..]).last;
      RefillIsPositive(b.rate, b.last, next.last);
      RefillIsPositive(b.rate, next.last, last);
      RefillAdds(b.rate, b.last, next.last, last);
      hide Consume, Refill, Capped;
      FloorStep(b.capacity, b.tokens, Refill(b.last, b.rate, next.last), Refill(next.last, b.rate, last), next.tokens,
                if ok then rs[0].amount else 0.0, Granted(next, rs[1..]) + ConsumeAll(next, rs[1..]).tokens);
    }
  }

  // ----- Send queue -----

  datatype OverflowPolicy = DropNewest | DropOldest | Disconnect

  datatype Sending = Sending(
    policy: OverflowPolicy,
    limit: nat,
    connected: bool,
    bucket: Bucket,
    queue: seq<Payload>,
    bytes: int)

  function Bytes(queue: seq<Payload>): nat {
    if queue == [] then 0 else |queue[0]| + Bytes(queue[1..])
  }

  /** Drops from the front while something is queued and it does not fit with `extra` more. */
  function Trim(queue: seq<Payload>, limit: nat, extra: nat): seq<Payload>
    decreases |queue|
  {
    if queue == [] || Bytes(queue) + extra <= limit then queue else Trim(queue[1..], limit, extra)
  }

  function Enqueue(s: Sending, payload: Payload, now: real): (Sending, bool) {
    if !s.connected then (s, false)
    else
      var (bucket, ok) := Consume(s.bucket, |payload| as real, now);
      var paid := s.(bucket := bucket);
      if !ok then (paid, false)
      else if s.bytes + |payload| <= s.limit then
        (paid.(queue := s.queue + [payload], bytes := s.bytes + |payload|), true)
      else
        match s.policy
        case Disconnect => (paid.(connected := false), false)
        case DropNewest => (paid, false)
        case DropOldest =>
          var kept := Trim(s.queue, s.limit, |payload|);
          (paid.(queue := kept + [payload], bytes := Bytes(kept) + |payload|), true)
  }

  function Dequeue(s: Sending): (Sending, Option<Payload>) {
    if s.queue == [] then (s, None)
    else (s.(queue := s.queue[1..], bytes := s.bytes - |s.queue[0]|), Some(s.queue[0]))
  }

  /** A payload is taken exactly when the session is connected, the bucket covers it, and it fits
      beside what is queued or the policy makes room. Under Disconnect one that does not fit ends
      the connection; nothing else does. */
  lemma EnqueueExactly(s: Sending, payload: Payload, now: real)
    ensures
      var (next, ok) := Enqueue(s, payload, now);
      var size, earned := |payload| as real, s.bucket.tokens + (now - s.bucket.last) * s.bucket.rate;
      var paid, fits := s.connected && size <= s.bucket.capacity && size <= earned, s.bytes + |payload| <= s.limit;
      && (ok <==> paid && (fits || s.policy == DropOldest))
      && (next.connected <==> s.connected && !(paid && !fits && s.policy == Disconnect))
      && next.bucket.tokens + (if paid then size else 0.0)
         == (if !s.connected then s.bucket.tokens else if earned <= s.bucket.capacity then earned else s.bucket.capacity)
      && next.bucket.last == (if s.connected then now else s.bucket.last)
      && next == s.(connected := next.connected, bucket := next.bucket, queue := next.queue, bytes := next.bytes)
  {
    ConsumeWith(s.bucket, |payload| as real, now, s.bucket.tokens + (now - s.bucket.last) * s.bucket.rate);
    hide Consume, Trim, Bytes;
  }

  /** What is queued afterwards: nothing changes for a payload that is not taken; one that fits goes
      to the end; otherwise the fewest payloads go from the front that make room for it. */
  lemma EnqueueQueues(s: Sending, payload: Payload, now: real)
    requires s.bytes == Bytes(s.queue)
    ensures
      var (next, ok) := Enqueue(s, payload, now);
      && (!ok ==> next.queue == s.queue && next.bytes == s.bytes)
      && (ok && s.bytes + |payload| <= s.limit ==> next.queue == s.queue + [payload])
      && (ok ==> next.bytes == Bytes(next.queue))
      && (ok && s.bytes + |payload| > s.limit ==>
            exists n :: 0 <= n <= |s.queue| && next.queue == s.queue[n..] + [payload]
              && (n == |s.queue| || Bytes(s.queue[n..]) + |payload| <= s.limit)
              && forall m :: 0 <= m < n ==> Bytes(s.queue[m..]) + |payload| > s.limit)
  {
    var kept := Trim(s.queue, s.limit, |payload|);
    TrimKeepsLongest(s.queue, s.limit, |payload|);
    BytesAppend(s.queue, payload);
    BytesAppend(kept, payload);
    var n := |s.queue| - |kept|;
    assert kept == s.queue[n..] && (kept == [] <==> n == |s.queue|);
    hide Consume, Trim, Bytes;
  }

  /** The oldest payload, if there is one, leaves the queue and the byte count. */
  lemma DequeueExactly(s: Sending)
    ensures
      var (next, payload) := Dequeue(s);
      && (payload == None <==> |s.queue| == 0) && (payload == None ==> next == s)
      && (payload.Some? ==> s.queue == [payload.value] + next.queue && next.bytes == s.bytes - |payload.value|)
      && next == s.(queue := next.queue, bytes := next.bytes)
  {
  }

  /** Sizes add up, and one payload counts its length. */
  lemma {:induction false} BytesAdd(a: seq<Payload>, b: seq<Payload>)
    ensures Bytes(a + b) == Bytes(a) + Bytes(b)
    ensures |a| == 1 ==> Bytes(a) == |a[0]|
    decreases |a|
  {
    if a == [] {
      assert a + b == b;
    } else {
      assert (a + b)[1..] == a[1..] + b;
      BytesAdd(a[1..], b);
    }
  }

  datatype SendOp = Enq(payload: Payload, now: real) | Deq

  /** Where the payloads of a run went, in the order they left the queue. */
  datatype Exit = Sent(payload: Payload) | Dropped(payload: Payload)

  datatype Trace = Trace(state: Sending, accepted: seq<Payload>, exits: seq<Exit>, granted: real)

  function Drops(queue: seq<Payload>, n: nat): seq<Exit>
    requires n <= |queue|
  {
    seq(n, i requires 0 <= i < n => Dropped(queue[i]))
  }

  function SendStep(t: Trace, op: SendOp): Trace {
    match op
    case Enq(payload, now) =>
      var (next, ok) := Enqueue(t.state, payload, now);
      var spent := if t.state.connected && Consume(t.state.bucket, |payload| as real, now).1
                   then |payload| as real else 0.0;
      var lost := |t.state.queue| + (if ok then 1 else 0) - |next.queue|;
      Trace(next, if ok then t.accepted + [payload] else t.accepted,
            if 0 <= lost <= |t.state.queue| then t.exits + Drops(t.state.queue, lost) else t.exits,
            t.granted + spent)
    case Deq =>
      var (next, payload) := Dequeue(t.state);
      t.(state := next, exits := if payload.Some? then t.exits + [Sent(payload.value)] else t.exits)
  }

  function SendRun(t: Trace, ops: seq<SendOp>): Trace
    decreases |ops|
  {
    if ops == [] then t else SendRun(SendStep(t, ops[0]), ops[1..])
  }

  function Payloads(exits: seq<Exit>): seq<Payload> {
    seq(|exits|, i requires 0 <= i < |exits| => exits[i].payload)
  }

  /** The byte counter is exact, and the queue is within its limit, or under DropOldest it may be
      one oversized payload. */
  ghost predicate Bounded(s: Sending) {
    && s.bytes == Bytes(s.queue)
    && (s.bytes <= s.limit || (s.policy == DropOldest && |s.queue| == 1))
  }

  /** Everything accepted has left in order or still waits in order. */
  ghost predicate QueueOk(t: Trace) {
    && Bounded(t.state)
    && t.accepted == Payloads(t.exits) + t.state.queue
  }

  lemma BytesAppend(queue: seq<Payload>, p: Payload)
    ensures Bytes(queue + [p]) == Bytes(queue) + |p|
  {
    if queue != [] {
      assert (queue + [p])[1..] == queue[1..] + [p];
      BytesAppend(queue[1..], p);
    }
  }

  /** What `Trim` keeps is a suffix; it fits or is empty, and keeping one payload more would
      not fit, so it is the longest suffix that does. */
  lemma {:induction false} TrimKeepsLongest(queue: seq<Payload>, limit: nat, extra: nat)
    ensures
      var kept := Trim(queue, limit, extra);
      var n := |queue| - |kept|;
      && 0 <= n && kept == queue[n..]
      && (kept == [] || Bytes(kept) + extra <= limit)
      && (forall m :: 0 <= m < n ==> Bytes(queue[m..]) + extra > limit)
    decreases |queue|
  {
    if queue != [] && Bytes(queue) + extra > limit {
      TrimKeepsLongest(queue[1..], limit, extra);
      var kept := Trim(queue, limit, extra);
      var n := |queue| - |kept|;
      assert queue[1..][n - 1..] == queue[n..];
      forall m | 0 <= m < n ensures Bytes(queue[m..]) + extra > limit {
        if m == 0 {
          assert queue[0..] == queue;
        } else {
          assert queue[1..][m - 1..] == queue[m..];
        }
      }
    }
  }

  lemma PayloadsAppend(exits: seq<Exit>, queue: seq<Payload>, n: nat)
    requires n <= |queue|
    ensures Payloads(exits + Drops(queue, n)) + queue[n..] == Payloads(exits) + queue
  {
    assert Payloads(exits + Drops(queue, n)) == Payloads(exits) + queue[..n];
  }

  lemma PushKeepsBound(s: Sending, kept: seq<Payload>, payload: Payload)
    requires Bytes(kept) + |payload| <= s.limit || (kept == [] && s.policy == DropOldest)
    ensures Bounded(s.(queue := kept + [payload], bytes := Bytes(kept) + |payload|))
  {
    BytesAppend(kept, payload);
  }

  /** The new queue is what is left of the old one after `lost` drops, plus the payload if taken. */
  lemma EnqueueShape(s: Sending, payload: Payload, now: real)
    requires Bounded(s)
    ensures
      var (next, ok) := Enqueue(s, payload, now);
      var lost := |s.queue| + (if ok then 1 else 0) - |next.queue|;
      && 0 <= lost <= |s.queue|
      && next.queue == s.queue[lost..] + (if ok then [payload] else [])
      && Bounded(next)
  {
    hide Consume;
    hide Bytes;
    var kept := Trim(s.queue, s.limit, |payload|);
    var (bucket, ok) := Consume(s.bucket, |payload| as real, now);
    var paid := s.(bucket := bucket);
    TrimKeepsLongest(s.queue, s.limit, |payload|);
    hide Trim;
    assert s.queue[0..] == s.queue && s.queue + [] == s.queue;
    if s.connected && ok {
      if s.bytes + |payload| <= s.limit {
        PushKeepsBound(paid, s.queue, payload);
      } else if s.policy == DropOldest {
        PushKeepsBound(paid, kept, payload);
      }
    }
  }

  lemma EnqueueKeepsQueue(t: Trace, payload: Payload, now: real)
    requires QueueOk(t)
    ensures QueueOk(SendStep(t, Enq(payload, now)))
  {
    hide Consume;
    EnqueueShape(t.state, payload, now);
    var (next, ok) := Enqueue(t.state, payload, now);
    var lost := |t.state.queue| + (if ok then 1 else 0) - |next.queue|;
    PayloadsAppend(t.exits, t.state.queue, lost);
    hide Enqueue;
    if ok {
      assert t.accepted + [payload] == Payloads(t.exits + Drops(t.state.queue, lost)) + next.queue;
    }
  }

  lemma SentInOrder(accepted: seq<Payload>, exits: seq<Exit>, queue: seq<Payload>)
    requires queue != [] && accepted == Payloads(exits) + queue
    ensures accepted == Payloads(exits + [Sent(queue[0])]) + queue[1..]
  {
    assert Payloads(exits + [Sent(queue[0])]) == Payloads(exits) + [queue[0]];
    hide Payloads;
    assert queue == [queue[0]] + queue[1..];
  }

  lemma DequeueKeepsQueue(t: Trace)
    requires QueueOk(t)
    ensures QueueOk(SendStep(t, Deq))
    ensures t.state.queue != [] ==> SendStep(t, Deq).exits == t.exits + [Sent(t.state.queue[0])]
  {
    if t.state.queue != [] {
      SentInOrder(t.accepted, t.exits, t.state.queue);
      assert Bytes(t.state.queue) == |t.state.queue[0]| + Bytes(t.state.queue[1..]);
    }
    hide Payloads, Bytes;
  }

  /** Over every run: exact byte counter, bounded queue, first in first out, nothing lost or
      made up. */
  lemma {:induction false} SendRunConserves(t: Trace, ops: seq<SendOp>)
    requires QueueOk(t)
    ensures QueueOk(SendRun(t, ops))
    decreases |ops|
  {
    if ops != [] {
      match ops[0] {
        case Enq(payload, now) => EnqueueKeepsQueue(t, payload, now);
        case Deq => DequeueKeepsQueue(t);
      }
      SendRunConserves(SendStep(t, ops[0]), ops[1..]);
    }
  }

  ghost predicate SendTimely(start: real, ops: seq<SendOp>)
    decreases |ops|
  {
    ops != [] ==>
      match ops[0]
      case Enq(_, now) => start <= now && SendTimely(now, ops[1..])
      case Deq => SendTimely(start, ops[1..])
  }

  /** The clock after a call made at or after `start`. */
  function ClockAfter(start: real, op: SendOp): real {
    match op
    case Enq(_, now) => now
    case Deq => start
  }

  ghost predicate Within(t: Trace, after: Trace) {
    var b, c := t.state.bucket, after.state.bucket;
    && BucketOk(c) && c.rate == b.rate && b.last <= c.last
    && (Bytes(after.accepted) - Bytes(t.accepted)) as real <= after.granted - t.granted
    && after.granted - t.granted + c.tokens <= b.tokens + Refill(b.last, b.rate, c.last)
  }

  lemma SendStepRate(t: Trace, op: SendOp, clock: real)
    requires BucketOk(t.state.bucket) && t.state.bucket.last <= clock <= ClockAfter(clock, op)
    ensures Within(t, SendStep(t, op)) && SendStep(t, op).state.bucket.last <= ClockAfter(clock, op)
  {
    hide Consume, Refill;
    var b := t.state.bucket;
    match op
    case Enq(payload, now) =>
      ConsumeBound(b, |payload| as real, now);
      BytesAppend(t.accepted, payload);
      RefillIsPositive(b.rate, b.last, b.last);
    case Deq =>
      RefillIsPositive(b.rate, b.last, b.last);
  }

  /** The bytes a run accepts are at most the tokens at its start plus the refill since. */
  lemma {:induction false} SendRateBound(t: Trace, ops: seq<SendOp>, clock: real)
    requires BucketOk(t.state.bucket) && t.state.bucket.last <= clock && SendTimely(clock, ops)
    ensures Within(t, SendRun(t, ops))
    decreases |ops|
  {
    hide SendStep;
    if ops == [] {
      RefillIsPositive(t.state.bucket.rate, t.state.bucket.last, t.state.bucket.last);
    } else {
      var next := SendStep(t, ops[0]);
      SendStepRate(t, ops[0], clock);
      SendRateBound(next, ops[1..], ClockAfter(clock, ops[0]));
      RefillAdds(t.state.bucket.rate, t.state.bucket.last, next.state.bucket.last, SendRun(next, ops[1..]).state.bucket.last);
    }
  }

  // ----- Replay window -----

  function LastN<T>(s: seq<T>, n: nat): seq<T> {
    if |s| <= n then s else s[|s| - n..]
  }

  function RecordNonce(window: seq<U64>, limit: nat, nonce: U64): (seq<U64>, bool) {
    if nonce in window then (window, false) else (LastN(window + [nonce], limit), true)
  }

  function NonceRun(window: seq<U64>, limit: nat, nonces: seq<U64>): (seq<U64>, seq<U64>)
    decreases |nonces|
  {
    if nonces == [] then (window, [])
    else
      var (next, ok) := RecordNonce(window, limit, nonces[0]);
      var (last, accepted) := NonceRun(next, limit, nonces[1..]);
      (last, (if ok then [nonces[0]] else []) + accepted)
  }

  ghost predicate Distinct(s: seq<U64>) {
    forall i, j :: 0 <= i < j < |s| ==> s[i] != s[j]
  }

  lemma LastNAppend(past: seq<U64>, n: nat, x: U64)
    ensures LastN(LastN(past, n) + [x], n) == LastN(past + [x], n)
    ensures Distinct(LastN(past, n)) && x !in LastN(past, n) ==> Distinct(LastN(past + [x], n))
  {
    var window := LastN(past, n);
    assert LastN(window + [x], n) == LastN(past + [x], n);
    if Distinct(window) && x !in window {
      assert Distinct(window + [x]);
    }
  }

  lemma {:induction false} WindowFollows(past: seq<U64>, limit: nat, nonces: seq<U64>)
    requires Distinct(LastN(past, limit))
    ensures
      var (window, accepted) := NonceRun(LastN(past, limit), limit, nonces);
      window == LastN(past + accepted, limit) && Distinct(window)
    decreases |nonces|
  {
    if nonces == [] {
      assert past + [] == past;
    } else if nonces[0] in LastN(past, limit) {
      WindowFollows(past, limit, nonces[1..]);
      var accepted := NonceRun(LastN(past, limit), limit, nonces[1..]).1;
      assert [] + accepted == accepted;
    } else {
      LastNAppend(past, limit, nonces[0]);
      WindowFollows(past + [nonces[0]], limit, nonces[1..]);
      var accepted := NonceRun(LastN(past + [nonces[0]], limit), limit, nonces[1..]).1;
      assert past + ([nonces[0]] + accepted) == past + [nonces[0]] + accepted;
    }
  }

  /** After any run the window is the last `limit` accepted nonces, all different, and the next
      nonce is refused exactly when it is one of them. */
  lemma ReplayWindow(limit: nat, nonces: seq<U64>, nonce: U64)
    ensures
      var (window, accepted) := NonceRun([], limit, nonces);
      && window == LastN(accepted, limit) && Distinct(window)
      && (RecordNonce(window, limit, nonce).1 <==> nonce !in LastN(accepted, limit))
  {
    assert LastN<U64>([], limit) == [];
    WindowFollows([], limit, nonces);
    var accepted := NonceRun([], limit, nonces).1;
    assert [] + accepted == accepted;
  }

  // ----- The replay gate in front of every packet -----

  datatype Gate = Gate(lastSeq: U64, window: seq<U64>, limit: nat)

  /** server.cpp's replay check: a larger sequence number first, then a nonce outside the window. */
  function PassGate(g: Gate, seqNo: U32, nonce: U64): (Gate, bool) {
    if seqNo <= g.lastSeq then (g, false)
    else
      var (window, ok) := RecordNonce(g.window, g.limit, nonce);
      if !ok then (g, false) else (g.(lastSeq := seqNo, window := window), true)
  }

  /** A stamp passes exactly when its number is above the last one and its nonce is not remembered.
      Then its number is the last one and its nonce is remembered, the oldest going once there are
      more than the limit; otherwise the gate is as before. */
  lemma PassesExactly(g: Gate, seqNo: U32, nonce: U64)
    ensures
      var (next, ok) := PassGate(g, seqNo, nonce);
      && (ok <==> g.lastSeq < seqNo && nonce !in g.window)
      && next.limit == g.limit
      && (ok ==> next.lastSeq == seqNo)
      && (ok && |g.window| < g.limit ==> next.window == g.window + [nonce])
      && (ok && |g.window| >= g.limit > 0 ==> next.window == g.window[|g.window| + 1 - g.limit..] + [nonce])
      && (ok && g.limit == 0 ==> next.window == [])
      && (!ok ==> next == g)
  {
  }

  datatype Stamp = Stamp(seqNo: U32, nonce: U64)

  function Passed(g: Gate, stamps: seq<Stamp>): seq<Stamp>
    decreases |stamps|
  {
    if stamps == [] then []
    else
      var (next, ok) := PassGate(g, stamps[0].seqNo, stamps[0].nonce);
      (if ok then [stamps[0]] else []) + Passed(next, stamps[1..])
  }

  ghost predicate RisesAbove(low: U64, stamps: seq<Stamp>) {
    && (forall i :: 0 <= i < |stamps| ==> low < stamps[i].seqNo)
    && (forall i, j :: 0 <= i < j < |stamps| ==> stamps[i].seqNo < stamps[j].seqNo)
  }

  lemma RisesPrepend(low: U64, stamp: Stamp, rest: seq<Stamp>)
    requires low < stamp.seqNo && RisesAbove(stamp.seqNo, rest)
    ensures RisesAbove(low, [stamp] + rest)
  {
    var all := [stamp] + rest;
    forall i, j | 0 <= i < j < |all| ensures all[i].seqNo < all[j].seqNo {
      assert all[j] == rest[j - 1];
    }
  }

  /** The sequence numbers that pass on one session rise strictly, above its last one. */
  lemma {:induction false} PassedSequenceRises(g: Gate, stamps: seq<Stamp>)
    ensures RisesAbove(g.lastSeq, Passed(g, stamps))
    decreases |stamps|
  {
    hide RecordNonce;
    if stamps != [] {
      var (next, ok) := PassGate(g, stamps[0].seqNo, stamps[0].nonce);
      var rest := Passed(next, stamps[1..]);
      PassedSequenceRises(next, stamps[1..]);
      if ok {
        RisesPrepend(g.lastSeq, stamps[0], rest);
      } else {
        assert [] + rest == rest;
      }
    }
  }

  // ----- The session object -----

  datatype UserContext = UserContext(user: string, token: string)

  class TokenBucket {
    const capacity: real
    const refillRate: real
    var tokens: real
    var lastRefill: real

    function View(): Bucket
      reads this
    {
      Bucket(capacity, tokens, refillRate, lastRefill)
    }

    constructor (capacity: real, rate: real, now: real)
      ensures View() == Bucket(capacity, capacity, rate, now)
    {
      this.capacity, refillRate, tokens, lastRefill := capacity, rate, capacity, now;
    }

    method ConsumeTokens(amount: real, now: real) returns (ok: bool)
      modifies this
      ensures (View(), ok) == Consume(old(View()), amount, now)
    {
      hide Refill;
      var refilled := tokens + Refill(lastRefill, refillRate, now);
      tokens := MinReal(capacity, refilled);
      lastRefill := now;
      if tokens >= amount {
        tokens := tokens - amount;
        return true;
      }
      return false;
    }
  }

  class ClientSession {
    const id: SessionId
    const policy: OverflowPolicy
    const sendLimit: nat
    const nonceLimit: nat
    const timeout: Time
    const bucket: TokenBucket
    var connected: bool
    var lastReceive: Time
    var protocolVersion: U16
    var sendQueue: seq<Payload>
    var sendQueueBytes: int
    var userContext: Option<UserContext>
    var lastSeq: U64
    var nonceCache: set<U64>
    var nonceOrder: seq<U64>

    ghost predicate Valid()
      reads this
    {
      && sendQueueBytes == Bytes(sendQueue)
      && nonceCache == (set n | n in nonceOrder)
      && Distinct(nonceOrder)
      && |nonceOrder| <= nonceLimit
    }

    function View(): Sending
      reads this, bucket
    {
      Sending(policy, sendLimit, connected, bucket.View(), sendQueue, sendQueueBytes)
    }

    constructor (id: SessionId, policy: OverflowPolicy, sendLimit: nat, nonceLimit: nat, timeout: Time,
                 capacity: real, rate: real, clock: real, now: Time)
      ensures Valid() && fresh(bucket) && this.id == id && this.timeout == timeout && this.nonceLimit == nonceLimit
      ensures connected && lastReceive == now && protocolVersion == 0 && userContext == None && lastSeq == 0 && nonceOrder == []
      ensures View() == Sending(policy, sendLimit, true, Bucket(capacity, capacity, rate, clock), [], 0)
    {
      this.id, this.policy, this.sendLimit, this.nonceLimit, this.timeout := id, policy, sendLimit, nonceLimit, timeout;
      bucket := new TokenBucket(capacity, rate, clock);
      connected, lastReceive, sendQueue, sendQueueBytes := true, now, [], 0;
      userContext, lastSeq, nonceCache, nonceOrder := None, 0, {}, [];
      protocolVersion := 0;
    }

    method EnqueueSend(payload: Payload, now: real) returns (ok: bool)
      requires Valid()
      modifies this`connected, this`sendQueue, this`sendQueueBytes, bucket
      ensures Valid() && (View(), ok) == Enqueue(old(View()), payload, now)
    {
      if !connected {
        return false;
      }
      var paid := bucket.ConsumeTokens(|payload| as real, now);
      if !paid {
        return false;
      }
      var nextSize := sendQueueBytes + |payload|;
      if nextSize > sendLimit {
        if policy == Disconnect {
          connected := false;
          return false;
        }
        if policy == DropNewest {
          return false;
        }
        while sendQueue != [] && nextSize > sendLimit
          modifies this`sendQueue, this`sendQueueBytes
          invariant sendQueueBytes == Bytes(sendQueue)
          invariant nextSize == sendQueueBytes + |payload|
          invariant Trim(sendQueue, sendLimit, |payload|) == Trim(old(sendQueue), sendLimit, |payload|)
          decreases |sendQueue|
        {
          nextSize := nextSize - |sendQueue[0]|;
          sendQueueBytes := sendQueueBytes - |sendQueue[0]|;
          sendQueue := sendQueue[1..];
        }
      }
      BytesAppend(sendQueue, payload);
      sendQueueBytes := nextSize;
      sendQueue := sendQueue + [payload];
      return true;
    }

    method DequeueSend() returns (payload: Option<Payload>)
      requires Valid()
      modifies this`sendQueue, this`sendQueueBytes
      ensures Valid() && (View(), payload) == Dequeue(old(View()))
    {
      if sendQueue == [] {
        return None;
      }
      payload := Some(sendQueue[0]);
      sendQueueBytes := sendQueueBytes - |sendQueue[0]|;
      sendQueue := sendQueue[1..];
    }

    method Record(nonce: U64) returns (ok: bool)
      requires Valid()
      modifies this`nonceCache, this`nonceOrder
      ensures Valid() && (nonceOrder, ok) == RecordNonce(old(nonceOrder), nonceLimit, nonce)
    {
      if nonce in nonceCache {
        return false;
      }
      nonceCache := nonceCache + {nonce};
      nonceOrder := nonceOrder + [nonce];
      ghost var grown := nonceOrder;
      while |nonceOrder| > nonceLimit
        modifies this`nonceCache, this`nonceOrder
        invariant LastN(nonceOrder, nonceLimit) == LastN(grown, nonceLimit)
        invariant nonceCache == (set n | n in nonceOrder) && Distinct(nonceOrder)
        decreases |nonceOrder|
      {
        var oldest := nonceOrder[0];
        assert nonceOrder == [oldest] + nonceOrder[1..];
        nonceOrder := nonceOrder[1..];
        assert oldest !in nonceOrder;
        nonceCache := nonceCache - {oldest};
      }
      return true;
    }

    function GateView(): Gate
      reads this
    {
      Gate(lastSeq, nonceOrder, nonceLimit)
    }

    /** The replay-protection step of handlePacket. */
    method Admit(seqNo: U32, nonce: U64) returns (ok: bool)
      requires Valid()
      modifies this`nonceCache, this`nonceOrder, this`lastSeq
      ensures Valid() && (GateView(), ok) == PassGate(old(GateView()), seqNo, nonce)
    {
      if seqNo <= lastSeq {
        return false;
      }
      ok := Record(nonce);
      if ok {
        lastSeq := seqNo;
      }
    }

    method OnReceive(now: Time)
      modifies this`lastReceive
      ensures lastReceive == now
    {
      lastReceive := now;
    }

    method SetProtocolVersion(version: U16)
      modifies this`protocolVersion
      ensures protocolVersion == version
    {
      protocolVersion := version;
    }

    /** False exactly for a session that is disconnected or has been silent for the timeout. */
    method Tick(now: Time) returns (alive: bool)
      modifies this`connected
      ensures alive == connected == (old(connected) && now - lastReceive < timeout)
    {
      if connected && now - lastReceive >= timeout {
        connected := false;
      }
      return connected;
    }

    method AttachUserContext(context: UserContext)
      modifies this`userContext
      ensures userContext == Some(context)
    {
      userContext := Some(context);
    }

    method ClearUserContext()
      modifies this`userContext
      ensures userContext == None
    {
      userContext := None;
    }

    method SetLastSeq(n: U64)
      modifies this`lastSeq
      ensures lastSeq == n
    {
      lastSeq := n;
    }
  }
}
