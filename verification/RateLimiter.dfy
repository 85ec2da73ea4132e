/**
  The state behind the rate-limit scheduler (internal/ghclient/ratelimit.go): the
  sorted queue, the two budget pools and the backoff streak.

  `Limiter` is the value of that state; class `RateLimiter` holds it in mutable
  fields and is proved to change it as the specification predicates say. Times and
  durations are nanoseconds; clock readings, the jitter draw and the order in which
  the pool map is ranged over are parameters.
*/
module RateLimit {
  import opened Wrappers

  const SECOND: int := 1_000_000_000
  const MIN_BACKOFF: int := 250_000_000
  const MAX_BACKOFF: int := 30 * SECOND

  datatype Pool = Rest | GraphQL

  datatype PoolState = PoolState(remaining: int, resetAt: Option<int>, secondaryPoints: int)

  // `id` is the identity of the request; requests are numbered in the order in which
  // Schedule appends them.
  datatype Request = Request(id: nat, priority: int, pool: Pool, enqueued: int)

  // The parsed rate-limit headers of one response; None is a header that is absent or
  // does not parse.
  datatype Headers = Headers(remaining: Option<int>, reset: Option<int>, retryAfter: Option<int>)

  // ---------------------------------------------------------------- queue order

  // The comparison handed to the stable sort.
  predicate Less(a: Request, b: Request) {
    a.priority < b.priority || (a.priority == b.priority && a.enqueued < b.enqueued)
  }

  // Dispatch order: by priority, then by enqueue time, then by order of arrival.
  predicate Precedes(a: Request, b: Request) {
    Less(a, b) || (!Less(b, a) && a.id < b.id)
  }

  ghost predicate Ordered(q: seq<Request>) {
    forall i, j :: 0 <= i < j < |q| ==> Precedes(q[i], q[j])
  }

  function StableInsert(q: seq<Request>, r: Request): (s: seq<Request>)
    ensures |s| == |q| + 1
  {
    if q == [] then [r]
    else if Less(r, q[|q| - 1]) then StableInsert(q[..|q| - 1], r) + [q[|q| - 1]]
    else q + [r]
  }

  // sort.SliceStable, as insertion from the left.
  function StableSort(q: seq<Request>): (s: seq<Request>)
    ensures |s| == |q|
  {
    if q == [] then [] else StableInsert(StableSort(q[..|q| - 1]), q[|q| - 1])
  }

  ghost predicate SortedByLess(q: seq<Request>) {
    forall i, j :: 0 <= i < j < |q| ==> !Less(q[j], q[i])
  }

  lemma {:induction false} StableInsertContents(q: seq<Request>, r: Request)
    ensures multiset(StableInsert(q, r)) == multiset(q) + multiset{r}
  {
    if q != [] && Less(r, q[|q| - 1]) {
      StableInsertContents(q[..|q| - 1], r);
      assert q == q[..|q| - 1] + [q[|q| - 1]];
    }
  }

  lemma {:induction false} StableInsertMembers(q: seq<Request>, r: Request)
    ensures forall x :: x in StableInsert(q, r) <==> x in q || x == r
  {
    StableInsertContents(q, r);
    forall x ensures x in StableInsert(q, r) <==> x in q || x == r {
      assert x in StableInsert(q, r) <==> x in multiset(StableInsert(q, r));
      assert x in q <==> x in multiset(q);
    }
  }

  // Inserting the latest arrival keeps dispatch order.
  lemma {:induction false} StableInsertOrdered(q: seq<Request>, r: Request)
    requires Ordered(q)
    requires forall x :: x in q ==> x.id < r.id
    ensures Ordered(StableInsert(q, r))
  {
    if q != [] {
      var last := q[|q| - 1];
      if Less(r, last) {
        var front := q[..|q| - 1];
        StableInsertOrdered(front, r);
        StableInsertMembers(front, r);
        var s := StableInsert(front, r);
        assert forall x :: x in s ==> Precedes(x, last);
        assert forall i :: 0 <= i < |s| ==> s[i] in s;
      } else {
        forall i | 0 <= i < |q| ensures Precedes(q[i], r) {
          assert q[i] in q;
          if i < |q| - 1 { assert Precedes(q[i], last); }
        }
      }
    }
  }

  lemma SortedBefore(front: seq<Request>, last: Request)
    requires multiset(StableSort(front)) == multiset(front)
    requires forall i :: 0 <= i < |front| ==> front[i].id < last.id
    ensures forall x :: x in StableSort(front) ==> x.id < last.id
  {
    forall x | x in StableSort(front) ensures x.id < last.id {
      assert x in multiset(StableSort(front));
      assert x in front;
    }
  }

  // The library's contract holds of StableSort: same requests, sorted, and on requests
  // numbered in append order ties keep that order.
  lemma {:induction false} StableSortContract(q: seq<Request>)
    requires forall i, j :: 0 <= i < j < |q| ==> q[i].id < q[j].id
    ensures multiset(StableSort(q)) == multiset(q)
    ensures Ordered(StableSort(q)) && SortedByLess(StableSort(q))
  {
    if q != [] {
      var front, last := q[..|q| - 1], q[|q| - 1];
      StableSortContract(front);
      assert q == front + [last];
      StableInsertContents(StableSort(front), last);
      SortedBefore(front, last);
      StableInsertOrdered(StableSort(front), last);
    }
  }

  lemma {:induction false} StableSortIdentity(q: seq<Request>)
    requires SortedByLess(q)
    ensures StableSort(q) == q
  {
    if q != [] {
      var front, last := q[..|q| - 1], q[|q| - 1];
      StableSortIdentity(front);
      if front != [] { assert front[|front| - 1] == q[|q| - 2]; }
      assert q == front + [last];
    }
  }

  // Schedule sorts the whole queue again; on a queue already in dispatch order that is
  // one insertion, so the new request goes behind every request it ties with.
  lemma AppendThenSort(q: seq<Request>, r: Request)
    requires Ordered(q)
    requires forall x :: x in q ==> x.id < r.id
    ensures StableSort(q + [r]) == StableInsert(q, r)
    ensures Ordered(StableSort(q + [r]))
  {
    assert (q + [r])[..|q|] == q;
    StableSortIdentity(q);
    StableInsertOrdered(q, r);
  }

  // Dispatch order leaves no freedom: two queues in dispatch order that hold the same
  // requests, told apart by their ids, are the same queue.
  lemma {:induction false} OrderedUnique(p: seq<Request>, q: seq<Request>)
    requires Ordered(p) && Ordered(q) && multiset(p) == multiset(q)
    ensures p == q
  {
    assert |p| == |multiset(p)| == |multiset(q)| == |q|;
    if p != [] {
      OrderedHead(p, q);
      assert p == [p[0]] + p[1..] && q == [q[0]] + q[1..];
      assert multiset(p[1..]) == multiset(p) - multiset{p[0]};
      assert multiset(q[1..]) == multiset(q) - multiset{q[0]};
      OrderedTail(p);
      OrderedTail(q);
      OrderedUnique(p[1..], q[1..]);
    }
  }

  lemma OrderedTail(p: seq<Request>)
    requires Ordered(p) && p != []
    ensures Ordered(p[1..])
  {
    forall i, j | 0 <= i < j < |p[1..]| ensures Precedes(p[1..][i], p[1..][j]) {
      assert Precedes(p[i + 1], p[j + 1]);
    }
  }

  lemma OrderedHead(p: seq<Request>, q: seq<Request>)
    requires Ordered(p) && Ordered(q) && multiset(p) == multiset(q) && p != [] && q != []
    ensures p[0] == q[0]
  {
    assert p[0] in multiset(q) && q[0] in multiset(p);
    var i :| 0 <= i < |q| && q[i] == p[0];
    var j :| 0 <= j < |p| && p[j] == q[0];
    assert i == 0 || Precedes(q[0], q[i]);
    assert j == 0 || Precedes(p[0], p[j]);
  }

  lemma OrderedRemove(q: seq<Request>, i: nat)
    requires Ordered(q) && i < |q|
    ensures Ordered(q[..i] + q[i + 1..])
    ensures forall r :: r in q[..i] + q[i + 1..] ==> r in q
  {
    var s := q[..i] + q[i + 1..];
    forall a, b | 0 <= a < b < |s| ensures Precedes(s[a], s[b]) {
      assert Precedes(q[if a < i then a else a + 1], q[if b < i then b else b + 1]);
    }
  }

  // ---------------------------------------------------------------- budgets

  predicate ResetPassed(p: PoolState, now: int) {
    p.resetAt.Some? && now > p.resetAt.value
  }

  // Whether a request may be drawn from `p` at `now`.
  predicate HasBudget(p: PoolState, now: int) {
    p.remaining > 0 || ResetPassed(p, now)
  }

  // The pool after a successful budget check.
  function Refilled(p: PoolState, now: int): PoolState {
    if p.remaining <= 100 && ResetPassed(p, now) then p.(remaining := 5000) else p
  }

  function Cost(pool: Pool): int {
    if pool.Rest? then 5 else 1
  }

  function Charged(p: PoolState, pool: Pool): PoolState {
    p.(remaining := p.remaining - 1, secondaryPoints := p.secondaryPoints - Cost(pool))
  }

  function Probed(p: PoolState, now: int): PoolState {
    if ResetPassed(p, now) && p.remaining <= 0 then p.(remaining := 1) else p
  }

  function Updated(p: PoolState, h: Headers, now: int): PoolState {
    var p1 := if h.remaining.Some? then p.(remaining := h.remaining.value) else p;
    var p2 := if h.reset.Some? then p1.(resetAt := Some(h.reset.value * SECOND)) else p1;
    if h.retryAfter.Some? then p2.(resetAt := Some(now + h.retryAfter.value * SECOND), remaining := 0) else p2
  }

  datatype Limiter = Limiter(queue: seq<Request>, rest: PoolState, graphql: PoolState, streak: nat)
  {
    function PoolOf(pool: Pool): PoolState {
      if pool.Rest? then rest else graphql
    }

    function WithPool(pool: Pool, p: PoolState): Limiter {
      if pool.Rest? then this.(rest := p) else this.(graphql := p)
    }

    // Request i of the queue could be dispatched at `now`.
    predicate Runnable(i: nat, now: int)
      requires i < |queue|
    {
      HasBudget(PoolOf(queue[i].pool), now)
    }
  }

  // ---------------------------------------------------------------- backoff

  // B(j): 250ms doubled j times, never above 30s.
  function Backoff(j: nat): (d: int)
    ensures MIN_BACKOFF <= d <= MAX_BACKOFF
  {
    if j == 0 then MIN_BACKOFF
    else if 2 * Backoff(j - 1) > MAX_BACKOFF then MAX_BACKOFF
    else 2 * Backoff(j - 1)
  }

  function TimeToReset(p: PoolState, now: int): int {
    if p.resetAt.Some? && p.resetAt.value > now then p.resetAt.value - now else 0
  }

  function Max(a: int, b: int): int {
    if a < b then b else a
  }

  function Min(a: int, b: int): int {
    if a < b then a else b
  }

  // Time until the first announced reset; a pool that never announced one has no say.
  function TimeToEarliest(l: Limiter, now: int): int {
    if l.rest.resetAt.None? then TimeToReset(l.graphql, now)
    else if l.graphql.resetAt.None? then TimeToReset(l.rest, now)
    else Min(TimeToReset(l.rest, now), TimeToReset(l.graphql, now))
  }

  // The bounds on the delay after the failed pick number `streak`: at least the backoff
  // and the time to the earliest reset, and no more than that plus a quarter of the
  // backoff. When a reset falls exactly on `now`, the order in which the pools are
  // ranged over decides between the earliest and the latest reset.
  predicate WaitBounds(l: Limiter, now: int, wait: int) {
    var latest := Max(TimeToReset(l.rest, now), TimeToReset(l.graphql, now));
    var b := Backoff(l.streak);
    && b <= wait
    && 4 * wait <= 4 * Max(b, latest) + b
    && (l.rest.resetAt != Some(now) && l.graphql.resetAt != Some(now) ==>
          var earliest := TimeToEarliest(l, now);
          Max(b, earliest) <= wait && 4 * wait <= 4 * Max(b, earliest) + b)
  }

  // The jitter: a quarter of the backoff scaled by the draw, rounded down.
  function Jitter(draw: real, backoff: int): (j: int)
    requires 0.0 <= draw < 1.0 && backoff > 0
    ensures 0 <= 4 * j <= backoff
  {
    var b := backoff as real;
    assert draw * b >= 0.0;
    assert (1.0 - draw) * b >= 0.0;
    var scaled := draw * b;
    assert scaled <= b;
    (scaled * 0.25).Floor
  }

  // The time to the reset that the search over the pools ends on. A reset that falls
  // exactly on `now` is taken for none yet when its pool is visited first.
  function TimeAhead(first: PoolState, second: PoolState, now: int): int {
    if first.resetAt.None? || first.resetAt.value == now then TimeToReset(second, now)
    else if second.resetAt.None? then TimeToReset(first, now)
    else Min(TimeToReset(first, now), TimeToReset(second, now))
  }

  function Other(pool: Pool): Pool {
    if pool.Rest? then GraphQL else Rest
  }

  // The delay after a failed pick: `draw` is the jitter draw and `first` the pool that the
  // map range visits first.
  function DelayFor(l: Limiter, now: int, draw: real, first: Pool): int
    requires 0.0 <= draw < 1.0
  {
    var b := Backoff(l.streak);
    Max(b, TimeAhead(l.PoolOf(first), l.PoolOf(Other(first)), now)) + Jitter(draw, b)
  }

  // Whatever the draw and the order, the delay is within the bounds.
  lemma DelayInBounds(l: Limiter, now: int, draw: real, first: Pool)
    requires 0.0 <= draw < 1.0
    ensures WaitBounds(l, now, DelayFor(l, now, draw, first))
  {
    var b := Backoff(l.streak);
    var ahead := TimeAhead(l.PoolOf(first), l.PoolOf(Other(first)), now);
    assert 0 <= ahead <= Max(TimeToReset(l.rest, now), TimeToReset(l.graphql, now));
    assert l.rest.resetAt != Some(now) && l.graphql.resetAt != Some(now) ==> ahead == TimeToEarliest(l, now);
    assert 0 <= 4 * Jitter(draw, b) <= b;
  }

  // ---------------------------------------------------------------- picking

  datatype Outcome = Empty | Picked(index: nat, request: Request) | Wait(delay: int)

  predicate ClockOk(l: Limiter, clock: seq<int>) {
    |clock| == |l.queue| + 1 && forall i, j :: 0 <= i < j < |clock| ==> clock[i] <= clock[j]
  }

  // One pickNext: the budget check of request i reads clock[i], the backoff reads the
  // last clock value.
  predicate Picks(l: Limiter, clock: seq<int>, outcome: Outcome, l': Limiter)
    requires ClockOk(l, clock)
  {
    match outcome
    case Empty => l.queue == [] && l' == l
    case Picked(i, r) =>
      && i < |l.queue| && l.queue[i] == r
      && l.Runnable(i, clock[i])
      && (forall j :: 0 <= j < i ==> !l.Runnable(j, clock[j]))
      && l' == l.(queue := l.queue[..i] + l.queue[i + 1..], streak := 0)
                .WithPool(r.pool, Charged(Refilled(l.PoolOf(r.pool), clock[i]), r.pool))
    case Wait(d) =>
      && l.queue != []
      && (forall j :: 0 <= j < |l.queue| ==> !l.Runnable(j, clock[j]))
      && WaitBounds(l, clock[|l.queue|], d)
      && l' == l.(streak := l.streak + 1)
  }

  // ---------------------------------------------------------------- the mutable state

  // 1 << n
  function Shift(n: nat): (r: nat)
    ensures r > 0
  {
    if n == 0 then 1 else 2 * Shift(n - 1)
  }

  // The shifted, capped product of the source is B(j).
  lemma BackoffShift(j: nat)
    ensures Backoff(j) == (var d := MIN_BACKOFF * Shift(if j > 7 then 7 else j); if d > MAX_BACKOFF then MAX_BACKOFF else d)
  {
    if j > 0 {
      BackoffShift(j - 1);
      assert Shift(1) == 2 && Shift(3) == 8 && Shift(5) == 32 && Shift(7) == 128;
      if j <= 7 { assert Shift(j) == 2 * Shift(j - 1); ShiftMonotone(j - 1, 6); }
    }
  }

  // B(j) in nanoseconds: 250ms, and 30s from the seventh doubling on.
  lemma BackoffValues(j: nat)
    ensures Backoff(0) == 250_000_000 && Backoff(1) == 500_000_000 && Backoff(2) == 1_000_000_000
    ensures Backoff(3) == 2_000_000_000 && Backoff(4) == 4_000_000_000 && Backoff(5) == 8_000_000_000
    ensures Backoff(6) == 16_000_000_000 && (j >= 7 ==> Backoff(j) == 30_000_000_000)
  {
    assert Backoff(7) == 30_000_000_000;
    if j > 7 { BackoffValues(j - 1); }
  }

  lemma ShiftMonotone(m: nat, n: nat)
    requires m <= n
    ensures Shift(m) <= Shift(n)
  {
    if m < n { ShiftMonotone(m, n - 1); }
  }

  // One iteration of the search for the earliest reset.
  function Pull(earliest: int, p: PoolState, now: int): int {
    if p.resetAt.Some? && (earliest == now || p.resetAt.value < earliest) then p.resetAt.value else earliest
  }

  class RateLimiter {
    const concurrency: nat
    var pools: map<Pool, PoolState>
    var queue: seq<Request>
    var streak: nat
    var appended: nat // how many requests were ever appended

    ghost predicate Valid()
      reads this
    {
      && pools.Keys == {Rest, GraphQL}
      && Ordered(queue)
      && (forall r :: r in queue ==> r.id < appended)
    }

    ghost function Contents(): Limiter
      reads this
      requires Valid()
    {
      Limiter(queue, pools[Rest], pools[GraphQL], streak)
    }

    constructor (restMax: int, graphqlMax: int, concurrency: nat)
      ensures Valid()
      ensures Contents() == Limiter([],
                                    PoolState(if restMax == 0 then 5000 else restMax, None, 900),
                                    PoolState(if graphqlMax == 0 then 5000 else graphqlMax, None, 2000),
                                    0)
      ensures appended == 0
      ensures this.concurrency == if concurrency == 0 then 10 else concurrency
    {
      var rest, graphql, slots := restMax, graphqlMax, concurrency;
      if rest == 0 {
        rest := 5000;
      }
      if graphql == 0 {
        graphql := 5000;
      }
      if slots == 0 {
        slots := 10;
      }
      this.concurrency := slots;
      pools := map[Rest := PoolState(rest, None, 900), GraphQL := PoolState(graphql, None, 2000)];
      queue, streak, appended := [], 0, 0;
    }

    // The locked section of Schedule.
    method Enqueue(priority: int, pool: Pool, enqueued: int) returns (r: Request)
      requires Valid()
      modifies this
      ensures Valid()
      ensures r == Request(old(appended), priority, pool, enqueued) && appended == old(appended) + 1
      ensures Contents() == old(Contents()).(queue := StableInsert(old(queue), r))
    {
      r := Request(appended, priority, pool, enqueued);
      AppendThenSort(queue, r);
      StableInsertMembers(queue, r);
      queue := queue + [r];
      queue := StableSort(queue);
      appended := appended + 1;
    }

    // poolHasBudgetLocked: checks and, once the reset has passed, refills.
    method PoolHasBudget(pool: Pool, now: int) returns (ok: bool)
      requires Valid()
      modifies this`pools
      ensures Valid()
      ensures ok == HasBudget(old(Contents()).PoolOf(pool), now)
      ensures Contents() == if ok then old(Contents()).WithPool(pool, Refilled(old(Contents()).PoolOf(pool), now))
                            else old(Contents())
    {
      var p := pools[pool];
      if p.remaining > 100 {
        return true;
      }
      if p.resetAt.Some? && now > p.resetAt.value {
        pools := pools[pool := p.(remaining := 5000)];
        return true;
      }
      return p.remaining > 0;
    }

    // `draw` is the jitter draw in [0, 1); `first` is the pool the map range visits first.
    method PickNext(clock: seq<int>, draw: real, first: Pool) returns (outcome: Outcome)
      requires Valid() && ClockOk(Contents(), clock)
      requires 0.0 <= draw < 1.0
      modifies this
      ensures Valid() && appended == old(appended)
      ensures Picks(old(Contents()), clock, outcome, Contents())
    {
      if |queue| == 0 {
        return Empty;
      }
      for i := 0 to |queue|
        invariant Valid() && queue == old(queue) && appended == old(appended)
        invariant Contents() == old(Contents())
        invariant forall j :: 0 <= j < i ==> !Contents().Runnable(j, clock[j])
      {
        var r := queue[i];
        var ok := PoolHasBudget(r.pool, clock[i]);
        if ok {
          Take(i);
          return Picked(i, r);
        }
      }
      var wait := ExhaustedDelay(clock[|queue|], draw, first);
      DelayInBounds(Contents(), clock[|queue|], draw, first);
      streak := streak + 1;
      return Wait(wait);
    }

    // The successful branch of pickNext: unlink request i and charge its pool.
    method Take(i: nat)
      requires Valid() && i < |queue|
      modifies this
      ensures Valid() && appended == old(appended)
      ensures var r := old(queue)[i];
              Contents() == old(Contents()).(queue := old(queue)[..i] + old(queue)[i + 1..], streak := 0)
                            .WithPool(r.pool, Charged(old(Contents()).PoolOf(r.pool), r.pool))
    {
      var r := queue[i];
      OrderedRemove(queue, i);
      queue := queue[..i] + queue[i + 1..];
      var cost := 1;
      if r.pool == Rest {
        cost := 5;
      }
      var p := pools[r.pool];
      pools := pools[r.pool := p.(remaining := p.remaining - 1, secondaryPoints := p.secondaryPoints - cost)];
      streak := 0;
    }

    // The loop over the pools.
    method EarliestReset(now: int, first: Pool) returns (earliest: int)
      requires Valid()
      ensures Max(earliest - now, 0) == TimeAhead(pools[first], pools[Other(first)], now)
    {
      earliest := now;
      var order := [first, Other(first)];
      for i := 0 to |order|
        invariant i == 1 ==> earliest == Pull(now, pools[order[0]], now)
        invariant i == 0 ==> earliest == now
        invariant i == 2 ==> earliest == Pull(Pull(now, pools[order[0]], now), pools[order[1]], now)
      {
        var p := pools[order[i]];
        if p.resetAt.None? {
          continue;
        }
        if earliest == now || p.resetAt.value < earliest {
          earliest := p.resetAt.value;
        }
      }
    }

    // The tail of pickNext: the delay when no queued request has budget.
    method ExhaustedDelay(now: int, draw: real, first: Pool) returns (wait: int)
      requires Valid()
      requires 0.0 <= draw < 1.0
      ensures wait == DelayFor(Contents(), now, draw, first)
    {
      var earliest := EarliestReset(now, first);
      wait := earliest - now;
      if wait < 0 {
        wait := 0;
      }
      var shift := streak;
      if shift > 7 {
        shift := 7;
      }
      var backoff := MIN_BACKOFF * Shift(shift);
      if backoff > MAX_BACKOFF {
        backoff := MAX_BACKOFF;
      }
      BackoffShift(streak);
      var jitter := Jitter(draw, backoff);
      if backoff > wait {
        wait := backoff;
      }
      wait := wait + jitter;
    }

    method ProbeReset(now: int)
      requires Valid()
      modifies this`pools
      ensures Valid()
      ensures Contents() == old(Contents()).(rest := Probed(old(Contents().rest), now),
                                             graphql := Probed(old(Contents().graphql), now))
    {
      var order := [Rest, GraphQL];
      for i := 0 to 2
        invariant Valid()
        invariant Contents().rest == if i > 0 then Probed(old(Contents().rest), now) else old(Contents().rest)
        invariant Contents().graphql == if i > 1 then Probed(old(Contents().graphql), now) else old(Contents().graphql)
      {
        var p := pools[order[i]];
        if p.resetAt.Some? && now > p.resetAt.value && p.remaining <= 0 {
          pools := pools[order[i] := p.(remaining := 1)];
        }
      }
    }

    method UpdateFromResponse(pool: Pool, h: Headers, now: int)
      requires Valid()
      modifies this`pools
      ensures Valid()
      ensures Contents() == old(Contents()).WithPool(pool, Updated(old(Contents()).PoolOf(pool), h, now))
    {
      var p := pools[pool];
      if h.remaining.Some? {
        p := p.(remaining := h.remaining.value);
      }
      if h.reset.Some? {
        p := p.(resetAt := Some(h.reset.value * SECOND));
      }
      if h.retryAfter.Some? {
        p := p.(resetAt := Some(now + h.retryAfter.value * SECOND));
        p := p.(remaining := 0);
      }
      pools := pools[pool := p];
    }
  }
}
