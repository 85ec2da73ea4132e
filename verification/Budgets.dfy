/**
  What the rate limiter (internal/ghclient/ratelimit.go) promises of its pools, its waits
  and its wake token along every path, in terms of headers, clock readings and requests.
*/
module Budgets {
  import opened Wrappers
  import opened RateLimit
  import opened Dispatcher

  // ---------------------------------------------------------------- announced resets

  // A response that empties the pool until the moment m, in nanoseconds: a Retry-After of r
  // seconds from now, or a reset in Unix seconds with nothing remaining.
  predicate EmptiesUntil(s: State, step: Step, pool: Pool, m: int) {
    && step.HeaderUpdate? && step.hpool == pool
    && (var h := step.headers;
        if h.retryAfter.Some? then m == s.now + h.retryAfter.value * 1_000_000_000
        else h.reset.Some? && m == h.reset.value * 1_000_000_000
             && h.remaining.GetOr(s.lim.PoolOf(pool).remaining) <= 0)
  }

  // A pick does not pass over a queued request of the pool.
  predicate Serves(s: State, step: Step, pool: Pool) {
    step.Pick? ==>
      forall j :: 0 <= j < |s.lim.queue| && s.lim.queue[j].pool == pool ==>
        step.outcome.Picked? && step.outcome.index <= j
  }

  // Without a header update a pool keeps its announced reset.
  lemma {:induction false} ResetKept(c: nat, states: seq<State>, steps: seq<Step>, pool: Pool)
    requires Path(c, states, steps) && NoUpdate(steps, pool)
    ensures states[|steps|].lim.PoolOf(pool).resetAt == states[0].lim.PoolOf(pool).resetAt
  {
    if steps != [] {
      var n := |steps| - 1;
      ResetKept(c, states[..n + 1], steps[..n], pool);
      ResetStep(c, states[n], steps[n], states[n + 1], pool);
    }
  }

  lemma ResetStep(c: nat, s: State, step: Step, s': State, pool: Pool)
    requires Next(c, s, step, s') && !(step.HeaderUpdate? && step.hpool == pool)
    ensures s'.lim.PoolOf(pool).resetAt == s.lim.PoolOf(pool).resetAt
  {}

  lemma Emptied(c: nat, s: State, step: Step, s': State, pool: Pool, m: int)
    requires Next(c, s, step, s') && EmptiesUntil(s, step, pool, m)
    ensures s'.lim.PoolOf(pool).resetAt == Some(m) && s'.lim.PoolOf(pool).remaining <= 0
  {}

  lemma SilentUntil(c: nat, states: seq<State>, steps: seq<Step>, pool: Pool, m: int)
    requires Path(c, states, steps) && NoUpdate(steps, pool) && states[|steps|].now <= m
    requires states[0].lim.PoolOf(pool).resetAt == Some(m) && states[0].lim.PoolOf(pool).remaining <= 0
    ensures CountDispatches(steps, pool) == 0
  {
    BudgetOverSpan(c, states, steps, pool);
  }

  lemma ServesAfter(c: nat, states: seq<State>, steps: seq<Step>, pool: Pool, m: int)
    requires Path(c, states, steps) && steps != [] && NoUpdate(steps, pool)
    requires states[0].lim.PoolOf(pool).resetAt == Some(m)
    ensures var n := |steps| - 1; steps[n].Pick? && steps[n].clock != [] && m < steps[n].clock[0] ==> Serves(states[n], steps[n], pool)
  {
    var n := |steps| - 1;
    assert Next(c, states[n], steps[n], states[n + 1]);
    ResetKept(c, states[..n + 1], steps[..n], pool);
    if steps[n].Pick? && m < steps[n].clock[0] {
      PastServes(c, states[n], steps[n], states[n + 1], pool, m);
    }
  }

  // An announced moment holds in both directions: nothing is dispatched from the pool up to
  // it, and a pick that starts after it passes over no request of the pool.
  lemma AnnouncedMoment(c: nat, states: seq<State>, steps: seq<Step>, pool: Pool, m: int)
    requires Path(c, states, steps) && |steps| >= 2
    requires EmptiesUntil(states[0], steps[0], pool, m) && NoUpdate(steps[1..], pool)
    ensures states[|steps|].now <= m ==> CountDispatches(steps[1..], pool) == 0
    ensures var n := |steps| - 1; steps[n].Pick? && steps[n].clock != [] && m < steps[n].clock[0] ==> Serves(states[n], steps[n], pool)
  {
    assert Next(c, states[0], steps[0], states[1]);
    Emptied(c, states[0], steps[0], states[1], pool, m);
    assert Path(c, states[1..], steps[1..]);
    ServesAfter(c, states[1..], steps[1..], pool, m);
    if states[|steps|].now <= m {
      SilentUntil(c, states[1..], steps[1..], pool, m);
    }
  }

  lemma PastServes(c: nat, s: State, step: Step, s': State, pool: Pool, m: int)
    requires Next(c, s, step, s') && step.Pick? && m < step.clock[0] && s.lim.PoolOf(pool).resetAt == Some(m)
    ensures Serves(s, step, pool)
  {
    forall j | 0 <= j < |s.lim.queue| && s.lim.queue[j].pool == pool
      ensures step.outcome.Picked? && step.outcome.index <= j
    {
      assert step.clock[0] <= step.clock[j];
      assert s.lim.Runnable(j, step.clock[j]);
    }
  }

  // ---------------------------------------------------------------- what a dispatch costs

  // Over every path, whatever the responses: secondary points are only ever spent, five for
  // each REST request and one for each GraphQL request.
  lemma {:induction false} SecondarySpent(c: nat, states: seq<State>, steps: seq<Step>)
    requires Path(c, states, steps)
    ensures var s, e := states[0].lim, states[|steps|].lim;
            && e.rest.secondaryPoints == s.rest.secondaryPoints - 5 * CountDispatches(steps, Rest)
            && e.graphql.secondaryPoints == s.graphql.secondaryPoints - CountDispatches(steps, GraphQL)
  {
    if steps != [] {
      var n := |steps| - 1;
      SecondarySpent(c, states[..n + 1], steps[..n]);
      SecondaryStep(c, states[n], steps[n], states[n + 1]);
    }
  }

  lemma SecondaryStep(c: nat, s: State, step: Step, s': State)
    requires Next(c, s, step, s')
    ensures s'.lim.rest.secondaryPoints == s.lim.rest.secondaryPoints - if Dispatches(step, Rest) then 5 else 0
    ensures s'.lim.graphql.secondaryPoints == s.lim.graphql.secondaryPoints - if Dispatches(step, GraphQL) then 1 else 0
  {}

  // A pool's stock comes back only with its reset: a dispatch after it finds 5000 when at
  // most 100 were left, and a probe after it finds one when none was; anything else leaves
  // the stock to dispatches and responses.
  lemma StockMoves(c: nat, s: State, step: Step, s': State, pool: Pool)
    requires Next(c, s, step, s')
    ensures var p, p' := s.lim.PoolOf(pool), s'.lim.PoolOf(pool);
            match step
            case Pick(clock, Picked(i, r)) =>
              var back := p.resetAt.Some? && clock[i] > p.resetAt.value && p.remaining <= 100;
              p'.remaining == if r.pool != pool then p.remaining else if back then 4999 else p.remaining - 1
            case Probe =>
              p'.remaining == if p.resetAt.Some? && s.now > p.resetAt.value && p.remaining <= 0 then 1 else p.remaining
            case HeaderUpdate(other, h) =>
              p'.remaining == if other != pool then p.remaining
                              else if h.retryAfter.Some? then 0 else h.remaining.GetOr(p.remaining)
            case _ => p'.remaining == p.remaining
  {}

  // ---------------------------------------------------------------- waits

  // Where the dispatcher is between being told to wait d from `start` and its next pick, as
  // long as nothing wakes it.
  ghost predicate WaitingOut(s: State, start: int, d: int) {
    && start <= s.now
    && match s.pc
       case DroppingWait(e) => e == d
       case ParkedWait(t) => t >= start + d
       case Exited => true
       case _ => s.now >= start + d
  }

  predicate NeitherWokenNorPicking(steps: seq<Step>) {
    forall i :: 0 <= i < |steps| ==> !steps[i].WakeWait? && !steps[i].Pick?
  }

  lemma {:induction false} StaysWaitingOut(c: nat, states: seq<State>, steps: seq<Step>, start: int, d: int)
    requires Path(c, states, steps) && NeitherWokenNorPicking(steps) && WaitingOut(states[0], start, d)
    ensures WaitingOut(states[|steps|], start, d)
  {
    if steps != [] {
      var n := |steps| - 1;
      StaysWaitingOut(c, states[..n + 1], steps[..n], start, d);
      ClockStep(c, states[n], steps[n], states[n + 1]);
      WaitingStep(c, states[n], steps[n], states[n + 1], start, d);
    }
  }

  lemma WaitingStep(c: nat, s: State, step: Step, s': State, start: int, d: int)
    requires Next(c, s, step, s') && !step.WakeWait? && !step.Pick? && s.now <= s'.now && WaitingOut(s, start, d)
    ensures WaitingOut(s', start, d)
  {}

  // A failed pick is not made again before its delay is over, unless the wake token cuts the
  // wait short.
  lemma WaitsOutDelay(c: nat, states: seq<State>, steps: seq<Step>)
    requires Path(c, states, steps) && |steps| >= 2
    requires steps[0].Pick? && steps[0].outcome.Wait? && steps[|steps| - 1].Pick?
    requires NeitherWokenNorPicking(steps[1..|steps| - 1])
    ensures states[|steps| - 1].now >= states[1].now + steps[0].outcome.delay
  {
    var n := |steps| - 1;
    assert Next(c, states[0], steps[0], states[1]) && Next(c, states[n], steps[n], states[n + 1]);
    StaysWaitingOut(c, states[1..n + 1], steps[1..n], states[1].now, steps[0].outcome.delay);
  }

  // The delay in terms of the announced resets: with one ahead and none on this instant or
  // before it, the wait reaches the first of them, and goes past it and the backoff by no
  // more than a quarter of the backoff.
  lemma WaitReachesReset(c: nat, s: State, step: Step, s': State, first: int)
    requires Next(c, s, step, s') && step.Pick? && step.outcome.Wait? && first > s'.now
    requires s.lim.rest.resetAt == Some(first) || s.lim.graphql.resetAt == Some(first)
    requires forall pool: Pool :: s.lim.PoolOf(pool).resetAt.Some? ==> first <= s.lim.PoolOf(pool).resetAt.value
    ensures first <= s'.now + step.outcome.delay
    ensures 4 * step.outcome.delay <= 4 * Max(first - s'.now, Backoff(s.lim.streak)) + Backoff(s.lim.streak)
  {
    assert s.lim.PoolOf(Rest) == s.lim.rest && s.lim.PoolOf(GraphQL) == s.lim.graphql;
  }

  // ---------------------------------------------------------------- the wake token

  // A kick is not lost: its token stays until a parked dispatcher takes it.
  lemma {:induction false} TokenStays(c: nat, states: seq<State>, steps: seq<Step>)
    requires Path(c, states, steps) && steps != [] && (steps[0].Kick? || steps[0].WorkerKick?)
    requires forall i :: 0 < i < |steps| ==> !steps[i].WakeEmpty? && !steps[i].WakeWait?
    ensures states[|steps|].wake
    ensures states[|steps|].pc == ParkedEmpty || states[|steps|].pc.ParkedWait? ==>
              exists step: Step, s: State :: Next(c, states[|steps|], step, s) && (step.WakeEmpty? || step.WakeWait?)
  {
    var n, e := |steps| - 1, states[|steps|];
    assert Next(c, states[n], steps[n], states[n + 1]);
    if n > 0 {
      TokenStays(c, states[..n + 1], steps[..n]);
    }
    if e.pc == ParkedEmpty {
      assert Next(c, e, WakeEmpty, e.(wake := false, pc := Acquiring));
    } else if e.pc.ParkedWait? {
      assert Next(c, e, WakeWait, e.(wake := false, pc := Probing));
    }
  }

  function CountKicks(steps: seq<Step>): nat {
    if steps == [] then 0
    else CountKicks(steps[..|steps| - 1]) + if steps[|steps| - 1].Kick? || steps[|steps| - 1].WorkerKick? then 1 else 0
  }

  function CountWakes(steps: seq<Step>): nat {
    if steps == [] then 0
    else CountWakes(steps[..|steps| - 1]) + if steps[|steps| - 1].WakeEmpty? || steps[|steps| - 1].WakeWait? then 1 else 0
  }

  // Nor is one used twice: the dispatcher is woken at most once for each kick.
  lemma {:induction false} WakesArePaid(c: nat, states: seq<State>, steps: seq<Step>)
    requires Path(c, states, steps)
    ensures CountWakes(steps) + (if states[|steps|].wake then 1 else 0)
            <= CountKicks(steps) + if states[0].wake then 1 else 0
  {
    if steps != [] {
      var n := |steps| - 1;
      WakesArePaid(c, states[..n + 1], steps[..n]);
      WakeStep(c, states[n], steps[n], states[n + 1]);
    }
  }

  lemma WakeStep(c: nat, s: State, step: Step, s': State)
    requires Next(c, s, step, s')
    ensures step.WakeEmpty? || step.WakeWait? ==> s.wake && !s'.wake
    ensures s'.wake ==> s.wake || step.Kick? || step.WorkerKick?
  {}
}
