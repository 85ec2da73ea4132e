/**
  When a pool of the rate limiter (internal/ghclient/ratelimit.go) never has budget again:
  the history that leads there, over all runs of the scheduling protocol, and the two
  inputs that show it.
*/
module Starvation {
  import opened Wrappers
  import opened RateLimit
  import opened Dispatcher

  // A response leaves a pool without budget, until another one, exactly when it announces no reset, none was announced
  // before, and nothing remains.
  lemma UpdateStarves(p: PoolState, h: Headers, now: int)
    ensures !Live(Updated(p, h, now)) <==>
            h.retryAfter.None? && h.reset.None? && p.resetAt.None? && h.remaining.GetOr(p.remaining) <= 0
  {}

  // A response announces a reset of its pool by naming it or by a Retry-After; an announced
  // reset is kept by every later step.
  predicate Announces(step: Step, pool: Pool) {
    step.HeaderUpdate? && step.hpool == pool && (step.headers.reset.Some? || step.headers.retryAfter.Some?)
  }

  predicate NeverAnnounced(steps: seq<Step>, pool: Pool) {
    forall i :: 0 <= i < |steps| ==> !Announces(steps[i], pool)
  }

  // What is left of a pool without an announced reset: what the last response with a
  // remaining header said, or else what there was at first, less the dispatches since.
  function Left(steps: seq<Step>, pool: Pool, first: int): int {
    if steps == [] then first
    else
      var last, before := steps[|steps| - 1], Left(steps[..|steps| - 1], pool, first);
      if last.HeaderUpdate? && last.hpool == pool then last.headers.remaining.GetOr(before)
      else if Dispatches(last, pool) then before - 1
      else before
  }

  // What a step makes of one pool, as far as resets and what is left are concerned.
  ghost predicate PoolMoves(p: PoolState, step: Step, p': PoolState, pool: Pool) {
    && (p'.resetAt.Some? <==> p.resetAt.Some? || Announces(step, pool))
    && (p'.resetAt.None? ==>
          p'.remaining == if step.HeaderUpdate? && step.hpool == pool then step.headers.remaining.GetOr(p.remaining)
                          else if Dispatches(step, pool) then p.remaining - 1
                          else p.remaining)
  }

  lemma PoolPicked(c: nat, s: State, step: Step, s': State, pool: Pool)
    requires Next(c, s, step, s') && step.Pick?
    ensures PoolMoves(s.lim.PoolOf(pool), step, s'.lim.PoolOf(pool), pool)
  {}

  lemma PoolUpdated(c: nat, s: State, step: Step, s': State, pool: Pool)
    requires Next(c, s, step, s') && (step.HeaderUpdate? || step.Probe?)
    ensures PoolMoves(s.lim.PoolOf(pool), step, s'.lim.PoolOf(pool), pool)
  {}

  lemma PoolStep(c: nat, s: State, step: Step, s': State, pool: Pool)
    requires Next(c, s, step, s')
    ensures PoolMoves(s.lim.PoolOf(pool), step, s'.lim.PoolOf(pool), pool)
  {
    if step.Pick? {
      PoolPicked(c, s, step, s', pool);
    } else if step.HeaderUpdate? || step.Probe? {
      PoolUpdated(c, s, step, s', pool);
    } else {
      assert s'.lim.PoolOf(pool) == s.lim.PoolOf(pool);
    }
  }

  // Over runs: a pool starves exactly when no reset was ever announced for it and nothing is
  // left, because a response said so or because it was dispatched down.
  lemma {:induction false} StarvedExactly(c: nat, states: seq<State>, steps: seq<Step>, pool: Pool)
    requires Path(c, states, steps) && states[0].lim.PoolOf(pool).resetAt.None?
    ensures var p, left := states[|steps|].lim.PoolOf(pool), Left(steps, pool, states[0].lim.PoolOf(pool).remaining);
            && (p.resetAt.None? <==> NeverAnnounced(steps, pool))
            && (NeverAnnounced(steps, pool) ==> p.remaining == left)
            && (!Live(p) <==> NeverAnnounced(steps, pool) && left <= 0)
  {
    if steps != [] {
      var n := |steps| - 1;
      StarvedExactly(c, states[..n + 1], steps[..n], pool);
      PoolStep(c, states[n], steps[n], states[n + 1], pool);
      assert NeverAnnounced(steps, pool) <==> NeverAnnounced(steps[..n], pool) && !Announces(steps[n], pool);
    }
  }

  // Something is queued, the limiter is not stopped, and nothing can be dispatched.
  ghost predicate Starving(s: State) {
    !s.stopped && s.lim.queue != [] && !SomeLive(s.lim)
  }

  function Enqueued(s: State, pool: Pool): State {
    var r := Request(s.nextId, 0, pool, s.now);
    s.(lim := s.lim.(queue := StableInsert(s.lim.queue, r)), nextId := s.nextId + 1, callers := s.callers[r.id := BeforeKick])
  }

  // The input: the first response for a pool says that nothing remains and names no reset.
  lemma StarvedByHeader(c: nat, s: State, pool: Pool) returns (states: seq<State>, steps: seq<Step>)
    requires Init(s)
    ensures Run(c, states, steps) && states[0] == s && Starving(states[|steps|])
    ensures steps == [Enqueue(0, pool, s.now), HeaderUpdate(pool, Headers(Some(0), None, None))]
  {
    var h := Headers(Some(0), None, None);
    var s1 := Enqueued(s, pool);
    var s2 := s1.(lim := s1.lim.WithPool(pool, Updated(s1.lim.PoolOf(pool), h, s1.now)));
    states, steps := [s, s1, s2], [Enqueue(0, pool, s.now), HeaderUpdate(pool, h)];
    assert s2.lim.queue == [Request(s.nextId, 0, pool, s.now)];
  }

  lemma PathConcat(c: nat, states: seq<State>, steps: seq<Step>, states': seq<State>, steps': seq<Step>)
    requires Path(c, states, steps) && Path(c, states', steps') && states[|steps|] == states'[0]
    ensures Path(c, states + states'[1..], steps + steps')
    ensures (states + states'[1..])[|steps + steps'|] == states'[|steps'|]
  {
    var ss, ts := states + states'[1..], steps + steps';
    forall i | 0 <= i < |ts| ensures Next(c, ss[i], ts[i], ss[i + 1]) {
      if i >= |steps| {
        assert ss[i] == states'[i - |steps|] && ss[i + 1] == states'[i + 1 - |steps|];
      } else {
        assert Next(c, states[i], steps[i], states[i + 1]);
      }
    }
  }

  lemma PathOfThree(c: nat, a: State, x: Step, b: State, y: Step, d: State, z: Step, e: State)
    requires Next(c, a, x, b) && Next(c, b, y, d) && Next(c, d, z, e)
    ensures Path(c, [a, b, d, e], [x, y, z])
  {}

  // With the limiter otherwise idle, one request is enqueued and picked.
  lemma OnePicked(c: nat, s: State, pool: Pool) returns (states: seq<State>, steps: seq<Step>)
    requires c > 0 && s.pc == Acquiring && s.slots == 0 && s.lim.queue == []
    requires s.lim.PoolOf(pool).resetAt.None? && s.lim.PoolOf(pool).remaining > 0
    ensures Path(c, states, steps) && states[0] == s && |steps| == 3
    ensures forall i :: 0 <= i < |steps| ==> !steps[i].HeaderUpdate?
    ensures var e := states[|steps|];
            && e.pc.Launching? && e.slots == 1 && e.lim.queue == [] && e.stopped == s.stopped
            && e.lim.PoolOf(pool) == Charged(s.lim.PoolOf(pool), pool)
  {
    var r := Request(s.nextId, 0, pool, s.now);
    var s1 := Enqueued(s, pool);
    assert s1.lim.queue == [r];
    var s2 := s1.(slots := 1, pc := Picking);
    var pick := Pick([s.now, s.now], Picked(0, r));
    assert s2.lim.queue[..0] + s2.lim.queue[1..] == [];
    var lim := s2.lim.(queue := [], streak := 0).WithPool(pool, Charged(s2.lim.PoolOf(pool), pool));
    var s3 := s2.(lim := lim, pc := Launching(r));
    states, steps := [s, s1, s2, s3], [Enqueue(0, pool, s.now), AcquireSlot, pick];
    PathOfThree(c, s, steps[0], s1, steps[1], s2, pick, s3);
  }

  // It runs, returns and gives its slot back.
  lemma OneServed(c: nat, s: State) returns (states: seq<State>, steps: seq<Step>)
    requires s.pc.Launching? && s.slots == 1
    ensures Path(c, states, steps) && states[0] == s && |steps| == 3
    ensures forall i :: 0 <= i < |steps| ==> !steps[i].HeaderUpdate?
    ensures var e := states[|steps|]; e.pc == Acquiring && e.slots == 0 && e.lim == s.lim && e.stopped == s.stopped
  {
    var id := s.pc.request.id;
    var s1 := s.(workers := s.workers[id := Running], starts := s.starts + [id], pc := Acquiring);
    var s2 := s1.(workers := s1.workers[id := Finished]);
    var s3 := s2.(workers := s2.workers[id := Released], slots := 0);
    states, steps := [s, s1, s2, s3], [Launch, FnReturns(id), WorkerRelease(id)];
    PathOfThree(c, s, steps[0], s1, steps[1], s2, steps[2], s3);
  }

  lemma {:induction false} DrainedFrom(c: nat, s: State, pool: Pool) returns (states: seq<State>, steps: seq<Step>)
    requires c > 0 && s.pc == Acquiring && s.slots == 0 && s.lim.queue == [] && !s.stopped
    requires s.lim.PoolOf(pool).resetAt.None?
    ensures Path(c, states, steps) && states[0] == s && Starving(states[|steps|])
    ensures forall i :: 0 <= i < |steps| ==> !steps[i].HeaderUpdate?
    decreases Max(0, s.lim.PoolOf(pool).remaining)
  {
    if s.lim.PoolOf(pool).remaining <= 0 {
      var s1 := Enqueued(s, pool);
      states, steps := [s, s1], [Enqueue(0, pool, s.now)];
      assert s1.lim.queue == [Request(s.nextId, 0, pool, s.now)];
    } else {
      var ss, ts := OnePicked(c, s, pool);
      var ss', ts' := OneServed(c, ss[|ts|]);
      PathConcat(c, ss, ts, ss', ts');
      var more, rest := DrainedFrom(c, ss'[|ts'|], pool);
      PathConcat(c, ss + ss'[1..], ts + ts', more, rest);
      states, steps := ss + ss'[1..] + more[1..], ts + ts' + rest;
    }
  }

  // The other way: without a single header update, from every initial state, a run
  // dispatches a pool down to nothing and starves the next request.
  lemma StarvedByDispatches(c: nat, s: State, pool: Pool) returns (states: seq<State>, steps: seq<Step>)
    requires Init(s) && c > 0
    ensures Run(c, states, steps) && states[0] == s && Starving(states[|steps|])
    ensures forall i :: 0 <= i < |steps| ==> !steps[i].HeaderUpdate?
  {
    states, steps := DrainedFrom(c, s, pool);
  }
}
