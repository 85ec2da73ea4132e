/**
  The scheduling protocol of internal/ghclient/ratelimit.go as a step system: callers
  of Schedule before and after their kick, the one dispatcher goroutine, the worker
  goroutines, the one-token wake channel, the slot semaphore, the clock, header updates
  and Stop. Every interleaving of the steps is a run.
*/
module Dispatcher {
  import opened Wrappers
  import opened RateLimit

  datatype Reason = Completed | Cancelled | LimiterStopped

  datatype CallerPc = BeforeKick | Waiting | Returned(reason: Reason)

  datatype DispatcherPc =
    | Acquiring                    // before the semaphore send
    | Picking                      // holds a slot, about to call pickNext
    | Launching(request: Request)  // holds a slot, about to spawn the worker
    | DroppingEmpty                // holds a slot, found the queue empty
    | ParkedEmpty                  // in the select on wake and stop
    | DroppingWait(delay: int)     // holds a slot, told to back off
    | ParkedWait(deadline: int)    // in the select on timer, wake and stop
    | Probing                      // about to call probeReset
    | Exited

  // A worker runs fn, then releases its slot, kicks, and closes the done channel.
  datatype WorkerPc = Running | Finished | Released | Kicked

  datatype State = State(
    lim: Limiter,
    now: int,
    wake: bool,
    slots: nat,
    stopped: bool,
    pc: DispatcherPc,
    nextId: nat,
    callers: map<nat, CallerPc>,
    workers: map<nat, WorkerPc>,
    done: set<nat>,
    starts: seq<nat>) // ids of the started fns, in order

  datatype Step =
    | Enqueue(priority: int, pool: Pool, stamp: int)
    | Kick(id: nat)
    | CallerReturns(id: nat, reason: Reason)
    | AcquireSlot
    | Pick(clock: seq<int>, outcome: Outcome)
    | Launch
    | DropEmpty
    | WakeEmpty
    | DropWait
    | TimerFires
    | WakeWait
    | Probe
    | Exit
    | FnReturns(id: nat)
    | WorkerRelease(id: nat)
    | WorkerKick(id: nat)
    | WorkerClose(id: nat)
    | HeaderUpdate(hpool: Pool, headers: Headers)
    | Tick(time: int)
    | Stop

  ghost predicate Init(s: State) {
    && s.lim.queue == [] && s.lim.streak == 0
    && s.lim.rest.resetAt == None && s.lim.graphql.resetAt == None
    && !s.wake && s.slots == 0 && !s.stopped && s.pc == Acquiring
    && s.nextId == 0 && s.callers == map[] && s.workers == map[] && s.done == {} && s.starts == []
  }

  // One step of one goroutine or of the environment; `c` is the concurrency.
  ghost predicate Next(c: nat, s: State, step: Step, s': State) {
    match step
    case Enqueue(priority, pool, stamp) =>
      var r := Request(s.nextId, priority, pool, stamp);
      && stamp <= s.now
      && s' == s.(lim := s.lim.(queue := StableInsert(s.lim.queue, r)),
                  nextId := s.nextId + 1,
                  callers := s.callers[r.id := BeforeKick])
    case Kick(id) =>
      && id in s.callers && s.callers[id] == BeforeKick
      && s' == s.(wake := true, callers := s.callers[id := Waiting])
    case CallerReturns(id, reason) =>
      && id in s.callers && s.callers[id] == Waiting
      && (reason == Completed ==> id in s.done)
      && (reason == LimiterStopped ==> s.stopped)
      && s' == s.(callers := s.callers[id := Returned(reason)])
    case AcquireSlot =>
      s.pc == Acquiring && s.slots < c && s' == s.(slots := s.slots + 1, pc := Picking)
    case Pick(clock, outcome) =>
      && s.pc == Picking
      && ClockOk(s.lim, clock) && s.now <= clock[0]
      && Picks(s.lim, clock, outcome, s'.lim)
      && s' == s.(lim := s'.lim, now := clock[|s.lim.queue|],
                  pc := match outcome
                        case Empty => DroppingEmpty
                        case Picked(_, r) => Launching(r)
                        case Wait(d) => DroppingWait(d))
    case Launch =>
      && s.pc.Launching?
      && s' == s.(workers := s.workers[s.pc.request.id := Running],
                  starts := s.starts + [s.pc.request.id],
                  pc := Acquiring)
    case DropEmpty =>
      s.pc == DroppingEmpty && s.slots > 0 && s' == s.(slots := s.slots - 1, pc := ParkedEmpty)
    case WakeEmpty =>
      s.pc == ParkedEmpty && s.wake && s' == s.(wake := false, pc := Acquiring)
    case DropWait =>
      && s.pc.DroppingWait? && s.slots > 0
      && s' == s.(slots := s.slots - 1, pc := ParkedWait(s.now + s.pc.delay))
    case TimerFires =>
      s.pc.ParkedWait? && s.now >= s.pc.deadline && s' == s.(pc := Probing)
    case WakeWait =>
      s.pc.ParkedWait? && s.wake && s' == s.(wake := false, pc := Probing)
    case Probe =>
      && s.pc == Probing
      && s' == s.(lim := s.lim.(rest := Probed(s.lim.rest, s.now), graphql := Probed(s.lim.graphql, s.now)),
                  pc := Acquiring)
    case Exit =>
      && s.stopped && (s.pc == Acquiring || s.pc == ParkedEmpty || s.pc.ParkedWait?)
      && s' == s.(pc := Exited)
    case FnReturns(id) =>
      id in s.workers && s.workers[id] == Running && s' == s.(workers := s.workers[id := Finished])
    case WorkerRelease(id) =>
      && id in s.workers && s.workers[id] == Finished && s.slots > 0
      && s' == s.(workers := s.workers[id := Released], slots := s.slots - 1)
    case WorkerKick(id) =>
      && id in s.workers && s.workers[id] == Released
      && s' == s.(workers := s.workers[id := Kicked], wake := true)
    case WorkerClose(id) =>
      && id in s.workers && s.workers[id] == Kicked
      && s' == s.(workers := s.workers - {id}, done := s.done + {id})
    case HeaderUpdate(pool, h) =>
      s' == s.(lim := s.lim.WithPool(pool, Updated(s.lim.PoolOf(pool), h, s.now)))
    case Tick(t) =>
      s.now <= t && s' == s.(now := t)
    case Stop =>
      s' == s.(stopped := true)
  }

  // A finite run from any state: state i takes steps[i] to state i + 1.
  ghost predicate Path(c: nat, states: seq<State>, steps: seq<Step>) {
    && |states| == |steps| + 1
    && forall i :: 0 <= i < |steps| ==> Next(c, states[i], steps[i], states[i + 1])
  }

  ghost predicate Run(c: nat, states: seq<State>, steps: seq<Step>) {
    Path(c, states, steps) && Init(states[0])
  }

  // ---------------------------------------------------------------- the invariant

  function QueueIds(q: seq<Request>): set<nat> {
    set i | 0 <= i < |q| :: q[i].id
  }

  ghost predicate DistinctIds(q: seq<Request>) {
    forall i, j :: 0 <= i < j < |q| ==> q[i].id != q[j].id
  }

  function LaunchIds(pc: DispatcherPc): set<nat> {
    if pc.Launching? then {pc.request.id} else {}
  }

  // The enqueued requests are the disjoint union of the queued, the one being launched,
  // the ones a worker has, and the finished ones.
  ghost predicate Partitioned(s: State) {
    && (forall id: nat :: id in s.callers <==> id < s.nextId)
    && (forall id: nat :: id in s.callers <==>
          id in QueueIds(s.lim.queue) || id in LaunchIds(s.pc) || id in s.workers || id in s.done)
    && QueueIds(s.lim.queue) !! LaunchIds(s.pc) !! s.workers.Keys !! s.done
  }

  // Each started fn was started once, and is with a worker or done.
  ghost predicate StartedOnce(s: State) {
    && (forall i, j :: 0 <= i < j < |s.starts| ==> s.starts[i] != s.starts[j])
    && (forall id: nat :: id in s.starts <==> id in s.workers || id in s.done)
  }

  ghost predicate Conserved(s: State) {
    Ordered(s.lim.queue) && DistinctIds(s.lim.queue) && Partitioned(s) && StartedOnce(s)
  }

  predicate HoldsSlot(w: WorkerPc) {
    w == Running || w == Finished
  }

  function Holders(workers: map<nat, WorkerPc>): set<nat> {
    set id | id in workers && HoldsSlot(workers[id])
  }

  function DispatcherSlots(pc: DispatcherPc): nat {
    if pc == Picking || pc.Launching? || pc == DroppingEmpty || pc.DroppingWait? then 1 else 0
  }

  ghost predicate SlotsCounted(c: nat, s: State) {
    s.slots == |Holders(s.workers)| + DispatcherSlots(s.pc) <= c
  }

  // A dispatcher that saw the queue empty and has not gone back to it will be woken if
  // something was queued since.
  ghost predicate WakeKept(s: State) {
    (s.pc == DroppingEmpty || s.pc == ParkedEmpty) && s.lim.queue != [] ==>
      s.wake || exists id: nat :: id in s.callers && s.callers[id] == BeforeKick
  }

  ghost predicate CallersHonest(s: State) {
    forall id: nat :: id in s.callers && s.callers[id].Returned? ==>
      && (s.callers[id].reason == Completed ==> id in s.done)
      && (s.callers[id].reason == LimiterStopped ==> s.stopped)
  }

  ghost predicate Inv(c: nat, s: State) {
    Conserved(s) && SlotsCounted(c, s) && WakeKept(s) && CallersHonest(s) && (s.pc == Exited ==> s.stopped)
  }

  lemma InitInv(c: nat, s: State)
    requires Init(s)
    ensures Inv(c, s)
  {
    assert Holders(s.workers) == {};
  }

  lemma InsertIds(q: seq<Request>, r: Request)
    requires DistinctIds(q) && r.id !in QueueIds(q)
    ensures QueueIds(StableInsert(q, r)) == QueueIds(q) + {r.id}
    ensures DistinctIds(StableInsert(q, r))
  {
    StableInsertMembers(q, r);
    var s := StableInsert(q, r);
    forall id ensures id in QueueIds(s) <==> id in QueueIds(q) + {r.id} {
      if id in QueueIds(s) {
        var i :| 0 <= i < |s| && s[i].id == id;
        assert s[i] in s;
      }
      if id in QueueIds(q) {
        var i :| 0 <= i < |q| && q[i].id == id;
        assert q[i] in s;
      }
      if id == r.id { assert r in s; }
    }
    InsertDistinct(q, r);
  }

  lemma {:induction false} InsertDistinct(q: seq<Request>, r: Request)
    requires DistinctIds(q) && r.id !in QueueIds(q)
    ensures DistinctIds(StableInsert(q, r))
  {
    forall i | 0 <= i < |q| ensures q[i].id != r.id {
      assert q[i].id in QueueIds(q);
    }
    if q != [] && Less(r, q[|q| - 1]) {
      var front := q[..|q| - 1];
      InsertDistinct(front, r);
      StableInsertMembers(front, r);
      var s := StableInsert(front, r);
      forall i | 0 <= i < |s| ensures s[i].id != q[|q| - 1].id {
        assert s[i] in s;
      }
    }
  }

  lemma RemoveIds(q: seq<Request>, i: nat)
    requires DistinctIds(q) && i < |q|
    ensures QueueIds(q[..i] + q[i + 1..]) == QueueIds(q) - {q[i].id}
    ensures DistinctIds(q[..i] + q[i + 1..])
  {
    var s := q[..i] + q[i + 1..];
    forall id | id in QueueIds(q) - {q[i].id} ensures id in QueueIds(s) {
      var j :| 0 <= j < |q| && q[j].id == id;
      assert s[if j < i then j else j - 1] == q[j];
    }
    forall j | 0 <= j < |s| ensures s[j].id in QueueIds(q) && s[j].id != q[i].id {
      assert s[j] == q[if j < i then j else j + 1];
    }
  }

  lemma ConservedEnqueue(s: State, r: Request, s': State)
    requires Conserved(s) && r.id == s.nextId
    requires s' == s.(lim := s.lim.(queue := StableInsert(s.lim.queue, r)),
                      nextId := s.nextId + 1, callers := s.callers[r.id := BeforeKick])
    ensures Conserved(s')
  {
    forall x | x in s.lim.queue ensures x.id < r.id {
      var i :| 0 <= i < |s.lim.queue| && s.lim.queue[i] == x;
      assert x.id in QueueIds(s.lim.queue);
    }
    assert r.id !in s.callers;
    InsertIds(s.lim.queue, r);
    StableInsertOrdered(s.lim.queue, r);
  }

  lemma ConservedPicked(s: State, i: nat, s': State)
    requires Conserved(s) && s.pc == Picking && i < |s.lim.queue|
    requires s'.lim.queue == s.lim.queue[..i] + s.lim.queue[i + 1..] && s'.pc == Launching(s.lim.queue[i])
    requires s'.nextId == s.nextId && s'.callers == s.callers && s'.workers == s.workers
    requires s'.done == s.done && s'.starts == s.starts
    ensures Conserved(s')
  {
    OrderedRemove(s.lim.queue, i);
    RemoveIds(s.lim.queue, i);
    assert s.lim.queue[i].id in QueueIds(s.lim.queue);
  }

  lemma ConservedLaunch(s: State, s': State)
    requires Conserved(s) && s.pc.Launching?
    requires s' == s.(workers := s.workers[s.pc.request.id := Running],
                      starts := s.starts + [s.pc.request.id], pc := Acquiring)
    ensures Conserved(s')
  {
    var id := s.pc.request.id;
    assert id in LaunchIds(s.pc);
    assert id !in s.workers.Keys && id !in s.done && id !in s.starts;
    assert s'.workers.Keys == s.workers.Keys + LaunchIds(s.pc);
  }

  lemma ConservedClose(s: State, id: nat, s': State)
    requires Conserved(s) && id in s.workers
    requires s' == s.(workers := s.workers - {id}, done := s.done + {id})
    ensures Conserved(s')
  {
    assert s'.workers.Keys == s.workers.Keys - {id};
    assert id in s.workers.Keys;
  }

  // Steps that move no request.
  lemma ConservedIdle(s: State, s': State)
    requires Conserved(s)
    requires s'.lim.queue == s.lim.queue && LaunchIds(s'.pc) == LaunchIds(s.pc)
    requires s'.nextId == s.nextId && s'.callers.Keys == s.callers.Keys && s'.workers.Keys == s.workers.Keys
    requires s'.done == s.done && s'.starts == s.starts
    ensures Conserved(s')
  {
    forall id: nat ensures (id in s'.callers <==> id in s.callers) && (id in s'.workers <==> id in s.workers) {
      assert id in s'.callers <==> id in s'.callers.Keys;
      assert id in s'.workers <==> id in s'.workers.Keys;
    }
  }

  // The steps that move a request from one place to another.
  predicate MovesRequest(step: Step) {
    step.Enqueue? || (step.Pick? && step.outcome.Picked?) || step.Launch? || step.WorkerClose?
  }

  lemma ConservedMove(c: nat, s: State, step: Step, s': State)
    requires Conserved(s) && Next(c, s, step, s') && MovesRequest(step)
    ensures Conserved(s')
  {
    match step {
      case Enqueue(priority, pool, stamp) => ConservedEnqueue(s, Request(s.nextId, priority, pool, stamp), s');
      case Pick(_, outcome) => ConservedPicked(s, outcome.index, s');
      case Launch => ConservedLaunch(s, s');
      case WorkerClose(id) => ConservedClose(s, id, s');
    }
  }

  // The steps of callers and workers that only advance one of them.
  predicate Advances(step: Step) {
    step.Kick? || step.CallerReturns? || step.FnReturns? || step.WorkerRelease? || step.WorkerKick?
  }

  lemma AdvanceKeepsIds(c: nat, s: State, step: Step, s': State)
    requires Next(c, s, step, s') && Advances(step)
    ensures s'.callers.Keys == s.callers.Keys && s'.workers.Keys == s.workers.Keys
    ensures s'.lim == s.lim && s'.pc == s.pc && s'.nextId == s.nextId && s'.done == s.done && s'.starts == s.starts
  {}

  lemma ConservedAdvance(c: nat, s: State, step: Step, s': State)
    requires Conserved(s) && Next(c, s, step, s') && Advances(step)
    ensures Conserved(s')
  {
    AdvanceKeepsIds(c, s, step, s');
    ConservedIdle(s, s');
  }

  lemma ConservedRest(c: nat, s: State, step: Step, s': State)
    requires Conserved(s) && Next(c, s, step, s') && !MovesRequest(step) && !Advances(step)
    ensures Conserved(s')
  {
    ConservedIdle(s, s');
  }

  lemma ConservedNext(c: nat, s: State, step: Step, s': State)
    requires Conserved(s) && Next(c, s, step, s')
    ensures Conserved(s')
  {
    if MovesRequest(step) {
      ConservedMove(c, s, step, s');
    } else if Advances(step) {
      ConservedAdvance(c, s, step, s');
    } else {
      ConservedRest(c, s, step, s');
    }
  }

  // Setting one worker's pc adds it to the slot holders or takes it out of them.
  lemma HoldersUpdate(workers: map<nat, WorkerPc>, id: nat, w: WorkerPc)
    ensures Holders(workers[id := w]) == if HoldsSlot(w) then Holders(workers) + {id} else Holders(workers) - {id}
  {
    var m := workers[id := w];
    forall x: nat ensures x in Holders(m) <==> x in m && HoldsSlot(m[x]) {}
  }

  lemma SlotsLaunch(c: nat, s: State, s': State)
    requires SlotsCounted(c, s) && s.pc.Launching? && s.pc.request.id !in s.workers
    requires s'.workers == s.workers[s.pc.request.id := Running] && s'.slots == s.slots && s'.pc == Acquiring
    ensures SlotsCounted(c, s')
  {
    HoldersUpdate(s.workers, s.pc.request.id, Running);
    assert s.pc.request.id !in Holders(s.workers);
  }

  lemma SlotsWorker(c: nat, s: State, id: nat, w: WorkerPc, s': State)
    requires SlotsCounted(c, s) && id in s.workers
    requires s'.workers == s.workers[id := w] && s'.pc == s.pc
    requires HoldsSlot(w) ==> HoldsSlot(s.workers[id])
    requires s'.slots + (if HoldsSlot(s.workers[id]) && !HoldsSlot(w) then 1 else 0) == s.slots
    ensures SlotsCounted(c, s')
  {
    HoldersUpdate(s.workers, id, w);
    assert id in Holders(s.workers) <==> HoldsSlot(s.workers[id]);
    if HoldsSlot(w) {
      assert Holders(s'.workers) == Holders(s.workers);
    } else if !HoldsSlot(s.workers[id]) {
      assert Holders(s'.workers) == Holders(s.workers);
    }
  }

  lemma SlotsIdle(c: nat, s: State, s': State)
    requires SlotsCounted(c, s) && s'.slots <= c
    requires Holders(s'.workers) == Holders(s.workers)
    requires s'.slots + DispatcherSlots(s.pc) == s.slots + DispatcherSlots(s'.pc)
    ensures SlotsCounted(c, s')
  {}

  lemma SlotsOfWorker(c: nat, s: State, step: Step, s': State)
    requires SlotsCounted(c, s) && Next(c, s, step, s')
    requires step.FnReturns? || step.WorkerRelease? || step.WorkerKick? || step.WorkerClose?
    ensures SlotsCounted(c, s')
  {
    match step {
      case WorkerRelease(id) => SlotsWorker(c, s, id, Released, s');
      case FnReturns(id) => SlotsWorker(c, s, id, Finished, s');
      case WorkerKick(id) => SlotsWorker(c, s, id, Kicked, s');
      case WorkerClose(id) =>
        assert Holders(s'.workers) == Holders(s.workers);
        SlotsIdle(c, s, s');
    }
  }

  lemma SlotsNext(c: nat, s: State, step: Step, s': State)
    requires SlotsCounted(c, s) && Next(c, s, step, s')
    requires s.pc.Launching? ==> s.pc.request.id !in s.workers
    ensures SlotsCounted(c, s')
  {
    if step.FnReturns? || step.WorkerRelease? || step.WorkerKick? || step.WorkerClose? {
      SlotsOfWorker(c, s, step, s');
    } else if step.Launch? {
      SlotsLaunch(c, s, s');
    } else {
      SlotsIdle(c, s, s');
    }
  }

  lemma WakeNext(c: nat, s: State, step: Step, s': State)
    requires WakeKept(s) && Next(c, s, step, s')
    ensures WakeKept(s')
  {
    match step {
      case Enqueue(_, _, _) =>
        assert s'.callers[s.nextId] == BeforeKick;
      case CallerReturns(_, _) =>
        forall id | id in s.callers && s.callers[id] == BeforeKick
          ensures id in s'.callers && s'.callers[id] == BeforeKick {}
      case _ =>
    }
  }

  lemma InvNext(c: nat, s: State, step: Step, s': State)
    requires Inv(c, s) && Next(c, s, step, s')
    ensures Inv(c, s')
  {
    ConservedNext(c, s, step, s');
    assert s.pc.Launching? ==> s.pc.request.id in LaunchIds(s.pc) && s.pc.request.id !in s.workers.Keys;
    SlotsNext(c, s, step, s');
    WakeNext(c, s, step, s');
    CallersNext(c, s, step, s');
    ExitNext(c, s, step, s');
  }

  lemma CallersNext(c: nat, s: State, step: Step, s': State)
    requires CallersHonest(s) && Next(c, s, step, s')
    ensures CallersHonest(s')
  {}

  lemma ExitNext(c: nat, s: State, step: Step, s': State)
    requires (s.pc == Exited ==> s.stopped) && Next(c, s, step, s')
    ensures s'.pc == Exited ==> s'.stopped
  {}

  // Every state of every run satisfies the invariant.
  lemma {:induction false} RunInv(c: nat, states: seq<State>, steps: seq<Step>, n: nat)
    requires Run(c, states, steps) && n < |states|
    ensures Inv(c, states[n])
  {
    if n == 0 {
      InitInv(c, states[0]);
    } else {
      RunInv(c, states, steps, n - 1);
      InvNext(c, states[n - 1], steps[n - 1], states[n]);
    }
  }

  // ---------------------------------------------------------------- safety over runs

  function InPlace(b: bool): nat {
    if b then 1 else 0
  }

  lemma {:induction false} DistinctCount(starts: seq<nat>, id: nat)
    requires forall i, j :: 0 <= i < j < |starts| ==> starts[i] != starts[j]
    ensures multiset(starts)[id] == InPlace(id in starts)
  {
    if starts != [] {
      DistinctCount(starts[1..], id);
      assert starts == [starts[0]] + starts[1..];
    }
  }

  // In every reachable state: a request is in exactly one of the queue, the dispatcher's
  // hand, a worker and the finished ones; its fn was started once if it left the queue for a
  // worker and not at all before; the slots taken are those of the workers that have not
  // released theirs and the dispatcher's own; and at most `c` fns run.
  lemma SchedulerConservation(c: nat, states: seq<State>, steps: seq<Step>, n: nat, id: nat)
    requires Run(c, states, steps) && n < |states|
    ensures var s := states[n];
            && (id < s.nextId ==>
                  InPlace(exists i :: 0 <= i < |s.lim.queue| && s.lim.queue[i].id == id)
                  + InPlace(s.pc.Launching? && s.pc.request.id == id)
                  + InPlace(id in s.workers) + InPlace(id in s.done) == 1)
            && multiset(s.starts)[id] == InPlace(id in s.workers || id in s.done)
            && s.slots == |set w | w in s.workers && (s.workers[w] == Running || s.workers[w] == Finished)|
                          + InPlace(s.pc == Picking || s.pc.Launching? || s.pc == DroppingEmpty || s.pc.DroppingWait?)
            && s.slots <= c
            && forall fns: set<nat> :: (forall w :: w in fns ==> w in s.workers && s.workers[w] == Running) ==> |fns| <= c
  {
    RunInv(c, states, steps, n);
    var s := states[n];
    DistinctCount(s.starts, id);
    assert id in QueueIds(s.lim.queue) <==> exists i :: 0 <= i < |s.lim.queue| && s.lim.queue[i].id == id;
    assert id in LaunchIds(s.pc) <==> s.pc.Launching? && s.pc.request.id == id;
    assert id in s.workers <==> id in s.workers.Keys;
    assert Holders(s.workers) == set w | w in s.workers && (s.workers[w] == Running || s.workers[w] == Finished);
    forall fns: set<nat> | forall w :: w in fns ==> w in s.workers && s.workers[w] == Running ensures |fns| <= c {
      SubsetSize(fns, Holders(s.workers));
    }
  }

  // Schedule returns fn's result only when fn has finished, and reports a stop only
  // after Stop.
  lemma CallersToldTheTruth(c: nat, states: seq<State>, steps: seq<Step>, n: nat, id: nat)
    requires Run(c, states, steps) && n < |states|
    requires id in states[n].callers && states[n].callers[id].Returned?
    ensures states[n].callers[id].reason == Completed ==> id in states[n].done && id in states[n].starts
    ensures states[n].callers[id].reason == LimiterStopped ==> states[n].stopped
  {
    RunInv(c, states, steps, n);
  }

  lemma NoLostWakeup(c: nat, states: seq<State>, steps: seq<Step>, n: nat)
    requires Run(c, states, steps) && n < |states|
    requires states[n].pc == ParkedEmpty && states[n].lim.queue != []
    ensures states[n].wake || exists id: nat :: id in states[n].callers && states[n].callers[id] == BeforeKick
  {
    RunInv(c, states, steps, n);
  }

  // ---------------------------------------------------------------- progress

  // Steps left until the dispatcher can hold a slot, given that running fns return.
  function AcquireDistance(c: nat, s: State): nat {
    if s.slots < c then 1
    else if exists id :: id in s.workers && s.workers[id] == Finished then 2
    else 3
  }

  function Distance(c: nat, s: State): nat {
    match s.pc
    case Picking => 0
    case Acquiring => AcquireDistance(c, s)
    case Launching(_) => 4
    case DroppingEmpty => 6
    case ParkedEmpty => 1 + AcquireDistance(c, s) + if s.wake then 0 else 1
    case DroppingWait(_) => 7
    case ParkedWait(t) => 2 + AcquireDistance(c, s) + if s.now >= t then 0 else 1
    case Probing => 1 + AcquireDistance(c, s)
    case Exited => 0
  }

  lemma DistanceBound(c: nat, s: State)
    ensures Distance(c, s) <= 7
  {}

  // The steps the scheduler, its callers and the passing of time take by themselves.
  predicate Internal(step: Step) {
    !step.Enqueue? && !step.HeaderUpdate? && !step.Stop? && !step.CallerReturns? && !step.Exit?
  }

  lemma FullMeansWorker(c: nat, s: State) returns (id: nat)
    requires SlotsCounted(c, s) && c > 0 && s.slots >= c && DispatcherSlots(s.pc) == 0
    ensures id in s.workers && HoldsSlot(s.workers[id])
    ensures (exists x :: x in s.workers && s.workers[x] == Finished) ==> s.workers[id] == Finished
  {
    if x :| x in s.workers && s.workers[x] == Finished {
      id := x;
    } else {
      assert Holders(s.workers) != {};
      id :| id in Holders(s.workers);
    }
  }

  // A dispatcher without a slot either gets one, or a worker that fills it moves.
  lemma TowardsSlot(c: nat, s: State) returns (step: Step, s': State)
    requires SlotsCounted(c, s) && c > 0 && s.pc == Acquiring
    ensures Next(c, s, step, s') && Internal(step) && !step.Tick?
    ensures s'.lim == s.lim && s'.stopped == s.stopped
    ensures Distance(c, s') < Distance(c, s)
  {
    if s.slots < c {
      step, s' := AcquireSlot, s.(slots := s.slots + 1, pc := Picking);
    } else {
      var id := FullMeansWorker(c, s);
      if s.workers[id] == Finished {
        step, s' := WorkerRelease(id), s.(workers := s.workers[id := Released], slots := s.slots - 1);
      } else {
        step, s' := FnReturns(id), s.(workers := s.workers[id := Finished]);
        assert s'.workers[id] == Finished;
      }
    }
  }

  // A dispatcher that holds a slot can always act on its pick.
  lemma WithSlot(c: nat, s: State) returns (step: Step, s': State)
    requires SlotsCounted(c, s) && c > 0 && (s.pc.Launching? || s.pc == DroppingEmpty || s.pc.DroppingWait?)
    ensures Next(c, s, step, s') && Internal(step) && !step.Tick?
    ensures s'.lim == s.lim && s'.stopped == s.stopped
    ensures Distance(c, s') < Distance(c, s)
  {
    match s.pc {
      case Launching(r) =>
        step, s' := Launch, s.(workers := s.workers[r.id := Running], starts := s.starts + [r.id], pc := Acquiring);
      case DroppingEmpty =>
        step, s' := DropEmpty, s.(slots := s.slots - 1, pc := ParkedEmpty);
      case DroppingWait(d) =>
        step, s' := DropWait, s.(slots := s.slots - 1, pc := ParkedWait(s.now + d));
    }
  }

  // A parked dispatcher is woken by the token, a pending kick or the timer.
  lemma WhileParked(c: nat, s: State) returns (step: Step, s': State)
    requires WakeKept(s) && s.lim.queue != [] && (s.pc == ParkedEmpty || s.pc.ParkedWait?)
    ensures Next(c, s, step, s') && Internal(step)
    ensures step.Tick? ==> s.pc.ParkedWait? && step.time == s.pc.deadline
    ensures s'.lim == s.lim && s'.stopped == s.stopped
    ensures Distance(c, s') < Distance(c, s)
  {
    match s.pc {
      case ParkedEmpty =>
        if s.wake {
          step, s' := WakeEmpty, s.(wake := false, pc := Acquiring);
        } else {
          var id: nat :| id in s.callers && s.callers[id] == BeforeKick;
          step, s' := Kick(id), s.(wake := true, callers := s.callers[id := Waiting]);
        }
      case ParkedWait(t) =>
        if s.now >= t {
          step, s' := TimerFires, s.(pc := Probing);
        } else {
          step, s' := Tick(t), s.(now := t);
        }
    }
  }

  // A pool that can have budget again without a header update.
  predicate Live(p: PoolState) {
    p.remaining > 0 || p.resetAt.Some?
  }

  // The same queue, and no pool that could have budget has lost that.
  ghost predicate Kept(l: Limiter, l': Limiter) {
    l'.queue == l.queue && forall pool :: Live(l.PoolOf(pool)) ==> Live(l'.PoolOf(pool))
  }

  lemma WhileProbing(c: nat, s: State) returns (step: Step, s': State)
    requires s.pc == Probing
    ensures Next(c, s, step, s') && Internal(step) && !step.Tick?
    ensures Kept(s.lim, s'.lim) && s'.stopped == s.stopped
    ensures Distance(c, s') < Distance(c, s)
  {
    step := Probe;
    s' := s.(lim := s.lim.(rest := Probed(s.lim.rest, s.now), graphql := Probed(s.lim.graphql, s.now)),
             pc := Acquiring);
  }

  // On the way to a pick, some internal step brings the dispatcher closer to it.
  lemma TowardsPick(c: nat, s: State) returns (step: Step, s': State)
    requires SlotsCounted(c, s) && WakeKept(s) && (s.pc == Exited ==> s.stopped) && c > 0 && !s.stopped && s.lim.queue != [] && s.pc != Picking
    ensures Next(c, s, step, s') && Internal(step)
    ensures step.Tick? ==> s.pc.ParkedWait? && step.time == s.pc.deadline
    ensures Kept(s.lim, s'.lim) && !s'.stopped
    ensures Distance(c, s') < Distance(c, s)
  {
    if s.pc == Acquiring {
      step, s' := TowardsSlot(c, s);
    } else if s.pc.Launching? || s.pc == DroppingEmpty || s.pc.DroppingWait? {
      step, s' := WithSlot(c, s);
    } else if s.pc == ParkedEmpty || s.pc.ParkedWait? {
      step, s' := WhileParked(c, s);
    } else {
      step, s' := WhileProbing(c, s);
    }
  }

  // The first request that is runnable when every check reads `now`.
  lemma {:induction false} FirstRunnable(l: Limiter, now: int, n: nat) returns (i: nat)
    requires n <= |l.queue|
    ensures i <= n && (i < n ==> l.Runnable(i, now))
    ensures forall j :: 0 <= j < i ==> !l.Runnable(j, now)
  {
    i := 0;
    while i < n && !l.Runnable(i, now)
      invariant i <= n && forall j :: 0 <= j < i ==> !l.Runnable(j, now)
    {
      i := i + 1;
    }
  }

  // A dispatcher that is about to pick can pick, at any later moment: a request if one is
  // runnable then, a delay otherwise, and not the empty outcome while something is queued.
  lemma PickEnabled(c: nat, s: State, now: int) returns (step: Step, s': State)
    requires s.pc == Picking && s.now <= now
    ensures Next(c, s, step, s') && step.Pick?
    ensures step.outcome.Empty? <==> s.lim.queue == []
    ensures step.outcome.Picked? <==> exists i :: 0 <= i < |s.lim.queue| && s.lim.Runnable(i, now)
  {
    var l, n := s.lim, |s.lim.queue|;
    var clock := seq(n + 1, i => now);
    var i := FirstRunnable(l, now, n);
    if n == 0 {
      step, s' := Pick(clock, Empty), s.(now := now, pc := DroppingEmpty);
    } else if i < n {
      var r := l.queue[i];
      var l' := l.(queue := l.queue[..i] + l.queue[i + 1..], streak := 0)
                 .WithPool(r.pool, Charged(Refilled(l.PoolOf(r.pool), now), r.pool));
      step, s' := Pick(clock, Picked(i, r)), s.(lim := l', now := now, pc := Launching(r));
    } else {
      var d := DelayFor(l, now, 0.0, Rest);
      DelayInBounds(l, now, 0.0, Rest);
      step, s' := Pick(clock, Wait(d)), s.(lim := l.(streak := l.streak + 1), now := now, pc := DroppingWait(d));
    }
  }

  // No stuck state: while the limiter is not stopped and something is queued, some internal
  // step picks from the queue or brings the dispatcher closer to a pick over it.
  lemma NeverStuck(c: nat, s: State) returns (step: Step, s': State)
    requires Inv(c, s) && c > 0 && !s.stopped && s.lim.queue != []
    ensures Next(c, s, step, s') && Internal(step)
    ensures step.Tick? ==> s.pc.ParkedWait? && step.time == s.pc.deadline
    ensures if s.pc == Picking then step.Pick? && !step.outcome.Empty?
            else s'.lim.queue == s.lim.queue && !s'.stopped && Distance(c, s') < Distance(c, s)
  {
    if s.pc == Picking {
      step, s' := PickEnabled(c, s, s.now);
    } else {
      step, s' := TowardsPick(c, s);
    }
  }

  // A path of at most `bound` internal steps from `s` to where the dispatcher is about to
  // pick from the queue of `s`.
  ghost predicate LeadsToPicking(c: nat, s: State, states: seq<State>, steps: seq<Step>, bound: nat) {
    && Path(c, states, steps) && states[0] == s && |steps| <= bound
    && (forall i :: 0 <= i < |steps| ==> Internal(steps[i]))
    && states[|steps|].pc == Picking && Kept(s.lim, states[|steps|].lim)
  }

  lemma LeadsPrepend(c: nat, s: State, step: Step, s': State, states: seq<State>, steps: seq<Step>, bound: nat)
    requires Next(c, s, step, s') && Internal(step) && Kept(s.lim, s'.lim)
    requires LeadsToPicking(c, s', states, steps, bound)
    ensures LeadsToPicking(c, s, [s] + states, [step] + steps, bound + 1)
  {
    var ss, ts := [s] + states, [step] + steps;
    forall i | 0 <= i < |ts| ensures Next(c, ss[i], ts[i], ss[i + 1]) && Internal(ts[i]) {
      if i > 0 { assert Next(c, states[i - 1], steps[i - 1], states[i]); }
    }
  }

  lemma {:induction false} PickingWithin(c: nat, s: State, bound: nat)
    returns (states: seq<State>, steps: seq<Step>)
    requires Inv(c, s) && c > 0 && !s.stopped && s.lim.queue != [] && Distance(c, s) <= bound
    ensures LeadsToPicking(c, s, states, steps, bound)
    decreases bound
  {
    if s.pc == Picking {
      states, steps := [s], [];
    } else {
      var step, s' := TowardsPick(c, s);
      InvNext(c, s, step, s');
      var rest, more := PickingWithin(c, s', bound - 1);
      LeadsPrepend(c, s, step, s', rest, more, bound - 1);
      states, steps := [s] + rest, [step] + more;
    }
  }

  // A path of at most `bound` internal steps, the last of which is a pick from the queue of
  // `s` that finds it non-empty.
  ghost predicate EndsInPick(c: nat, s: State, states: seq<State>, steps: seq<Step>, bound: nat) {
    && Path(c, states, steps) && states[0] == s && 0 < |steps| <= bound
    && (forall i :: 0 <= i < |steps| ==> Internal(steps[i]))
    && states[|steps| - 1].lim.queue == s.lim.queue
    && steps[|steps| - 1].Pick? && !steps[|steps| - 1].outcome.Empty?
  }

  lemma PickAppended(c: nat, s: State, states: seq<State>, steps: seq<Step>, step: Step, s': State, bound: nat)
    requires LeadsToPicking(c, s, states, steps, bound)
    requires Next(c, states[|steps|], step, s') && step.Pick? && !step.outcome.Empty?
    ensures EndsInPick(c, s, states + [s'], steps + [step], bound + 1)
  {
    var ss, ts := states + [s'], steps + [step];
    forall i | 0 <= i < |ts| ensures Next(c, ss[i], ts[i], ss[i + 1]) && Internal(ts[i]) {
      if i < |steps| { assert Next(c, states[i], steps[i], states[i + 1]); }
    }
  }

  // From every reachable state that is not stopped and has a request queued, at most 8
  // internal steps lead through a pick from the same queue, which dispatches or backs off.
  lemma ReachesPick(c: nat, states: seq<State>, steps: seq<Step>, n: nat)
    requires Run(c, states, steps) && n < |states| && c > 0
    requires !states[n].stopped && states[n].lim.queue != []
    ensures exists ss, ts :: EndsInPick(c, states[n], ss, ts, 8)
  {
    RunInv(c, states, steps, n);
    DistanceBound(c, states[n]);
    var ss, ts := PickingWithin(c, states[n], 7);
    var step, s' := PickEnabled(c, ss[|ts|], ss[|ts|].now);
    PickAppended(c, states[n], ss, ts, step, s', 7);
  }

  // ---------------------------------------------------------------- what can be dispatched

  ghost predicate SomeLive(l: Limiter) {
    exists i :: 0 <= i < |l.queue| && Live(l.PoolOf(l.queue[i].pool))
  }

  // A moment after every reset that was announced.
  function AfterResets(s: State): int {
    Max(s.now, Max(s.lim.rest.resetAt.GetOr(s.now), s.lim.graphql.resetAt.GetOr(s.now))) + 1
  }

  lemma RunnableAfterResets(s: State, i: nat)
    requires i < |s.lim.queue| && Live(s.lim.PoolOf(s.lim.queue[i].pool))
    ensures s.lim.Runnable(i, AfterResets(s))
  {}

  // At a pick: a request can be dispatched exactly when some queued request's pool has
  // something left or a reset that was announced at some time.
  lemma DispatchableExactly(c: nat, s: State)
    requires s.pc == Picking
    ensures (exists step: Step, s': State :: Next(c, s, step, s') && step.Pick? && step.outcome.Picked?) <==> SomeLive(s.lim)
  {
    if SomeLive(s.lim) {
      var i :| 0 <= i < |s.lim.queue| && Live(s.lim.PoolOf(s.lim.queue[i].pool));
      RunnableAfterResets(s, i);
      var step, s' := PickEnabled(c, s, AfterResets(s));
    }
    forall step: Step, s': State | Next(c, s, step, s') && step.Pick? && step.outcome.Picked? ensures SomeLive(s.lim) {
      var i := step.outcome.index;
      assert s.lim.Runnable(i, step.clock[i]);
      assert Live(s.lim.PoolOf(s.lim.queue[i].pool));
    }
  }

  // ---------------------------------------------------------------- dispatch order

  // Whatever is dispatched, no queued request of lower priority number, or of the same and
  // enqueued earlier, or of the same and appended earlier, belonged to a pool with anything
  // left or a passed reset when the pick looked at it.
  lemma DispatchOrder(c: nat, states: seq<State>, steps: seq<Step>, n: nat, j: nat)
    requires Run(c, states, steps) && n < |steps|
    requires steps[n].Pick? && steps[n].outcome.Picked? && j < |states[n].lim.queue|
    requires var q, r := states[n].lim.queue[j], steps[n].outcome.request;
             || q.priority < r.priority
             || (q.priority == r.priority && q.enqueued < r.enqueued)
             || (q.priority == r.priority && q.enqueued == r.enqueued && q.id < r.id)
    ensures Ordered(states[n].lim.queue) && Ordered(states[n + 1].lim.queue)
    ensures var p := states[n].lim.PoolOf(states[n].lim.queue[j].pool);
            p.remaining <= 0 && (p.resetAt.Some? ==> steps[n].clock[j] <= p.resetAt.value)
  {
    RunInv(c, states, steps, n);
    RunInv(c, states, steps, n + 1);
    PickOrder(c, states[n], steps[n], states[n + 1], j);
  }

  lemma PickOrder(c: nat, s: State, step: Step, s': State, j: nat)
    requires Inv(c, s) && Next(c, s, step, s') && step.Pick? && step.outcome.Picked?
    requires j < |s.lim.queue| && Precedes(s.lim.queue[j], step.outcome.request)
    ensures !s.lim.Runnable(j, step.clock[j])
  {
    var i, q := step.outcome.index, s.lim.queue;
    assert i < j ==> Precedes(q[i], q[j]);
  }

  // ---------------------------------------------------------------- budgets over runs

  predicate Dispatches(step: Step, pool: Pool) {
    step.Pick? && step.outcome.Picked? && step.outcome.request.pool == pool
  }

  function CountDispatches(steps: seq<Step>, pool: Pool): nat {
    if steps == [] then 0
    else CountDispatches(steps[..|steps| - 1], pool) + if Dispatches(steps[|steps| - 1], pool) then 1 else 0
  }

  predicate NoUpdate(steps: seq<Step>, pool: Pool) {
    forall i :: 0 <= i < |steps| ==> !(steps[i].HeaderUpdate? && steps[i].hpool == pool)
  }

  lemma ClockStep(c: nat, s: State, step: Step, s': State)
    requires Next(c, s, step, s')
    ensures s.now <= s'.now
  {
    if step.Pick? { assert step.clock[0] <= step.clock[|s.lim.queue|]; }
  }

  // A pool with nothing left and no reset ever announced stays so, and dispatches nothing,
  // along any path without a header update for it.
  lemma {:induction false} StarvedStays(c: nat, states: seq<State>, steps: seq<Step>, pool: Pool)
    requires Path(c, states, steps) && NoUpdate(steps, pool) && !Live(states[0].lim.PoolOf(pool))
    ensures !Live(states[|steps|].lim.PoolOf(pool)) && CountDispatches(steps, pool) == 0
  {
    if steps != [] {
      var n := |steps| - 1;
      StarvedStays(c, states[..n + 1], steps[..n], pool);
      StarvedStep(c, states[n], steps[n], states[n + 1], pool);
    }
  }

  lemma StarvedStep(c: nat, s: State, step: Step, s': State, pool: Pool)
    requires Next(c, s, step, s') && !(step.HeaderUpdate? && step.hpool == pool) && !Live(s.lim.PoolOf(pool))
    ensures !Live(s'.lim.PoolOf(pool)) && !Dispatches(step, pool)
  {
    if step.Pick? && step.outcome.Picked? {
      assert s.lim.Runnable(step.outcome.index, step.clock[step.outcome.index]);
    }
  }

  ghost predicate EndsInDispatch(c: nat, s: State, states: seq<State>, steps: seq<Step>, bound: nat) {
    EndsInPick(c, s, states, steps, bound) && steps[|steps| - 1].outcome.Picked?
  }

  // Over runs: from a reachable state before Stop, a path of at most 8 internal steps ends
  // in a dispatch exactly when such a request is queued, and without one no longer path
  // does either.
  lemma ReachesDispatch(c: nat, states: seq<State>, steps: seq<Step>, n: nat)
    requires Run(c, states, steps) && n < |states| && c > 0 && !states[n].stopped
    ensures SomeLive(states[n].lim) ==> exists ss, ts :: EndsInDispatch(c, states[n], ss, ts, 8)
    ensures (exists ss, ts, bound: nat :: EndsInDispatch(c, states[n], ss, ts, bound)) ==> SomeLive(states[n].lim)
  {
    if SomeLive(states[n].lim) {
      RunInv(c, states, steps, n);
      LivePathDispatches(c, states[n]);
    }
    forall ss, ts, bound: nat | EndsInDispatch(c, states[n], ss, ts, bound) ensures SomeLive(states[n].lim) {
      DispatchNeedsLive(c, states[n], ss, ts, bound);
    }
  }

  lemma LivePathDispatches(c: nat, s: State)
    requires Inv(c, s) && c > 0 && !s.stopped && SomeLive(s.lim)
    ensures exists ss, ts :: EndsInDispatch(c, s, ss, ts, 8)
  {
    var i :| 0 <= i < |s.lim.queue| && Live(s.lim.PoolOf(s.lim.queue[i].pool));
    DistanceBound(c, s);
    var ss, ts := PickingWithin(c, s, 7);
    var p := ss[|ts|];
    assert Live(p.lim.PoolOf(p.lim.queue[i].pool));
    RunnableAfterResets(p, i);
    var step, s' := PickEnabled(c, p, AfterResets(p));
    PickAppended(c, s, ss, ts, step, s', 7);
    assert EndsInDispatch(c, s, ss + [s'], ts + [step], 8);
  }

  lemma DispatchNeedsLive(c: nat, s: State, states: seq<State>, steps: seq<Step>, bound: nat)
    requires EndsInDispatch(c, s, states, steps, bound)
    ensures SomeLive(s.lim)
  {
    var n := |steps| - 1;
    assert Next(c, states[n], steps[n], states[n + 1]);
    var i := steps[n].outcome.index;
    var pool := s.lim.queue[i].pool;
    if !Live(s.lim.PoolOf(pool)) {
      assert NoUpdate(steps, pool);
      StarvedStays(c, states, steps, pool);
      assert Dispatches(steps[n], pool);
    }
  }

  // Over any span without a header update for `pool` and during which its reset does not
  // pass, each dispatch from the pool uses up one unit and nothing else changes it; so a
  // span sees no more dispatches than there were units.
  lemma {:induction false} BudgetOverSpan(c: nat, states: seq<State>, steps: seq<Step>, pool: Pool)
    requires Path(c, states, steps) && NoUpdate(steps, pool)
    requires !ResetPassed(states[0].lim.PoolOf(pool), states[|steps|].now)
    ensures states[|steps|].lim.PoolOf(pool).resetAt == states[0].lim.PoolOf(pool).resetAt
    ensures states[|steps|].lim.PoolOf(pool).remaining + CountDispatches(steps, pool)
            == states[0].lim.PoolOf(pool).remaining
    ensures CountDispatches(steps, pool) <= Max(0, states[0].lim.PoolOf(pool).remaining)
  {
    if steps != [] {
      var n := |steps| - 1;
      var s, step, s' := states[n], steps[n], states[n + 1];
      ClockStep(c, s, step, s');
      BudgetOverSpan(c, states[..n + 1], steps[..n], pool);
      BudgetStep(c, s, step, s', pool);
    }
  }

  lemma BudgetStep(c: nat, s: State, step: Step, s': State, pool: Pool)
    requires Next(c, s, step, s') && !(step.HeaderUpdate? && step.hpool == pool)
    requires !ResetPassed(s.lim.PoolOf(pool), s'.now)
    ensures s'.lim.PoolOf(pool).resetAt == s.lim.PoolOf(pool).resetAt
    ensures s'.lim.PoolOf(pool).remaining
            == s.lim.PoolOf(pool).remaining - if Dispatches(step, pool) then 1 else 0
    ensures Dispatches(step, pool) ==> s.lim.PoolOf(pool).remaining > 0
  {
    if step.Pick? && step.outcome.Picked? {
      var i := step.outcome.index;
      assert step.clock[i] <= step.clock[|s.lim.queue|] == s'.now;
    }
  }

  // After a Retry-After, nothing is dispatched from the pool until the announced time.
  lemma RetryAfterSilence(c: nat, states: seq<State>, steps: seq<Step>, pool: Pool)
    requires Path(c, states, steps) && steps != []
    requires steps[0].HeaderUpdate? && steps[0].hpool == pool && steps[0].headers.retryAfter.Some?
    requires NoUpdate(steps[1..], pool)
    requires states[|steps|].now <= states[0].now + steps[0].headers.retryAfter.value * SECOND
    ensures CountDispatches(steps[1..], pool) == 0
  {
    assert Next(c, states[0], steps[0], states[1]);
    BudgetOverSpan(c, states[1..], steps[1..], pool);
  }

  predicate NonNegativeHeaders(steps: seq<Step>) {
    forall i :: 0 <= i < |steps| && steps[i].HeaderUpdate? && steps[i].headers.remaining.Some? ==>
      steps[i].headers.remaining.value >= 0
  }

  lemma {:induction false} RemainingNonNegative(c: nat, states: seq<State>, steps: seq<Step>, pool: Pool)
    requires Path(c, states, steps) && NonNegativeHeaders(steps)
    requires states[0].lim.PoolOf(pool).remaining >= 0
    ensures states[|steps|].lim.PoolOf(pool).remaining >= 0
  {
    if steps != [] {
      var n := |steps| - 1;
      RemainingNonNegative(c, states[..n + 1], steps[..n], pool);
      assert Next(c, states[n], steps[n], states[n + 1]);
    }
  }

  // ---------------------------------------------------------------- backoff over runs

  function CountWaits(steps: seq<Step>): nat {
    if steps == [] then 0
    else CountWaits(steps[..|steps| - 1])
         + if steps[|steps| - 1].Pick? && steps[|steps| - 1].outcome.Wait? then 1 else 0
  }

  predicate NoDispatch(steps: seq<Step>) {
    forall i :: 0 <= i < |steps| ==> !(steps[i].Pick? && steps[i].outcome.Picked?)
  }

  lemma {:induction false} StreakCounts(c: nat, states: seq<State>, steps: seq<Step>)
    requires Path(c, states, steps) && NoDispatch(steps)
    ensures states[|steps|].lim.streak == states[0].lim.streak + CountWaits(steps)
  {
    if steps != [] {
      var n := |steps| - 1;
      StreakCounts(c, states[..n + 1], steps[..n]);
      StreakStep(c, states[n], steps[n], states[n + 1]);
    }
  }

  lemma StreakStep(c: nat, s: State, step: Step, s': State)
    requires Next(c, s, step, s') && !(step.Pick? && step.outcome.Picked?)
    ensures s'.lim.streak == s.lim.streak + if step.Pick? && step.outcome.Wait? then 1 else 0
  {}

  // Since a dispatch (or the start) j picks have failed, whatever else happened; the next
  // failed pick waits within the bounds for B(j), and never for no time.
  lemma BackoffOverRuns(c: nat, states: seq<State>, steps: seq<Step>)
    requires Path(c, states, steps) && steps != [] && NoDispatch(steps)
    requires states[0].lim.streak == 0
    requires steps[|steps| - 1].Pick? && steps[|steps| - 1].outcome.Wait?
    ensures var n := |steps| - 1;
            var j := CountWaits(steps[..n]);
            var s, wait, now := states[n], steps[n].outcome.delay, states[n + 1].now;
            var latest := Max(TimeToReset(s.lim.rest, now), TimeToReset(s.lim.graphql, now));
            && 0 < Backoff(j) <= wait
            && 4 * wait <= 4 * Max(Backoff(j), latest) + Backoff(j)
  {
    var n := |steps| - 1;
    StreakCounts(c, states[..n + 1], steps[..n]);
    assert Next(c, states[n], steps[n], states[n + 1]);
  }
}
