/**
  Every schedule of the rate limiter (internal/ghclient/ratelimit.go): how many steps its
  goroutines can take between picks. Next to a finished path to a pick this bounds all
  paths: a scheduler that keeps running the goroutines cannot put a pick off.
*/
module Schedules {
  import opened Wrappers
  import opened RateLimit
  import opened Dispatcher

  // A step of the dispatcher, a worker or a caller, other than the pick.
  predicate Moves(step: Step) {
    Goroutine(step) && !step.Pick?
  }

  predicate Goroutine(step: Step) {
    !step.Enqueue? && !step.HeaderUpdate? && !step.Tick? && !step.Stop?
  }

  // The steps each goroutine has left before the dispatcher is about to pick again, or has
  // exited, and the worker or caller is gone.
  function DispatcherLeft(pc: DispatcherPc): nat {
    match pc
    case Picking => 0
    case Exited => 0
    case Acquiring => 1
    case ParkedEmpty => 2
    case Probing => 2
    case DroppingEmpty => 3
    case ParkedWait(_) => 3
    case DroppingWait(_) => 4
    case Launching(_) => 6
  }

  function WorkerLeft(w: WorkerPc): nat {
    match w
    case Running => 4
    case Finished => 3
    case Released => 2
    case Kicked => 1
  }

  function CallerLeft(c: CallerPc): nat {
    match c
    case BeforeKick => 2
    case Waiting => 1
    case Returned(_) => 0
  }

  // The workers with at least k steps left.
  function WorkersAt(workers: map<nat, WorkerPc>, k: nat): set<nat> {
    set id | id in workers && WorkerLeft(workers[id]) >= k
  }

  function CallersAt(callers: map<nat, CallerPc>, k: nat): set<nat> {
    set id | id in callers && CallerLeft(callers[id]) >= k
  }

  // All the steps the workers have left, counted level by level.
  function WorkersLeft(workers: map<nat, WorkerPc>): nat {
    |WorkersAt(workers, 1)| + |WorkersAt(workers, 2)| + |WorkersAt(workers, 3)| + |WorkersAt(workers, 4)|
  }

  function CallersLeft(callers: map<nat, CallerPc>): nat {
    |CallersAt(callers, 1)| + |CallersAt(callers, 2)|
  }

  function StepsLeft(s: State): nat {
    DispatcherLeft(s.pc) + WorkersLeft(s.workers) + CallersLeft(s.callers)
  }

  lemma WorkerSet(workers: map<nat, WorkerPc>, id: nat, w: WorkerPc, k: nat)
    ensures WorkersAt(workers[id := w], k) ==
            if WorkerLeft(w) >= k then WorkersAt(workers, k) + {id} else WorkersAt(workers, k) - {id}
  {
    var m := workers[id := w];
    forall x: nat ensures x in WorkersAt(m, k) <==> x in m && WorkerLeft(m[x]) >= k {}
  }

  lemma CallerSet(callers: map<nat, CallerPc>, id: nat, c: CallerPc, k: nat)
    ensures CallersAt(callers[id := c], k) ==
            if CallerLeft(c) >= k then CallersAt(callers, k) + {id} else CallersAt(callers, k) - {id}
  {
    var m := callers[id := c];
    forall x: nat ensures x in CallersAt(m, k) <==> x in m && CallerLeft(m[x]) >= k {}
  }

  // Moving on by one step takes a worker out of one level.
  lemma WorkerLevel(workers: map<nat, WorkerPc>, id: nat, w: WorkerPc, k: nat)
    requires id in workers && WorkerLeft(w) + 1 == WorkerLeft(workers[id])
    ensures |WorkersAt(workers, k)| == |WorkersAt(workers[id := w], k)| + if k == WorkerLeft(workers[id]) then 1 else 0
  {
    WorkerSet(workers, id, w, k);
    var before := WorkersAt(workers, k);
    assert id in before <==> WorkerLeft(workers[id]) >= k;
    assert id in before && WorkerLeft(w) >= k ==> before + {id} == before;
    assert id !in before ==> before - {id} == before;
  }

  // A worker that moves on has one step less; a new one has four.
  lemma WorkerMoves(workers: map<nat, WorkerPc>, id: nat, w: WorkerPc)
    requires id in workers && WorkerLeft(w) + 1 == WorkerLeft(workers[id])
    ensures WorkersLeft(workers[id := w]) + 1 == WorkersLeft(workers)
  {
    WorkerLevel(workers, id, w, 1);
    WorkerLevel(workers, id, w, 2);
    WorkerLevel(workers, id, w, 3);
    WorkerLevel(workers, id, w, 4);
  }

  lemma WorkerStarts(workers: map<nat, WorkerPc>, id: nat)
    ensures WorkersLeft(workers[id := Running]) <= WorkersLeft(workers) + 4
  {
    WorkerSet(workers, id, Running, 1);
    WorkerSet(workers, id, Running, 2);
    WorkerSet(workers, id, Running, 3);
    WorkerSet(workers, id, Running, 4);
  }

  lemma WorkerEnds(workers: map<nat, WorkerPc>, id: nat)
    requires id in workers && workers[id] == Kicked
    ensures WorkersLeft(workers - {id}) + 1 == WorkersLeft(workers)
  {
    assert WorkersAt(workers - {id}, 1) == WorkersAt(workers, 1) - {id};
    assert WorkersAt(workers - {id}, 2) == WorkersAt(workers, 2);
    assert WorkersAt(workers - {id}, 3) == WorkersAt(workers, 3);
    assert WorkersAt(workers - {id}, 4) == WorkersAt(workers, 4);
    assert id in WorkersAt(workers, 1);
  }

  lemma CallerLevel(callers: map<nat, CallerPc>, id: nat, c: CallerPc, k: nat)
    requires id in callers && CallerLeft(c) + 1 == CallerLeft(callers[id])
    ensures |CallersAt(callers, k)| == |CallersAt(callers[id := c], k)| + if k == CallerLeft(callers[id]) then 1 else 0
  {
    CallerSet(callers, id, c, k);
    var before := CallersAt(callers, k);
    assert id in before <==> CallerLeft(callers[id]) >= k;
    assert id in before && CallerLeft(c) >= k ==> before + {id} == before;
    assert id !in before ==> before - {id} == before;
  }

  lemma CallerMoves(callers: map<nat, CallerPc>, id: nat, c: CallerPc)
    requires id in callers && CallerLeft(c) + 1 == CallerLeft(callers[id])
    ensures CallersLeft(callers[id := c]) + 1 == CallersLeft(callers)
  {
    CallerLevel(callers, id, c, 1);
    CallerLevel(callers, id, c, 2);
  }

  lemma CallerArrives(callers: map<nat, CallerPc>, id: nat)
    ensures CallersLeft(callers[id := BeforeKick]) <= CallersLeft(callers) + 2
  {
    CallerSet(callers, id, BeforeKick, 1);
    CallerSet(callers, id, BeforeKick, 2);
  }

  // What a step may add.
  function Adds(step: Step): nat {
    if step.Enqueue? then 2 else if step.Pick? then 6 else 0
  }

  function Uses(step: Step): nat {
    if Moves(step) then 1 else 0
  }

  lemma WorkerStep(n: nat, s: State, step: Step, s': State)
    requires Next(n, s, step, s') && (step.FnReturns? || step.WorkerRelease? || step.WorkerKick? || step.WorkerClose?)
    ensures StepsLeft(s') + 1 == StepsLeft(s)
  {
    match step {
      case FnReturns(id) => WorkerMoves(s.workers, id, Finished);
      case WorkerRelease(id) => WorkerMoves(s.workers, id, Released);
      case WorkerKick(id) => WorkerMoves(s.workers, id, Kicked);
      case WorkerClose(id) => WorkerEnds(s.workers, id);
    }
  }

  lemma CallerStep(n: nat, s: State, step: Step, s': State)
    requires Next(n, s, step, s') && (step.Enqueue? || step.Kick? || step.CallerReturns?)
    ensures StepsLeft(s') + Uses(step) <= StepsLeft(s) + Adds(step)
  {
    match step {
      case Enqueue(_, _, _) => CallerArrives(s.callers, s.nextId);
      case Kick(id) => CallerMoves(s.callers, id, Waiting);
      case CallerReturns(id, reason) => CallerMoves(s.callers, id, CallerPc.Returned(reason));
    }
  }

  lemma DispatcherStep(n: nat, s: State, step: Step, s': State)
    requires Next(n, s, step, s') && !step.FnReturns? && !step.WorkerRelease? && !step.WorkerKick? && !step.WorkerClose?
    requires !step.Enqueue? && !step.Kick? && !step.CallerReturns?
    ensures StepsLeft(s') + Uses(step) <= StepsLeft(s) + Adds(step)
  {
    if step.Launch? {
      WorkerStarts(s.workers, s.pc.request.id);
    } else {
      assert s'.workers == s.workers && s'.callers == s.callers;
    }
  }

  lemma StepUses(n: nat, s: State, step: Step, s': State)
    requires Next(n, s, step, s')
    ensures StepsLeft(s') + Uses(step) <= StepsLeft(s) + Adds(step)
  {
    if step.FnReturns? || step.WorkerRelease? || step.WorkerKick? || step.WorkerClose? {
      WorkerStep(n, s, step, s');
    } else if step.Enqueue? || step.Kick? || step.CallerReturns? {
      CallerStep(n, s, step, s');
    } else {
      DispatcherStep(n, s, step, s');
    }
  }

  function CountMoves(steps: seq<Step>): nat {
    if steps == [] then 0 else CountMoves(steps[..|steps| - 1]) + Uses(steps[|steps| - 1])
  }

  function CountEnqueues(steps: seq<Step>): nat {
    if steps == [] then 0 else CountEnqueues(steps[..|steps| - 1]) + if steps[|steps| - 1].Enqueue? then 1 else 0
  }

  function CountPicks(steps: seq<Step>): nat {
    if steps == [] then 0 else CountPicks(steps[..|steps| - 1]) + if steps[|steps| - 1].Pick? then 1 else 0
  }

  // On every path, whatever the schedule: the moves of the goroutines are paid for by what
  // was left at first, two for each enqueued request and six for each pick.
  lemma {:induction false} MovesBounded(c: nat, states: seq<State>, steps: seq<Step>)
    requires Path(c, states, steps)
    ensures CountMoves(steps) + StepsLeft(states[|steps|])
            <= StepsLeft(states[0]) + 2 * CountEnqueues(steps) + 6 * CountPicks(steps)
  {
    if steps != [] {
      var n := |steps| - 1;
      MovesBounded(c, states[..n + 1], steps[..n]);
      StepUses(c, states[n], steps[n], states[n + 1]);
    }
  }

  // Over a run: at most two moves for each request and six for each pick, and the first.
  lemma RunKeepsPicking(c: nat, states: seq<State>, steps: seq<Step>)
    requires Run(c, states, steps)
    ensures CountMoves(steps) <= 1 + 2 * CountEnqueues(steps) + 6 * CountPicks(steps)
  {
    MovesBounded(c, states, steps);
  }

  ghost predicate PickFree(steps: seq<Step>) {
    forall i :: 0 <= i < |steps| ==> !steps[i].Pick? && !steps[i].Enqueue? && !steps[i].Stop?
  }

  lemma {:induction false} PickFreeCounts(steps: seq<Step>)
    requires PickFree(steps)
    ensures CountPicks(steps) == 0 && CountEnqueues(steps) == 0
  {
    if steps != [] {
      PickFreeCounts(steps[..|steps| - 1]);
    }
  }

  lemma {:induction false} StaysQueued(c: nat, states: seq<State>, steps: seq<Step>)
    requires Path(c, states, steps) && PickFree(steps) && Inv(c, states[0])
    ensures var e := states[|steps|];
            Inv(c, e) && e.stopped == states[0].stopped && e.lim.queue == states[0].lim.queue
  {
    if steps != [] {
      var n := |steps| - 1;
      StaysQueued(c, states[..n + 1], steps[..n]);
      InvNext(c, states[n], steps[n], states[n + 1]);
      QueueKept(c, states[n], steps[n], states[n + 1]);
    }
  }

  lemma QueueKept(c: nat, s: State, step: Step, s': State)
    requires Next(c, s, step, s') && !step.Pick? && !step.Enqueue? && !step.Stop?
    ensures s'.lim.queue == s.lim.queue && s'.stopped == s.stopped
  {}

  // Every schedule comes to a pick. From a reachable state before Stop with something
  // queued, take any steps other than a pick, a new request or Stop: no more of them are
  // moves than the goroutines had left, when that is used up the dispatcher is about to
  // pick, and before that some goroutine can move, time permitting.
  lemma EveryScheduleComesToPick(c: nat, states: seq<State>, steps: seq<Step>, n: nat, ss: seq<State>, ts: seq<Step>)
    returns (step: Step, next: State)
    requires Run(c, states, steps) && n < |states| && c > 0
    requires !states[n].stopped && states[n].lim.queue != []
    requires Path(c, ss, ts) && ss[0] == states[n] && PickFree(ts)
    ensures CountMoves(ts) + StepsLeft(ss[|ts|]) <= StepsLeft(states[n])
    ensures CountMoves(ts) == StepsLeft(states[n]) ==> ss[|ts|].pc == Picking
    ensures Next(c, ss[|ts|], step, next)
    ensures if ss[|ts|].pc == Picking then step.Pick? && !step.outcome.Empty?
            else Moves(step) || (step.Tick? && ss[|ts|].pc.ParkedWait? && step.time == ss[|ts|].pc.deadline)
  {
    RunInv(c, states, steps, n);
    MovesBounded(c, ss, ts);
    PickFreeCounts(ts);
    StaysQueued(c, ss, ts);
    step, next := NeverStuck(c, ss[|ts|]);
  }
}
