/**
  The bounded fan-out of internal/conc/conc.go as a step system: the feeder, the worker
  goroutines, the unbuffered jobs and done channels, and cancellation at any point.

  `len` is the number of items, `workers` the number of goroutines that are started.
*/
module ConcMap {
  import opened Wrappers

  // One result slot and one error slot; None is the zero value.
  datatype Slot<R, E> = Slot(result: Option<R>, err: Option<E>)

  datatype FeederPc =
    | Feeding             // in the select on ctx.Done and the jobs send, or past the last item
    | Draining            // filling the rest of the error slice
    | Joining(joined: nat) // jobs is closed, receiving on done
    | Returned

  datatype WorkerPc =
    | Waiting             // receiving on jobs
    | Holding(idx: nat)   // has a job, before the ctx check
    | InFn(idx: nat)      // in fn
    | Leaving             // sending on done
    | Gone

  datatype State<R, E> = State(
    feeder: FeederPc,
    next: nat,      // items handed to workers
    drained: nat,   // items handed to workers or filled by the feeder
    cancelled: bool,
    workers: seq<WorkerPc>,
    slots: seq<Slot<R, E>>,
    writes: seq<nat>,            // how often each slot was written
    calls: seq<nat>,             // how often fn was called for each index
    outcomes: map<nat, Slot<R, E>>) // what fn returned

  datatype Step<R, E> =
    | Cancel
    | Handoff(w: nat)
    | Notice
    | DrainOne
    | Close
    | Skip(w: nat)
    | Call(w: nat)
    | Return(w: nat, out: Slot<R, E>)
    | Leave(w: nat)
    | Join(w: nat)
    | Finish

  // The number of workers Map starts.
  function WorkerCount(n: int, len: nat): nat {
    var limit := if n < 1 then 1 else n;
    if limit > len then len else limit
  }

  ghost predicate Init<R, E>(len: nat, workers: nat, s: State<R, E>) {
    && s.feeder == Feeding && s.next == 0 && s.drained == 0 && !s.cancelled
    && |s.workers| == workers && (forall w :: 0 <= w < workers ==> s.workers[w] == Waiting)
    && |s.slots| == |s.writes| == |s.calls| == len
    && (forall j :: 0 <= j < len ==> s.slots[j] == Slot(None, None) && s.writes[j] == 0 && s.calls[j] == 0)
    && s.outcomes == map[]
  }

  // `cancelErr` is what ctx.Err() reports once the context is cancelled.
  ghost predicate Next<R, E>(len: nat, cancelErr: E, s: State<R, E>, step: Step<R, E>, s': State<R, E>) {
    match step
    case Cancel =>
      s' == s.(cancelled := true)
    case Handoff(w) =>
      && s.feeder == Feeding && s.next < len && w < |s.workers| && s.workers[w] == Waiting
      && s' == s.(workers := s.workers[w := Holding(s.next)], next := s.next + 1, drained := s.next + 1)
    case Notice =>
      s.feeder == Feeding && s.next < len && s.cancelled && s' == s.(feeder := Draining)
    case DrainOne =>
      && s.feeder == Draining && s.drained < len && s.drained < |s.slots| && s.drained < |s.writes|
      && s' == s.(slots := s.slots[s.drained := s.slots[s.drained].(err := Some(cancelErr))],
                  writes := s.writes[s.drained := s.writes[s.drained] + 1],
                  drained := s.drained + 1)
    case Close =>
      && ((s.feeder == Feeding && s.next >= len) || (s.feeder == Draining && s.drained >= len))
      && s' == s.(feeder := Joining(0))
    case Skip(w) =>
      && w < |s.workers| && s.workers[w].Holding? && s.cancelled
      && (var j := s.workers[w].idx;
          && j < |s.slots| && j < |s.writes|
          && s' == s.(slots := s.slots[j := s.slots[j].(err := Some(cancelErr))],
                      writes := s.writes[j := s.writes[j] + 1],
                      workers := s.workers[w := Waiting]))
    case Call(w) =>
      && w < |s.workers| && s.workers[w].Holding? && !s.cancelled
      && (var j := s.workers[w].idx;
          && j < |s.calls|
          && s' == s.(calls := s.calls[j := s.calls[j] + 1], workers := s.workers[w := InFn(j)]))
    case Return(w, out) =>
      && w < |s.workers| && s.workers[w].InFn? && out.result.Some?
      && (var j := s.workers[w].idx;
          && j < |s.slots| && j < |s.writes|
          && s' == s.(slots := s.slots[j := out],
                      writes := s.writes[j := s.writes[j] + 1],
                      outcomes := s.outcomes[j := out],
                      workers := s.workers[w := Waiting]))
    case Leave(w) =>
      && w < |s.workers| && s.workers[w] == Waiting && s.feeder.Joining?
      && s' == s.(workers := s.workers[w := Leaving])
    case Join(w) =>
      && w < |s.workers| && s.workers[w] == Leaving && s.feeder.Joining?
      && s' == s.(workers := s.workers[w := Gone], feeder := Joining(s.feeder.joined + 1))
    case Finish =>
      s.feeder == Joining(|s.workers|) && s' == s.(feeder := Returned)
  }

  ghost predicate StepAt<R, E>(len: nat, cancelErr: E, states: seq<State<R, E>>, steps: seq<Step<R, E>>, i: nat) {
    i < |steps| && i + 1 < |states| && Next(len, cancelErr, states[i], steps[i], states[i + 1])
  }

  ghost predicate Run<R, E>(len: nat, workers: nat, cancelErr: E, states: seq<State<R, E>>, steps: seq<Step<R, E>>) {
    && |states| == |steps| + 1 && Init(len, workers, states[0])
    && forall i :: 0 <= i < |steps| ==> StepAt(len, cancelErr, states, steps, i)
  }

  // ---------------------------------------------------------------- the invariant

  predicate Holds(w: WorkerPc, j: nat) {
    (w.Holding? || w.InFn?) && w.idx == j
  }

  // Some worker has the job.
  ghost predicate Held<R, E>(s: State<R, E>, j: nat) {
    exists w :: 0 <= w < |s.workers| && Holds(s.workers[w], j)
  }

  ghost predicate Shape<R, E>(len: nat, s: State<R, E>) {
    && |s.slots| == |s.writes| == |s.calls| == len
    && s.next <= s.drained <= len
    && (s.feeder == Feeding ==> s.drained == s.next)
    && (s.feeder == Draining ==> s.cancelled)
    && (s.feeder.Joining? || s.feeder.Returned? ==> s.drained == len)
    && (forall w :: 0 <= w < |s.workers| && (s.workers[w].Holding? || s.workers[w].InFn?) ==> s.workers[w].idx < s.next)
    && OneHolder(s.workers)
  }

  // No job is with two workers.
  ghost predicate OneHolder(workers: seq<WorkerPc>) {
    forall v, w :: 0 <= v < w < |workers| && (workers[v].Holding? || workers[v].InFn?)
      ==> !Holds(workers[w], workers[v].idx)
  }

  // What is known of slot j.
  ghost predicate SlotOk<R, E>(len: nat, cancelErr: E, s: State<R, E>, j: nat)
    requires Shape(len, s) && j < len
  {
    if j >= s.drained then
      s.writes[j] == 0 && s.calls[j] == 0 && s.slots[j] == Slot(None, None) && j !in s.outcomes
    else if Held(s, j) then
      && s.writes[j] == 0 && s.slots[j] == Slot(None, None) && j !in s.outcomes
      && (forall w :: 0 <= w < |s.workers| && Holds(s.workers[w], j) ==>
            s.calls[j] == if s.workers[w].InFn? then 1 else 0)
    else
      && s.writes[j] == 1
      && ((s.calls[j] == 1 && j in s.outcomes && s.slots[j] == s.outcomes[j] && s.slots[j].result.Some?)
          || (s.calls[j] == 0 && j !in s.outcomes && s.cancelled && s.slots[j] == Slot(None, Some(cancelErr))))
  }

  ghost predicate SlotsOk<R, E>(len: nat, cancelErr: E, s: State<R, E>)
    requires Shape(len, s)
  {
    forall j :: 0 <= j < len ==> SlotOk(len, cancelErr, s, j)
  }

  function CountGone(workers: seq<WorkerPc>): nat {
    if workers == [] then 0 else CountGone(workers[1..]) + if workers[0] == Gone then 1 else 0
  }

  ghost predicate Departures<R, E>(s: State<R, E>) {
    && (s.feeder == Feeding || s.feeder == Draining ==>
          forall w :: 0 <= w < |s.workers| ==> s.workers[w] != Leaving && s.workers[w] != Gone)
    && (s.feeder.Joining? ==> s.feeder.joined == CountGone(s.workers))
    && (s.feeder.Returned? ==> CountGone(s.workers) == |s.workers|)
  }

  ghost predicate Inv<R, E>(len: nat, cancelErr: E, s: State<R, E>) {
    Shape(len, s) && SlotsOk(len, cancelErr, s) && Departures(s)
  }

  lemma {:induction false} CountGoneNone(workers: seq<WorkerPc>)
    requires forall w :: 0 <= w < |workers| ==> workers[w] != Gone
    ensures CountGone(workers) == 0
  {
    if workers != [] { CountGoneNone(workers[1..]); }
  }

  lemma {:induction false} CountGoneUpdate(workers: seq<WorkerPc>, w: nat, pc: WorkerPc)
    requires w < |workers| && workers[w] != Gone
    ensures CountGone(workers[w := pc]) == CountGone(workers) + if pc == Gone then 1 else 0
  {
    if w == 0 {
      assert workers[w := pc][1..] == workers[1..];
    } else {
      assert workers[w := pc][1..] == workers[1..][w - 1 := pc];
      CountGoneUpdate(workers[1..], w - 1, pc);
    }
  }

  // All workers are gone exactly when that many were counted.
  lemma {:induction false} CountGoneAll(workers: seq<WorkerPc>)
    ensures CountGone(workers) <= |workers|
    ensures CountGone(workers) == |workers| <==> forall w :: 0 <= w < |workers| ==> workers[w] == Gone
  {
    if workers != [] { CountGoneAll(workers[1..]); }
  }

  lemma InitInv<R, E>(len: nat, workers: nat, cancelErr: E, s: State<R, E>)
    requires Init(len, workers, s)
    ensures Inv(len, cancelErr, s)
  {}

  // Changing one worker's pc changes who holds what only for that worker.
  lemma HeldUpdate<R, E>(s: State<R, E>, w: nat, s': State<R, E>, j: nat)
    requires w < |s.workers| == |s'.workers| && s'.workers == s.workers[w := s'.workers[w]]
    ensures !Holds(s.workers[w], j) && !Holds(s'.workers[w], j) ==> (Held(s', j) <==> Held(s, j))
    ensures Holds(s'.workers[w], j) ==> Held(s', j)
  {
    if v :| 0 <= v < |s.workers| && Holds(s.workers[v], j) {
      assert v != w ==> Holds(s'.workers[v], j);
    }
    if v :| 0 <= v < |s'.workers| && Holds(s'.workers[v], j) {
      assert v != w ==> Holds(s.workers[v], j);
    }
  }

  lemma ShapeNext<R, E>(len: nat, cancelErr: E, s: State<R, E>, step: Step<R, E>, s': State<R, E>)
    requires Shape(len, s) && Next(len, cancelErr, s, step, s')
    ensures Shape(len, s')
  {
    match step {
      case Handoff(w) => OneHolderHandoff(s.workers, w, s.next);
      case Skip(w) => OneHolderUpdate(s.workers, w, s'.workers[w]);
      case Call(w) => OneHolderUpdate(s.workers, w, s'.workers[w]);
      case Return(w, _) => OneHolderUpdate(s.workers, w, s'.workers[w]);
      case Leave(w) => OneHolderUpdate(s.workers, w, s'.workers[w]);
      case Join(w) => OneHolderUpdate(s.workers, w, s'.workers[w]);
      case _ =>
    }
  }

  lemma OneHolderUpdate(workers: seq<WorkerPc>, w: nat, pc: WorkerPc)
    requires w < |workers| && OneHolder(workers)
    requires pc.Holding? || pc.InFn? ==> Holds(workers[w], pc.idx)
    ensures OneHolder(workers[w := pc])
  {}

  lemma OneHolderHandoff(workers: seq<WorkerPc>, w: nat, next: nat)
    requires w < |workers| && OneHolder(workers)
    requires forall v :: 0 <= v < |workers| && (workers[v].Holding? || workers[v].InFn?) ==> workers[v].idx < next
    ensures OneHolder(workers[w := Holding(next)])
  {}

  // A step of worker w leaves the slots of other jobs as they are.
  lemma SlotOther<R, E>(len: nat, cancelErr: E, s: State<R, E>, w: nat, s': State<R, E>, j: nat)
    requires Shape(len, s) && Shape(len, s') && j < len && SlotOk(len, cancelErr, s, j)
    requires w < |s.workers| == |s'.workers| && s'.workers == s.workers[w := s'.workers[w]]
    requires !Holds(s.workers[w], j) && !Holds(s'.workers[w], j)
    requires (j >= s.drained <==> j >= s'.drained) && (s.cancelled ==> s'.cancelled)
    requires s'.slots[j] == s.slots[j] && s'.writes[j] == s.writes[j] && s'.calls[j] == s.calls[j]
    requires (j in s'.outcomes <==> j in s.outcomes) && (j in s.outcomes ==> s'.outcomes[j] == s.outcomes[j])
    ensures SlotOk(len, cancelErr, s', j)
  {
    HeldUpdate(s, w, s', j);
  }

  // A job its only holder lets go of is held by nobody.
  lemma Released<R, E>(len: nat, s: State<R, E>, w: nat, s': State<R, E>, j: nat)
    requires Shape(len, s) && w < |s.workers| && Holds(s.workers[w], j) && s'.workers == s.workers[w := Waiting]
    ensures !Held(s', j) && Held(s, j)
  {
    forall v | 0 <= v < |s'.workers| ensures !Holds(s'.workers[v], j) {
      assert v != w ==> s'.workers[v] == s.workers[v];
    }
  }

  lemma SlotHandoff<R, E>(len: nat, cancelErr: E, s: State<R, E>, w: nat, s': State<R, E>, j: nat)
    requires Shape(len, s) && Shape(len, s') && j < len && SlotOk(len, cancelErr, s, j)
    requires Next(len, cancelErr, s, Handoff(w), s')
    ensures SlotOk(len, cancelErr, s', j)
  {
    if j == s.next {
      assert Holds(s'.workers[w], j);
    } else {
      SlotOther(len, cancelErr, s, w, s', j);
    }
  }

  lemma SlotSkip<R, E>(len: nat, cancelErr: E, s: State<R, E>, w: nat, s': State<R, E>, j: nat)
    requires Shape(len, s) && Shape(len, s') && j < len && SlotOk(len, cancelErr, s, j)
    requires Next(len, cancelErr, s, Skip(w), s')
    ensures SlotOk(len, cancelErr, s', j)
  {
    if j == s.workers[w].idx {
      Released(len, s, w, s', j);
    } else {
      SlotOther(len, cancelErr, s, w, s', j);
    }
  }

  lemma SlotCall<R, E>(len: nat, cancelErr: E, s: State<R, E>, w: nat, s': State<R, E>, j: nat)
    requires Shape(len, s) && Shape(len, s') && j < len && SlotOk(len, cancelErr, s, j)
    requires Next(len, cancelErr, s, Call(w), s')
    ensures SlotOk(len, cancelErr, s', j)
  {
    if j == s.workers[w].idx {
      assert Holds(s.workers[w], j) && Holds(s'.workers[w], j);
      forall v | 0 <= v < |s'.workers| ensures v == w || !Holds(s'.workers[v], j) {
        assert v != w ==> s'.workers[v] == s.workers[v];
      }
    } else {
      SlotOther(len, cancelErr, s, w, s', j);
    }
  }

  lemma SlotReturn<R, E>(len: nat, cancelErr: E, s: State<R, E>, w: nat, out: Slot<R, E>, s': State<R, E>, j: nat)
    requires Shape(len, s) && Shape(len, s') && j < len && SlotOk(len, cancelErr, s, j)
    requires Next(len, cancelErr, s, Return(w, out), s')
    ensures SlotOk(len, cancelErr, s', j)
  {
    if j == s.workers[w].idx {
      Released(len, s, w, s', j);
    } else {
      SlotOther(len, cancelErr, s, w, s', j);
    }
  }

  lemma SlotFeeder<R, E>(len: nat, cancelErr: E, s: State<R, E>, s': State<R, E>, j: nat)
    requires Shape(len, s) && Shape(len, s') && j < len && SlotOk(len, cancelErr, s, j)
    requires s'.workers == s.workers && s'.calls == s.calls && s'.outcomes == s.outcomes
    requires s.cancelled ==> s'.cancelled
    requires (s'.slots == s.slots && s'.writes == s.writes && s'.drained == s.drained)
             || Next(len, cancelErr, s, DrainOne, s')
    ensures SlotOk(len, cancelErr, s', j)
  {
    assert Held(s', j) <==> Held(s, j);
    forall w | 0 <= w < |s.workers| ensures !Holds(s.workers[w], s.drained) {}
  }

  lemma SlotNext<R, E>(len: nat, cancelErr: E, s: State<R, E>, step: Step<R, E>, s': State<R, E>, j: nat)
    requires Shape(len, s) && Shape(len, s') && j < len && SlotOk(len, cancelErr, s, j)
    requires Next(len, cancelErr, s, step, s')
    ensures SlotOk(len, cancelErr, s', j)
  {
    match step {
      case Handoff(w) => SlotHandoff(len, cancelErr, s, w, s', j);
      case Skip(w) => SlotSkip(len, cancelErr, s, w, s', j);
      case Call(w) => SlotCall(len, cancelErr, s, w, s', j);
      case Return(w, out) => SlotReturn(len, cancelErr, s, w, out, s', j);
      case Leave(w) => SlotOther(len, cancelErr, s, w, s', j);
      case Join(w) => SlotOther(len, cancelErr, s, w, s', j);
      case _ => SlotFeeder(len, cancelErr, s, s', j);
    }
  }

  lemma DeparturesNext<R, E>(len: nat, cancelErr: E, s: State<R, E>, step: Step<R, E>, s': State<R, E>)
    requires Departures(s) && Next(len, cancelErr, s, step, s')
    ensures Departures(s')
  {
    match step {
      case Handoff(w) => CountGoneUpdate(s.workers, w, s'.workers[w]);
      case Skip(w) => CountGoneUpdate(s.workers, w, s'.workers[w]);
      case Call(w) => CountGoneUpdate(s.workers, w, s'.workers[w]);
      case Return(w, _) => CountGoneUpdate(s.workers, w, s'.workers[w]);
      case Leave(w) => CountGoneUpdate(s.workers, w, s'.workers[w]);
      case Join(w) => CountGoneUpdate(s.workers, w, s'.workers[w]);
      case Close => CountGoneNone(s.workers);
      case _ =>
    }
    if s.feeder.Returned? { CountGoneAll(s.workers); }
  }

  lemma InvNext<R, E>(len: nat, cancelErr: E, s: State<R, E>, step: Step<R, E>, s': State<R, E>)
    requires Inv(len, cancelErr, s) && Next(len, cancelErr, s, step, s')
    ensures Inv(len, cancelErr, s')
  {
    ShapeNext(len, cancelErr, s, step, s');
    forall j: nat | j < len ensures SlotOk(len, cancelErr, s', j) {
      SlotNext(len, cancelErr, s, step, s', j);
    }
    DeparturesNext(len, cancelErr, s, step, s');
  }

  lemma {:induction false} RunInv<R, E>(len: nat, workers: nat, cancelErr: E, states: seq<State<R, E>>,
                                        steps: seq<Step<R, E>>, n: nat)
    requires Run(len, workers, cancelErr, states, steps) && n < |states|
    ensures Inv(len, cancelErr, states[n])
  {
    if n == 0 {
      InitInv(len, workers, cancelErr, states[0]);
    } else {
      RunInv(len, workers, cancelErr, states, steps, n - 1);
      assert StepAt(len, cancelErr, states, steps, n - 1);
      InvNext(len, cancelErr, states[n - 1], steps[n - 1], states[n]);
    }
  }

  lemma {:induction false} RunWorkers<R, E>(len: nat, workers: nat, cancelErr: E, states: seq<State<R, E>>,
                                            steps: seq<Step<R, E>>, n: nat)
    requires Run(len, workers, cancelErr, states, steps) && n < |states|
    ensures |states[n].workers| == workers
  {
    if n > 0 {
      RunWorkers(len, workers, cancelErr, states, steps, n - 1);
      assert StepAt(len, cancelErr, states, steps, n - 1);
    }
  }

  // ---------------------------------------------------------------- results

  // The fns of these indices are running, each in its worker.
  ghost predicate InFlight<R, E>(s: State<R, E>, fns: set<nat>) {
    forall j :: j in fns ==> exists w :: 0 <= w < |s.workers| && s.workers[w] == InFn(j)
  }

  // In every reachable state there are as many workers as were asked for, but one at least
  // and no more than items; fn was called at most once for each index, no slot was written
  // twice, and no more fns run than there are workers.
  lemma MapSafety<R, E>(len: nat, n: int, cancelErr: E, states: seq<State<R, E>>, steps: seq<Step<R, E>>, k: nat, j: nat)
    requires Run(len, WorkerCount(n, len), cancelErr, states, steps) && k < |states| && j < len
    ensures var s := states[k];
            && |s.workers| == (var limit := if n < 1 then 1 else n; if limit > len then len else limit)
            && |s.calls| == |s.writes| == len
            && s.calls[j] <= 1 && s.writes[j] <= 1
            && forall fns :: InFlight(s, fns) ==> |fns| <= |s.workers|
  {
    RunInv(len, WorkerCount(n, len), cancelErr, states, steps, k);
    var s := states[k];
    assert SlotOk(len, cancelErr, s, j);
    if j < s.drained && Held(s, j) {
      var w :| 0 <= w < |s.workers| && Holds(s.workers[w], j);
    }
    RunWorkers(len, WorkerCount(n, len), cancelErr, states, steps, k);
    forall fns | InFlight(s, fns) ensures |fns| <= |s.workers| {
      ImageSize(s.workers, fns);
    }
  }

  lemma {:induction false} ImageSize(workers: seq<WorkerPc>, image: set<nat>)
    requires forall j :: j in image ==> exists w :: 0 <= w < |workers| && workers[w] == InFn(j)
    ensures |image| <= |workers|
  {
    if workers == [] {
      assert image == {};
    } else {
      var last := workers[|workers| - 1];
      var rest := if last.InFn? then image - {last.idx} else image;
      var front := workers[..|workers| - 1];
      forall j | j in rest ensures exists w :: 0 <= w < |front| && front[w] == InFn(j) {
        var w :| 0 <= w < |workers| && workers[w] == InFn(j);
        assert front[w] == InFn(j);
      }
      ImageSize(front, rest);
    }
  }

  // When Map has returned, every worker is gone, every slot was written exactly once, and
  // it holds either what fn returned for its index, called once, or no result and the
  // context's error, fn never called.
  lemma MapResult<R, E>(len: nat, workers: nat, cancelErr: E, states: seq<State<R, E>>, steps: seq<Step<R, E>>, j: nat)
    requires Run(len, workers, cancelErr, states, steps) && j < len
    requires states[|steps|].feeder.Returned?
    ensures var s := states[|steps|];
            && (forall w :: 0 <= w < |s.workers| ==> s.workers[w] == Gone)
            && |s.slots| == |s.writes| == |s.calls| == len && s.writes[j] == 1
            && ((s.calls[j] == 1 && j in s.outcomes && s.slots[j] == s.outcomes[j] && s.slots[j].result.Some?)
                || (s.calls[j] == 0 && s.cancelled && s.slots[j] == Slot(None, Some(cancelErr))))
  {
    RunInv(len, workers, cancelErr, states, steps, |steps|);
    var s := states[|steps|];
    CountGoneAll(s.workers);
    assert SlotOk(len, cancelErr, s, j);
    assert !Held(s, j);
  }

  lemma {:induction false} NotCancelled<R, E>(len: nat, workers: nat, cancelErr: E, states: seq<State<R, E>>,
                                              steps: seq<Step<R, E>>, k: nat)
    requires Run(len, workers, cancelErr, states, steps) && k < |states|
    requires forall i :: 0 <= i < |steps| ==> steps[i] != Cancel
    ensures !states[k].cancelled
  {
    if k > 0 {
      NotCancelled(len, workers, cancelErr, states, steps, k - 1);
      assert StepAt(len, cancelErr, states, steps, k - 1);
    }
  }

  // Without a cancellation every index gets its fn's outcome, from the one call for it.
  lemma UncancelledResult<R, E>(len: nat, workers: nat, cancelErr: E, states: seq<State<R, E>>, steps: seq<Step<R, E>>, j: nat)
    requires Run(len, workers, cancelErr, states, steps) && j < len
    requires states[|steps|].feeder.Returned? && forall i :: 0 <= i < |steps| ==> steps[i] != Cancel
    ensures var s := states[|steps|];
            && |s.slots| == |s.calls| == len
            && s.calls[j] == 1 && j in s.outcomes && s.slots[j] == s.outcomes[j] && s.slots[j].result.Some?
  {
    NotCancelled(len, workers, cancelErr, states, steps, |steps|);
    MapResult(len, workers, cancelErr, states, steps, j);
  }

  // ---------------------------------------------------------------- no deadlock, and an end

  // Until Map returns, some goroutine can move, whatever has been cancelled when.
  lemma NoDeadlock<R, E>(len: nat, cancelErr: E, s: State<R, E>, out: Slot<R, E>) returns (step: Step<R, E>, s': State<R, E>)
    requires Inv(len, cancelErr, s) && |s.workers| > 0 && !s.feeder.Returned? && out.result.Some?
    ensures Next(len, cancelErr, s, step, s') && step != Cancel
  {
    if s.feeder == Draining {
      if s.drained < len {
        step, s' := DrainOne, s.(slots := s.slots[s.drained := s.slots[s.drained].(err := Some(cancelErr))],
                                 writes := s.writes[s.drained := s.writes[s.drained] + 1],
                                 drained := s.drained + 1);
      } else {
        step, s' := Close, s.(feeder := Joining(0));
      }
    } else if s.feeder == Feeding && s.next >= len {
      step, s' := Close, s.(feeder := Joining(0));
    } else if s.feeder.Joining? && s.feeder.joined == |s.workers| {
      step, s' := Finish, s.(feeder := Returned);
    } else {
      CountGoneAll(s.workers);
      var w :| 0 <= w < |s.workers| && s.workers[w] != Gone;
      step, s' := WorkerMoves(len, cancelErr, s, w, out);
    }
  }

  lemma WorkerMoves<R, E>(len: nat, cancelErr: E, s: State<R, E>, w: nat, out: Slot<R, E>)
    returns (step: Step<R, E>, s': State<R, E>)
    requires Shape(len, s) && Departures(s) && w < |s.workers| && s.workers[w] != Gone && out.result.Some?
    requires (s.feeder == Feeding && s.next < len) || s.feeder.Joining?
    ensures Next(len, cancelErr, s, step, s') && step != Cancel
  {
    match s.workers[w] {
      case Waiting =>
        if s.feeder == Feeding {
          step, s' := Handoff(w), s.(workers := s.workers[w := Holding(s.next)], next := s.next + 1, drained := s.next + 1);
        } else {
          step, s' := Leave(w), s.(workers := s.workers[w := Leaving]);
        }
      case Holding(j) =>
        if s.cancelled {
          step, s' := Skip(w), s.(slots := s.slots[j := s.slots[j].(err := Some(cancelErr))],
                                  writes := s.writes[j := s.writes[j] + 1],
                                  workers := s.workers[w := Waiting]);
        } else {
          step, s' := Call(w), s.(calls := s.calls[j := s.calls[j] + 1], workers := s.workers[w := InFn(j)]);
        }
      case InFn(j) =>
        step, s' := Return(w, out), s.(slots := s.slots[j := out],
                                       writes := s.writes[j := s.writes[j] + 1],
                                       outcomes := s.outcomes[j := out],
                                       workers := s.workers[w := Waiting]);
      case Leaving =>
        step, s' := Join(w), s.(workers := s.workers[w := Gone], feeder := Joining(s.feeder.joined + 1));
    }
  }

  function WorkerWeight(w: WorkerPc): nat {
    match w
    case Holding(_) => 4
    case InFn(_) => 3
    case Waiting => 2
    case Leaving => 1
    case Gone => 0
  }

  function Weights(workers: seq<WorkerPc>): nat {
    if workers == [] then 0 else WorkerWeight(workers[0]) + Weights(workers[1..])
  }

  lemma {:induction false} WeightsUpdate(workers: seq<WorkerPc>, w: nat, pc: WorkerPc)
    requires w < |workers|
    ensures Weights(workers[w := pc]) == Weights(workers) - WorkerWeight(workers[w]) + WorkerWeight(pc)
  {
    if w == 0 {
      assert workers[w := pc][1..] == workers[1..];
    } else {
      assert workers[w := pc][1..] == workers[1..][w - 1 := pc];
      WeightsUpdate(workers[1..], w - 1, pc);
    }
  }

  lemma {:induction false} WeightsWaiting(workers: seq<WorkerPc>)
    requires forall w :: 0 <= w < |workers| ==> workers[w] == Waiting
    ensures Weights(workers) == 2 * |workers|
  {
    if workers != [] { WeightsWaiting(workers[1..]); }
  }

  function FeederWeight(f: FeederPc): nat {
    match f
    case Feeding => 3
    case Draining => 2
    case Joining(_) => 1
    case Returned => 0
  }

  // Moves left at most.
  function Measure<R, E>(len: nat, s: State<R, E>): int {
    4 * (len - s.drained) + FeederWeight(s.feeder) + Weights(s.workers)
  }

  // Every move but a cancellation brings Map closer to its end.
  lemma MeasureFalls<R, E>(len: nat, cancelErr: E, s: State<R, E>, step: Step<R, E>, s': State<R, E>)
    requires Shape(len, s) && Next(len, cancelErr, s, step, s') && step != Cancel
    ensures Measure(len, s') < Measure(len, s)
  {
    match step {
      case Handoff(w) => WeightsUpdate(s.workers, w, s'.workers[w]);
      case Skip(w) => WeightsUpdate(s.workers, w, s'.workers[w]);
      case Call(w) => WeightsUpdate(s.workers, w, s'.workers[w]);
      case Return(w, _) => WeightsUpdate(s.workers, w, s'.workers[w]);
      case Leave(w) => WeightsUpdate(s.workers, w, s'.workers[w]);
      case Join(w) => WeightsUpdate(s.workers, w, s'.workers[w]);
      case _ =>
    }
  }

  function Moves<R, E(==)>(steps: seq<Step<R, E>>): nat {
    if steps == [] then 0 else Moves(steps[..|steps| - 1]) + if steps[|steps| - 1].Cancel? then 0 else 1
  }

  lemma {:induction false} MovesBounded<R, E>(len: nat, workers: nat, cancelErr: E, states: seq<State<R, E>>,
                                              steps: seq<Step<R, E>>, n: nat)
    requires Run(len, workers, cancelErr, states, steps) && n <= |steps|
    ensures Moves(steps[..n]) + Measure(len, states[n]) <= 4 * len + 2 * workers + 3
  {
    if n == 0 {
      WeightsWaiting(states[0].workers);
    } else {
      MovesBounded(len, workers, cancelErr, states, steps, n - 1);
      RunInv(len, workers, cancelErr, states, steps, n - 1);
      assert StepAt(len, cancelErr, states, steps, n - 1);
      assert steps[..n][..n - 1] == steps[..n - 1];
      if steps[n - 1] != Cancel {
        MeasureFalls(len, cancelErr, states[n - 1], steps[n - 1], states[n]);
      } else {
        assert Measure(len, states[n]) == Measure(len, states[n - 1]);
      }
    }
  }

  // No schedule runs on: with NoDeadlock, every schedule ends with Map returned.
  lemma MapTerminates<R, E>(len: nat, workers: nat, cancelErr: E, states: seq<State<R, E>>, steps: seq<Step<R, E>>)
    requires Run(len, workers, cancelErr, states, steps)
    ensures Moves(steps) + Measure(len, states[|steps|]) <= 4 * len + 2 * workers + 3
    ensures Moves(steps) <= 4 * len + 2 * workers + 3
  {
    RunInv(len, workers, cancelErr, states, steps, |steps|);
    MovesBounded(len, workers, cancelErr, states, steps, |steps|);
    assert steps[..|steps|] == steps;
  }
}
