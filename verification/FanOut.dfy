/**
  A fan-out of mutations over a keyed remote: conc.Map runs one fn per job, and each fn
  sends its requests one at a time, in any interleaving with the others'. Used by the
  named-list lanes and by the branches lane.

  A request is what it does to the item of its key. What fn reports is a parameter of the
  step in which it returns; it reports an applied job only after all its requests.
*/
module FanOut {
  import opened Wrappers
  import ConcMap

  datatype ApplyAction = Unset | Created | Updated | Deleted | Skipped | Pending

  datatype ApplyResult = ApplyResult(resource: string, action: ApplyAction, success: bool, error: string, calls: nat)

  predicate Applied(r: ApplyResult) {
    r.success && r.action != Pending
  }

  // The effect of one request on the item of its key; None is an absent item.
  type Request<!V> = Option<V> -> Option<V>

  datatype Job<!V> = Job(key: string, resource: string, requests: seq<Request<V>>)

  function Stored<V>(m: map<string, V>, key: string, v: Option<V>): map<string, V> {
    if v.Some? then m[key := v.value] else m - {key}
  }

  // The requests made one after another.
  function Effects<V>(cur: Option<V>, rs: seq<Request<V>>): Option<V>
    decreases |rs|
  {
    if rs == [] then cur else rs[|rs| - 1](Effects(cur, rs[..|rs| - 1]))
  }

  type PoolState = ConcMap.State<ApplyResult, string>

  datatype State<!V> = State(pool: PoolState, remote: map<string, V>, progress: seq<nat>)

  datatype Step =
    | PoolStep(step: ConcMap.Step<ApplyResult, string>) // any step but a return from fn
    | Send(w: nat)
    | FnReturns(w: nat, result: ApplyResult)

  ghost predicate DistinctKeys<V>(jobs: seq<Job<V>>) {
    forall i, j :: 0 <= i < j < |jobs| ==> jobs[i].key != jobs[j].key
  }

  ghost predicate Init<V>(jobs: seq<Job<V>>, live: map<string, V>, workers: nat, s: State<V>) {
    && ConcMap.Init(|jobs|, workers, s.pool)
    && s.remote == live && |s.progress| == |jobs|
    && forall j :: 0 <= j < |jobs| ==> s.progress[j] == 0
  }

  ghost predicate Next<V>(jobs: seq<Job<V>>, cancelErr: string, s: State<V>, step: Step, s': State<V>) {
    match step
    case PoolStep(m) =>
      !m.Return? && ConcMap.Next(|jobs|, cancelErr, s.pool, m, s'.pool)
      && s' == s.(pool := s'.pool)
    case Send(w) =>
      && w < |s.pool.workers| && s.pool.workers[w].InFn?
      && (var j := s.pool.workers[w].idx;
          && j < |jobs| && j < |s.progress| && s.progress[j] < |jobs[j].requests|
          && s' == s.(remote := Stored(s.remote, jobs[j].key, jobs[j].requests[s.progress[j]](Get(s.remote, jobs[j].key))),
                      progress := s.progress[j := s.progress[j] + 1]))
    case FnReturns(w, r) =>
      && w < |s.pool.workers| && s.pool.workers[w].InFn?
      && (var j := s.pool.workers[w].idx;
          && j < |jobs| && j < |s.progress|
          && r.resource == jobs[j].resource
          && (Applied(r) ==> s.progress[j] == |jobs[j].requests|)
          && ConcMap.Next(|jobs|, cancelErr, s.pool, ConcMap.Return(w, ConcMap.Slot(Some(r), None)), s'.pool))
      && s' == s.(pool := s'.pool)
  }

  ghost predicate StepAt<V>(jobs: seq<Job<V>>, cancelErr: string, states: seq<State<V>>, steps: seq<Step>, i: nat) {
    i < |steps| && i + 1 < |states| && Next(jobs, cancelErr, states[i], steps[i], states[i + 1])
  }

  ghost predicate Run<V>(jobs: seq<Job<V>>, live: map<string, V>, workers: nat, cancelErr: string,
                         states: seq<State<V>>, steps: seq<Step>) {
    && |states| == |steps| + 1 && Init(jobs, live, workers, states[0])
    && forall i :: 0 <= i < |steps| ==> StepAt(jobs, cancelErr, states, steps, i)
  }

  // A run that has ended: conc.Map has returned.
  ghost predicate Finished<V>(jobs: seq<Job<V>>, live: map<string, V>, workers: nat, cancelErr: string,
                              states: seq<State<V>>, steps: seq<Step>) {
    Run(jobs, live, workers, cancelErr, states, steps) && states[|steps|].pool.feeder.Returned?
  }

  // Each job's key holds what its requests so far make of the live item, and jobs that
  // were never called have sent nothing.
  ghost predicate JobOk<V>(jobs: seq<Job<V>>, live: map<string, V>, s: State<V>, j: nat)
    requires j < |jobs| == |s.progress| == |s.pool.calls|
  {
    && s.progress[j] <= |jobs[j].requests|
    && Get(s.remote, jobs[j].key) == Effects(Get(live, jobs[j].key), jobs[j].requests[..s.progress[j]])
    && (s.pool.calls[j] == 0 ==> s.progress[j] == 0)
    && (j in s.pool.outcomes ==>
          && s.pool.outcomes[j].result.Some? && s.pool.outcomes[j].err.None?
          && s.pool.outcomes[j].result.value.resource == jobs[j].resource
          && (Applied(s.pool.outcomes[j].result.value) ==> s.progress[j] == |jobs[j].requests|))
  }

  ghost predicate Inv<V>(jobs: seq<Job<V>>, live: map<string, V>, cancelErr: string, s: State<V>) {
    && |s.progress| == |jobs|
    && ConcMap.Inv(|jobs|, cancelErr, s.pool)
    && (forall j :: 0 <= j < |jobs| ==> JobOk(jobs, live, s, j))
    && (forall k: string :: (forall j :: 0 <= j < |jobs| ==> jobs[j].key != k) ==> Get(s.remote, k) == Get(live, k))
  }

  lemma InitInv<V>(jobs: seq<Job<V>>, live: map<string, V>, workers: nat, cancelErr: string, s: State<V>)
    requires Init(jobs, live, workers, s)
    ensures Inv(jobs, live, cancelErr, s)
  {
    ConcMap.InitInv(|jobs|, workers, cancelErr, s.pool);
    forall j | 0 <= j < |jobs| ensures JobOk(jobs, live, s, j) {
      assert jobs[j].requests[..0] == [];
    }
  }

  lemma StoredGet<V>(m: map<string, V>, key: string, v: Option<V>, k: string)
    ensures Get(Stored(m, key, v), k) == if k == key then v else Get(m, k)
  {}

  lemma SendNext<V>(jobs: seq<Job<V>>, live: map<string, V>, cancelErr: string, s: State<V>, w: nat, s': State<V>)
    requires DistinctKeys(jobs) && Inv(jobs, live, cancelErr, s) && Next(jobs, cancelErr, s, Send(w), s')
    ensures Inv(jobs, live, cancelErr, s')
  {
    var i := s.pool.workers[w].idx;
    var p := s.progress[i];
    var v := jobs[i].requests[p](Get(s.remote, jobs[i].key));
    assert ConcMap.SlotOk(|jobs|, cancelErr, s.pool, i);
    assert ConcMap.Holds(s.pool.workers[w], i);
    forall j | 0 <= j < |jobs| ensures JobOk(jobs, live, s', j) {
      assert JobOk(jobs, live, s, j);
      StoredGet(s.remote, jobs[i].key, v, jobs[j].key);
      if j == i {
        assert jobs[i].requests[..p + 1][..p] == jobs[i].requests[..p];
        assert ConcMap.Held(s.pool, i);
      }
    }
    forall k | forall j :: 0 <= j < |jobs| ==> jobs[j].key != k ensures Get(s'.remote, k) == Get(live, k) {
      StoredGet(s.remote, jobs[i].key, v, k);
    }
  }

  lemma PoolNext<V>(jobs: seq<Job<V>>, live: map<string, V>, cancelErr: string, s: State<V>,
                    m: ConcMap.Step<ApplyResult, string>, s': State<V>)
    requires Inv(jobs, live, cancelErr, s)
    requires ConcMap.Next(|jobs|, cancelErr, s.pool, m, s'.pool) && s' == s.(pool := s'.pool)
    requires m.Return? ==>
               && m.w < |s.pool.workers| && s.pool.workers[m.w].InFn? && s.pool.workers[m.w].idx < |jobs|
               && m.out.err.None?
               && (var j := s.pool.workers[m.w].idx;
                   && m.out.result.Some? && m.out.result.value.resource == jobs[j].resource
                   && (Applied(m.out.result.value) ==> s.progress[j] == |jobs[j].requests|))
    ensures Inv(jobs, live, cancelErr, s')
  {
    ConcMap.InvNext(|jobs|, cancelErr, s.pool, m, s'.pool);
    forall j | 0 <= j < |jobs| ensures JobOk(jobs, live, s', j) {
      assert JobOk(jobs, live, s, j);
    }
  }

  lemma InvNext<V>(jobs: seq<Job<V>>, live: map<string, V>, cancelErr: string, s: State<V>, step: Step, s': State<V>)
    requires DistinctKeys(jobs) && Inv(jobs, live, cancelErr, s) && Next(jobs, cancelErr, s, step, s')
    ensures Inv(jobs, live, cancelErr, s')
  {
    match step {
      case PoolStep(m) => PoolNext(jobs, live, cancelErr, s, m, s');
      case Send(w) => SendNext(jobs, live, cancelErr, s, w, s');
      case FnReturns(w, r) => PoolNext(jobs, live, cancelErr, s, ConcMap.Return(w, ConcMap.Slot(Some(r), None)), s');
    }
  }

  lemma {:induction false} RunInv<V>(jobs: seq<Job<V>>, live: map<string, V>, workers: nat, cancelErr: string,
                                     states: seq<State<V>>, steps: seq<Step>, n: nat)
    requires DistinctKeys(jobs) && Run(jobs, live, workers, cancelErr, states, steps) && n < |states|
    ensures Inv(jobs, live, cancelErr, states[n])
  {
    if n == 0 {
      InitInv(jobs, live, workers, cancelErr, states[0]);
    } else {
      RunInv(jobs, live, workers, cancelErr, states, steps, n - 1);
      assert StepAt(jobs, cancelErr, states, steps, n - 1);
      InvNext(jobs, live, cancelErr, states[n - 1], steps[n - 1], states[n]);
    }
  }

  // The slots when the run has ended: index j holds the result of its fn, which names it,
  // or the context's error.
  ghost predicate SlotNamed<V>(jobs: seq<Job<V>>, cancelErr: string, s: State<V>, j: nat)
    requires j < |jobs|
  {
    && |s.pool.slots| == |s.pool.calls| == |jobs|
    && ((s.pool.calls[j] == 1 && s.pool.slots[j].err.None?
         && s.pool.slots[j].result.Some? && s.pool.slots[j].result.value.resource == jobs[j].resource)
        || (s.pool.calls[j] == 0 && s.pool.slots[j] == ConcMap.Slot(None, Some(cancelErr))))
  }

  // In every finished run, on every schedule and with any cancellation: a job that reports
  // itself applied has sent all its requests and its key holds what they make of the live
  // item; a job that was never called has left its key alone.
  lemma FinishedJob<V>(jobs: seq<Job<V>>, live: map<string, V>, workers: nat, cancelErr: string,
                       states: seq<State<V>>, steps: seq<Step>, j: nat)
    requires DistinctKeys(jobs) && Finished(jobs, live, workers, cancelErr, states, steps) && j < |jobs|
    ensures var s := states[|steps|];
            && SlotNamed(jobs, cancelErr, s, j)
            && (s.pool.slots[j].result.Some? && Applied(s.pool.slots[j].result.value) ==>
                  Get(s.remote, jobs[j].key) == Effects(Get(live, jobs[j].key), jobs[j].requests))
            && (s.pool.calls[j] == 0 ==> Get(s.remote, jobs[j].key) == Get(live, jobs[j].key))
  {
    RunInv(jobs, live, workers, cancelErr, states, steps, |steps|);
    var s := states[|steps|];
    ConcMap.CountGoneAll(s.pool.workers);
    assert ConcMap.SlotOk(|jobs|, cancelErr, s.pool, j);
    assert !ConcMap.Held(s.pool, j);
    assert JobOk(jobs, live, s, j);
    assert jobs[j].requests[..|jobs[j].requests|] == jobs[j].requests;
    assert jobs[j].requests[..0] == [];
  }

  // No job touches a key that is not its own.
  lemma OthersUntouched<V>(jobs: seq<Job<V>>, live: map<string, V>, workers: nat, cancelErr: string,
                           states: seq<State<V>>, steps: seq<Step>, k: string)
    requires DistinctKeys(jobs) && Run(jobs, live, workers, cancelErr, states, steps)
    requires forall j :: 0 <= j < |jobs| ==> jobs[j].key != k
    ensures Get(states[|steps|].remote, k) == Get(live, k)
  {
    RunInv(jobs, live, workers, cancelErr, states, steps, |steps|);
  }

  // Every job ended applied.
  ghost predicate AllApplied<V>(jobs: seq<Job<V>>, s: State<V>) {
    && |s.pool.slots| == |jobs|
    && forall j :: 0 <= j < |jobs| ==> s.pool.slots[j].result.Some? && Applied(s.pool.slots[j].result.value)
  }

  // All finished runs in which every job applied leave the same remote, whatever their
  // schedules and numbers of workers.
  lemma ScheduleDoesNotMatter<V>(jobs: seq<Job<V>>, live: map<string, V>, workers: nat, workers': nat, cancelErr: string,
                                 states: seq<State<V>>, steps: seq<Step>, states': seq<State<V>>, steps': seq<Step>)
    requires DistinctKeys(jobs)
    requires Finished(jobs, live, workers, cancelErr, states, steps) && AllApplied(jobs, states[|steps|])
    requires Finished(jobs, live, workers', cancelErr, states', steps') && AllApplied(jobs, states'[|steps'|])
    ensures states[|steps|].remote == states'[|steps'|].remote
  {
    var a, b := states[|steps|].remote, states'[|steps'|].remote;
    forall k ensures Get(a, k) == Get(b, k) {
      if j :| 0 <= j < |jobs| && jobs[j].key == k {
        FinishedJob(jobs, live, workers, cancelErr, states, steps, j);
        FinishedJob(jobs, live, workers', cancelErr, states', steps', j);
      } else {
        OthersUntouched(jobs, live, workers, cancelErr, states, steps, k);
        OthersUntouched(jobs, live, workers', cancelErr, states', steps', k);
      }
    }
    SameGets(a, b);
  }

  lemma SameGets<V>(a: map<string, V>, b: map<string, V>)
    requires forall k :: Get(a, k) == Get(b, k)
    ensures a == b
  {
    forall k: string ensures (k in a <==> k in b) && (k in a ==> a[k] == b[k]) {
      assert Get(a, k) == Get(b, k);
    }
  }
}
