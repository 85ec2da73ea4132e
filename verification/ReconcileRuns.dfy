/**
  Any number of concurrent reconciles (internal/reconciler/reconciler.go:80-221) under the
  per-repository lock (internal/ghclient/repo_lock.go) as a step system with a trace of
  what their lanes do. Lanes may do any number of things, in any order, and end in any way.
*/
module ReconcileRuns {
  import opened Wrappers
  import opened Strings
  import opened Reconciler
  import RepoLock

  datatype Lane = PhaseA | PhaseB(index: nat)

  datatype Deed = Work | End(outcome: LaneOutcome)

  datatype Event = Event(run: nat, lane: Lane, deed: Deed)

  datatype Pc =
    | Arrived
    | Queued(mutex: nat)   // before mutex.Lock returns
    | Entered(mutex: nat)  // holds the mutex, before the policy check
    | InA(mutex: nat)
    | InB(mutex: nat)
    | Reported(mutex: nat) // the report is made, the mutex is still held
    | Released(mutex: nat)

  predicate Holding(pc: Pc) {
    pc.Entered? || pc.InA? || pc.InB? || pc.Reported?
  }

  predicate Started(pc: Pc) {
    pc.InA? || pc.InB? || pc.Reported? || pc.Released?
  }

  datatype RunState = RunState(input: RunInput, pc: Pc, a: Option<LaneOutcome>, results: seq<Option<LaneOutcome>>,
                               report: Option<Report>)

  datatype State = State(locks: map<string, nat>, held: seq<Option<nat>>, runs: map<nat, RunState>, trace: seq<Event>)

  datatype Step =
    | Arrive(id: nat, input: RunInput)
    | FindLock(id: nat)
    | Acquire(id: nat)
    | Begin(id: nat)
    | Act(id: nat, lane: Lane)
    | EndA(id: nat, outcome: LaneOutcome)
    | EndB(id: nat, index: nat, outcome: LaneOutcome)
    | Join(id: nat)
    | Unlock(id: nat)

  function KeyOf(input: RunInput): string {
    RepoLock.Key(input.owner, input.name)
  }

  predicate AllEnded(results: seq<Option<LaneOutcome>>) {
    forall i :: 0 <= i < |results| ==> results[i].Some?
  }

  function Values(results: seq<Option<LaneOutcome>>): seq<LaneOutcome>
    requires AllEnded(results)
  {
    seq(|results|, i requires 0 <= i < |results| => results[i].value)
  }

  // The lane is running in its run.
  predicate Active(r: RunState, lane: Lane) {
    match lane
    case PhaseA => r.pc.InA?
    case PhaseB(i) => r.pc.InB? && i < |r.results| && r.results[i].None?
  }

  predicate Enabled(s: State, step: Step) {
    match step
    case Arrive(id, _) => id !in s.runs
    case FindLock(id) => id in s.runs && s.runs[id].pc.Arrived?
    case Acquire(id) =>
      id in s.runs && s.runs[id].pc.Queued? && s.runs[id].pc.mutex < |s.held| && s.held[s.runs[id].pc.mutex].None?
    case Begin(id) => id in s.runs && s.runs[id].pc.Entered?
    case Act(id, lane) => id in s.runs && Active(s.runs[id], lane)
    case EndA(id, _) => id in s.runs && Active(s.runs[id], PhaseA)
    case EndB(id, i, _) => id in s.runs && Active(s.runs[id], PhaseB(i))
    case Join(id) =>
      && id in s.runs && s.runs[id].pc.InB? && AllEnded(s.runs[id].results)
      && |s.runs[id].results| == |Lanes(s.runs[id].input)| && (RunsPhaseA(s.runs[id].input) ==> s.runs[id].a.Some?)
    case Unlock(id) => id in s.runs && s.runs[id].pc.Reported? && s.runs[id].pc.mutex < |s.held|
  }

  function NoResults(input: RunInput): seq<Option<LaneOutcome>> {
    seq(|Lanes(input)|, i => None)
  }

  // The report of a refused run, made before any lane starts.
  function RefusedNow(input: RunInput): Report {
    Report(Output([], Refusals(Blocking(input.violations))), input.violations, true)
  }

  // The policy check and what follows it.
  function Begun(r: RunState): RunState
    requires r.pc.Entered?
  {
    var m := r.pc.mutex;
    if Refused(r.input) then r.(pc := Pc.Reported(m), report := Some(RefusedNow(r.input)))
    else if RunsPhaseA(r.input) then r.(pc := InA(m))
    else r.(pc := InB(m), results := NoResults(r.input))
  }

  function After(s: State, step: Step): State
    requires Enabled(s, step)
  {
    match step
    case Arrive(id, input) => s.(runs := s.runs[id := RunState(input, Arrived, None, [], None)])
    case FindLock(id) =>
      var r := s.runs[id];
      var key := KeyOf(r.input);
      var locks := RepoLock.WithLock(s.locks, |s.held|, key);
      s.(locks := locks, held := if key in s.locks then s.held else s.held + [None],
         runs := s.runs[id := r.(pc := Queued(locks[key]))])
    case Acquire(id) =>
      var r := s.runs[id];
      s.(held := s.held[r.pc.mutex := Some(id)], runs := s.runs[id := r.(pc := Entered(r.pc.mutex))])
    case Begin(id) => s.(runs := s.runs[id := Begun(s.runs[id])])
    case Act(id, lane) => s.(trace := s.trace + [Event(id, lane, Work)])
    case EndA(id, o) =>
      var r := s.runs[id];
      s.(trace := s.trace + [Event(id, PhaseA, End(o))],
         runs := s.runs[id := r.(pc := InB(r.pc.mutex), a := Some(o), results := NoResults(r.input))])
    case EndB(id, i, o) =>
      var r := s.runs[id];
      s.(trace := s.trace + [Event(id, PhaseB(i), End(o))],
         runs := s.runs[id := r.(results := r.results[i := Some(o)])])
    case Join(id) =>
      var r := s.runs[id];
      s.(runs := s.runs[id := r.(pc := Pc.Reported(r.pc.mutex), report := Some(ReportOf(r.input, r.a, Values(r.results))))])
    case Unlock(id) =>
      var r := s.runs[id];
      s.(held := s.held[r.pc.mutex := None], runs := s.runs[id := r.(pc := Released(r.pc.mutex))])
  }

  ghost predicate StepAt(states: seq<State>, steps: seq<Step>, i: nat) {
    && i < |steps| && i + 1 < |states|
    && Enabled(states[i], steps[i]) && states[i + 1] == After(states[i], steps[i])
  }

  ghost predicate Run(states: seq<State>, steps: seq<Step>) {
    && |states| == |steps| + 1
    && states[0] == State(map[], [], map[], [])
    && forall i :: 0 <= i < |steps| ==> StepAt(states, steps, i)
  }

  // ---------------------------------------------------------------- the invariant

  // Only the run inside a critical section holds its mutex.
  ghost predicate HeldOk(s: State, id: nat)
    requires id in s.runs
  {
    var r := s.runs[id];
    !r.pc.Arrived? ==>
      && KeyOf(r.input) in s.locks && s.locks[KeyOf(r.input)] == r.pc.mutex < |s.held|
      && (s.held[r.pc.mutex] == Some(id) <==> Holding(r.pc))
  }

  ghost predicate HoldersOk(s: State) {
    forall m :: 0 <= m < |s.held| && s.held[m].Some? ==>
      s.held[m].value in s.runs && Holding(s.runs[s.held[m].value].pc) && s.runs[s.held[m].value].pc.mutex == m
  }

  // The lanes a run has started.
  ghost predicate ProgressOk(r: RunState) {
    && (r.pc.InA? || r.pc.InB? ==> !Refused(r.input))
    && (r.pc.InA? ==> RunsPhaseA(r.input) && r.a.None?)
    && (r.pc.InB? || ((r.pc.Reported? || r.pc.Released?) && !Refused(r.input)) ==>
          |r.results| == |Lanes(r.input)| && (r.a.Some? <==> RunsPhaseA(r.input)))
    && (r.pc.Reported? || r.pc.Released? ==>
          && (Refused(r.input) ==> r.report == Some(RefusedNow(r.input)))
          && (!Refused(r.input) ==> AllEnded(r.results) && r.report == Some(ReportOf(r.input, r.a, Values(r.results)))))
  }

  // An event belongs to a lane its run started, and an end is recorded.
  ghost predicate EventOk(s: State, e: Event) {
    && e.run in s.runs
    && (var r := s.runs[e.run];
        && !Refused(r.input) && Started(r.pc)
        && match e.lane
           case PhaseA => RunsPhaseA(r.input) && (e.deed.End? ==> !r.pc.InA? && r.a == Some(e.deed.outcome))
           case PhaseB(i) =>
             !r.pc.InA? && i < |r.results| && (e.deed.End? ==> r.results[i] == Some(e.deed.outcome)))
  }

  ghost predicate EventsOk(s: State) {
    forall i :: 0 <= i < |s.trace| ==> EventOk(s, s.trace[i])
  }

  // What is recorded did happen.
  ghost predicate Recorded(s: State, id: nat)
    requires id in s.runs
  {
    var r := s.runs[id];
    && (r.a.Some? ==> Event(id, PhaseA, End(r.a.value)) in s.trace)
    && forall i :: 0 <= i < |r.results| && r.results[i].Some? ==> Event(id, PhaseB(i), End(r.results[i].value)) in s.trace
  }

  ghost predicate Rivals(s: State, id: nat, other: nat) {
    id in s.runs && other in s.runs && id != other && KeyOf(s.runs[id].input) == KeyOf(s.runs[other].input)
  }

  // A run that was followed by another of its repository has left.
  ghost predicate Succession(s: State) {
    forall i, j :: 0 <= i < j < |s.trace| && Rivals(s, s.trace[i].run, s.trace[j].run) ==>
      s.runs[s.trace[i].run].pc.Released?
  }

  // Events of two runs of one repository do not interleave.
  ghost predicate Apart(s: State) {
    forall i, j, k :: 0 <= i < j < k < |s.trace| && s.trace[i].run == s.trace[k].run ==>
      !Rivals(s, s.trace[i].run, s.trace[j].run)
  }

  // Within a run Phase A comes first.
  ghost predicate Phased(s: State) {
    forall i, j :: 0 <= i < j < |s.trace| && s.trace[i].run == s.trace[j].run && s.trace[j].lane.PhaseA? ==>
      s.trace[i].lane.PhaseA?
  }

  ghost predicate Inv(s: State) {
    && RepoLock.Separate(s.locks, |s.held|) && HoldersOk(s)
    && (forall id :: id in s.runs ==> HeldOk(s, id) && ProgressOk(s.runs[id]) && Recorded(s, id))
    && EventsOk(s) && Succession(s) && Apart(s) && Phased(s)
  }

  // ---------------------------------------------------------------- every step keeps it

  lemma HeldNext(s: State, step: Step, s': State, id: nat)
    requires Inv(s) && Enabled(s, step) && s' == After(s, step) && id in s'.runs
    ensures HeldOk(s', id)
  {
    if id in s.runs {
      assert HeldOk(s, id);
    }
    if !step.Arrive? {
      assert HeldOk(s, step.id);
    }
  }

  lemma LocksNext(s: State, step: Step, s': State)
    requires Inv(s) && Enabled(s, step) && s' == After(s, step)
    ensures RepoLock.Separate(s'.locks, |s'.held|) && HoldersOk(s')
  {
    if !step.Arrive? {
      assert HeldOk(s, step.id);
    }
  }

  lemma ProgressNext(s: State, step: Step, s': State, id: nat)
    requires Inv(s) && Enabled(s, step) && s' == After(s, step) && id in s'.runs
    ensures ProgressOk(s'.runs[id])
  {
    if id in s.runs {
      assert ProgressOk(s.runs[id]);
    }
  }

  lemma RecordedNext(s: State, step: Step, s': State, id: nat)
    requires Inv(s) && Enabled(s, step) && s' == After(s, step) && id in s'.runs
    ensures Recorded(s', id)
  {
    if id in s.runs {
      assert Recorded(s, id);
      assert s.trace <= s'.trace;
      forall e | e in s.trace ensures e in s'.trace {
        var i :| 0 <= i < |s.trace| && s.trace[i] == e;
        assert s'.trace[i] == e;
      }
      if step.EndA? || step.EndB? {
        assert s'.trace[|s.trace|] in s'.trace;
      }
    }
  }

  // A run never goes back, and what its lanes ended with stays.
  lemma RunGrows(s: State, step: Step, s': State, id: nat)
    requires Enabled(s, step) && s' == After(s, step) && id in s.runs && ProgressOk(s.runs[id])
    ensures id in s'.runs && s'.runs[id].input == s.runs[id].input
    ensures var r, r' := s.runs[id], s'.runs[id];
            && (Started(r.pc) ==> Started(r'.pc))
            && (Started(r.pc) && !r.pc.InA? ==>
                  !r'.pc.InA? && r'.a == r.a && |r'.results| == |r.results|
                  && forall i :: 0 <= i < |r.results| && r.results[i].Some? ==> r'.results[i] == r.results[i])
  {}

  lemma EventKept(s: State, step: Step, s': State, e: Event)
    requires Inv(s) && Enabled(s, step) && s' == After(s, step) && EventOk(s, e)
    ensures EventOk(s', e)
  {
    RunGrows(s, step, s', e.run);
  }

  lemma EventsNext(s: State, step: Step, s': State)
    requires Inv(s) && Enabled(s, step) && s' == After(s, step)
    ensures EventsOk(s')
  {
    forall i | 0 <= i < |s'.trace| ensures EventOk(s', s'.trace[i]) {
      if i < |s.trace| {
        assert EventOk(s, s.trace[i]);
        EventKept(s, step, s', s.trace[i]);
      } else {
        assert ProgressOk(s.runs[step.id]);
      }
    }
  }

  // A run that emits holds the mutex of its repository, so no other run of it that has
  // emitted is still inside.
  lemma RivalsLeft(s: State, id: nat, i: nat)
    requires Inv(s) && id in s.runs && Holding(s.runs[id].pc) && i < |s.trace| && Rivals(s, s.trace[i].run, id)
    ensures s.runs[s.trace[i].run].pc.Released?
  {
    assert HeldOk(s, id) && HeldOk(s, s.trace[i].run) && EventOk(s, s.trace[i]);
  }

  lemma RunsKept(s: State, step: Step, s': State, id: nat)
    requires Enabled(s, step) && s' == After(s, step) && id in s.runs
    ensures id in s'.runs && s'.runs[id].input == s.runs[id].input
    ensures s.runs[id].pc.Released? ==> s'.runs[id].pc.Released?
  {}

  // Past events stay where they are and belong to runs that are known.
  lemma TraceKept(s: State, step: Step, s': State, i: nat)
    requires Inv(s) && Enabled(s, step) && s' == After(s, step) && i < |s.trace|
    ensures i < |s'.trace| && s'.trace[i] == s.trace[i] && s.trace[i].run in s.runs
    ensures s'.trace[i].run in s'.runs && KeyOf(s'.runs[s'.trace[i].run].input) == KeyOf(s.runs[s.trace[i].run].input)
    ensures s.runs[s.trace[i].run].pc.Released? ==> s'.runs[s.trace[i].run].pc.Released?
    ensures |s'.trace| <= |s.trace| + 1
    ensures |s'.trace| > |s.trace| ==> !step.Arrive? && s'.trace[|s.trace|].run == step.id
  {
    assert EventOk(s, s.trace[i]);
    RunsKept(s, step, s', s.trace[i].run);
  }

  lemma SuccessionNext(s: State, step: Step, s': State)
    requires Inv(s) && Enabled(s, step) && s' == After(s, step)
    ensures Succession(s')
  {
    forall i, j | 0 <= i < j < |s'.trace| && Rivals(s', s'.trace[i].run, s'.trace[j].run)
      ensures s'.runs[s'.trace[i].run].pc.Released?
    {
      TraceKept(s, step, s', i);
      if j == |s.trace| {
        RivalsLeft(s, step.id, i);
      } else {
        TraceKept(s, step, s', j);
      }
    }
  }

  lemma ApartNext(s: State, step: Step, s': State)
    requires Inv(s) && Enabled(s, step) && s' == After(s, step)
    ensures Apart(s')
  {
    forall i, j, k | 0 <= i < j < k < |s'.trace| && s'.trace[i].run == s'.trace[k].run
      ensures !Rivals(s', s'.trace[i].run, s'.trace[j].run)
    {
      TraceKept(s, step, s', i);
      TraceKept(s, step, s', j);
    }
  }

  lemma PhasedNext(s: State, step: Step, s': State)
    requires Inv(s) && Enabled(s, step) && s' == After(s, step)
    ensures Phased(s')
  {
    forall i, j | 0 <= i < j < |s'.trace| && s'.trace[i].run == s'.trace[j].run && s'.trace[j].lane.PhaseA?
      ensures s'.trace[i].lane.PhaseA?
    {
      assert EventOk(s, s.trace[i]);
    }
  }

  lemma InvNext(s: State, step: Step, s': State)
    requires Inv(s) && Enabled(s, step) && s' == After(s, step)
    ensures Inv(s')
  {
    LocksNext(s, step, s');
    forall id | id in s'.runs ensures HeldOk(s', id) && ProgressOk(s'.runs[id]) && Recorded(s', id) {
      HeldNext(s, step, s', id);
      ProgressNext(s, step, s', id);
      RecordedNext(s, step, s', id);
    }
    EventsNext(s, step, s');
    SuccessionNext(s, step, s');
    ApartNext(s, step, s');
    PhasedNext(s, step, s');
  }

  lemma {:induction false} RunInv(states: seq<State>, steps: seq<Step>, n: nat)
    requires Run(states, steps) && n < |states|
    ensures Inv(states[n])
  {
    if n > 0 {
      RunInv(states, steps, n - 1);
      assert StepAt(states, steps, n - 1);
      InvNext(states[n - 1], steps[n - 1], states[n]);
    }
  }

  // ---------------------------------------------------------------- trace safety

  predicate SameRepository(a: RunInput, b: RunInput) {
    EqualFold(a.owner, b.owner) && EqualFold(a.name, b.name)
  }

  lemma SameKey(a: RunInput, b: RunInput)
    requires SameRepository(a, b)
    ensures KeyOf(a) == KeyOf(b)
  {
    RepoLock.LowerConcat(a.owner + "/", a.name);
    RepoLock.LowerConcat(a.owner, "/");
    RepoLock.LowerConcat(b.owner + "/", b.name);
    RepoLock.LowerConcat(b.owner, "/");
  }

  // In every run and every interleaving: between two events of one reconcile there is none
  // of another reconcile of the same repository, up to case.
  lemma NoInterleaving(states: seq<State>, steps: seq<Step>, n: nat, i: nat, j: nat, k: nat)
    requires Run(states, steps) && n < |states| && i < j < k < |states[n].trace|
    requires states[n].trace[i].run == states[n].trace[k].run != states[n].trace[j].run
    ensures states[n].trace[i].run in states[n].runs && states[n].trace[j].run in states[n].runs
    ensures !SameRepository(states[n].runs[states[n].trace[i].run].input, states[n].runs[states[n].trace[j].run].input)
  {
    var s := states[n];
    RunInv(states, steps, n);
    assert EventOk(s, s.trace[i]) && EventOk(s, s.trace[j]);
    var a, b := s.runs[s.trace[i].run].input, s.runs[s.trace[j].run].input;
    if SameRepository(a, b) {
      SameKey(a, b);
      assert Rivals(s, s.trace[i].run, s.trace[j].run);
    }
  }

  // Every event belongs to a lane that is configured and not disabled, of a run without an
  // error violation, and Phase A is over before Phase B starts.
  lemma EventsAllowed(states: seq<State>, steps: seq<Step>, n: nat, i: nat)
    requires Run(states, steps) && n < |states| && i < |states[n].trace|
    ensures var e := states[n].trace[i];
            && e.run in states[n].runs
            && (var input := states[n].runs[e.run].input;
                && (forall v :: v in input.violations ==> !v.isError)
                && match e.lane
                   case PhaseA => input.phaseA && "repository" !in input.disabled
                   case PhaseB(l) => l < |Lanes(input)| && Lanes(input)[l] in input.configured - input.disabled)
    ensures states[n].trace[i].lane.PhaseB? ==>
              forall j :: i < j < |states[n].trace| && states[n].trace[j].run == states[n].trace[i].run ==>
                states[n].trace[j].lane.PhaseB?
  {
    var s := states[n];
    RunInv(states, steps, n);
    var e := s.trace[i];
    assert EventOk(s, e);
    var r := s.runs[e.run];
    assert ProgressOk(r);
    RefusedMeans(r.input);
    Plan.OnlyMembers(SPEC_KEYS, r.input.configured - r.input.disabled);
    if e.lane.PhaseB? {
      assert Lanes(r.input)[e.lane.index] in Lanes(r.input);
    }
  }

  // How a lane ended, as the trace has it.
  ghost predicate Ended(s: State, id: nat, lane: Lane, o: LaneOutcome) {
    Event(id, lane, End(o)) in s.trace
  }

  ghost predicate Finished(s: State, id: nat) {
    id in s.runs && (s.runs[id].pc.Reported? || s.runs[id].pc.Released?)
  }

  // What a finished run reports is ReportOf what its lanes ended with, whatever the order
  // they ended in; with an error violation it is the blocked report, whatever they would have.
  lemma FinishedReport(states: seq<State>, steps: seq<Step>, n: nat, id: nat)
    requires Run(states, steps) && n < |states| && Finished(states[n], id)
    ensures var r := states[n].runs[id];
            && r.report.Some? && (r.report.value.blocked <==> HasError(r.input.violations))
            && (HasError(r.input.violations) ==>
                  forall a: Option<LaneOutcome>, bs :: (RunsPhaseA(r.input) ==> a.Some?) && |bs| == |Lanes(r.input)| ==>
                    r.report.value == ReportOf(r.input, a, bs))
            && (!HasError(r.input.violations) ==>
                  && |r.results| == |Lanes(r.input)| && AllEnded(r.results)
                  && (r.a.Some? <==> RunsPhaseA(r.input))
                  && r.report == Some(ReportOf(r.input, r.a, Values(r.results)))
                  && (r.a.Some? ==> Ended(states[n], id, PhaseA, r.a.value))
                  && forall i :: 0 <= i < |r.results| ==> Ended(states[n], id, PhaseB(i), r.results[i].value))
  {
    RunInv(states, steps, n);
    assert ProgressOk(states[n].runs[id]) && Recorded(states[n], id);
    RefusedMeans(states[n].runs[id].input);
  }

  // The ends in the trace agree with what was recorded.
  lemma EndsAgree(s: State, id: nat, lane: Lane, o: LaneOutcome)
    requires Inv(s) && id in s.runs && Ended(s, id, lane, o)
    ensures match lane
            case PhaseA => s.runs[id].a == Some(o)
            case PhaseB(i) => i < |s.runs[id].results| && s.runs[id].results[i] == Some(o)
  {
    var i :| 0 <= i < |s.trace| && s.trace[i] == Event(id, lane, End(o));
    assert EventOk(s, s.trace[i]);
  }

  // Two finished runs with the same input, in any two schedules, whose lanes ended alike
  // have the same report.
  lemma ReportIgnoresSchedule(states: seq<State>, steps: seq<Step>, n: nat, id: nat,
                              states': seq<State>, steps': seq<Step>, n': nat, id': nat)
    requires Run(states, steps) && n < |states| && Finished(states[n], id)
    requires Run(states', steps') && n' < |states'| && Finished(states'[n'], id')
    requires states[n].runs[id].input == states'[n'].runs[id'].input
    requires forall lane, o :: Ended(states[n], id, lane, o) ==> Ended(states'[n'], id', lane, o)
    ensures states[n].runs[id].report == states'[n'].runs[id'].report
  {
    FinishedReport(states, steps, n, id);
    FinishedReport(states', steps', n', id');
    RunInv(states', steps', n');
    var r, r' := states[n].runs[id], states'[n'].runs[id'];
    if HasError(r.input.violations) {
      RunInv(states, steps, n);
      RefusedMeans(r.input);
      assert ProgressOk(r) && ProgressOk(r');
    } else {
      if r.a.Some? {
        EndsAgree(states'[n'], id', PhaseA, r.a.value);
      }
      forall i | 0 <= i < |r.results| ensures r.results[i] == r'.results[i] {
        assert Ended(states[n], id, PhaseB(i), r.results[i].value);
        EndsAgree(states'[n'], id', PhaseB(i), r.results[i].value);
      }
      assert r.results == r'.results;
    }
  }

  // ---------------------------------------------------------------- progress

  // A run that has not left can go on itself, or waits for another run of its repository
  // that can. `o` is how a running lane ends.
  lemma NeverStuck(states: seq<State>, steps: seq<Step>, n: nat, id: nat, o: LaneOutcome) returns (step: Step)
    requires Run(states, steps) && n < |states| && id in states[n].runs && !states[n].runs[id].pc.Released?
    ensures Enabled(states[n], step) && !step.Arrive?
    ensures step.id == id || (states[n].runs[id].pc.Queued? && Rivals(states[n], id, step.id))
  {
    var s := states[n];
    RunInv(states, steps, n);
    assert HeldOk(s, id);
    var r := s.runs[id];
    if r.pc.Queued? && s.held[r.pc.mutex].Some? {
      var holder := s.held[r.pc.mutex].value;
      assert HeldOk(s, holder);
      step := OwnStep(s, holder, o);
    } else {
      step := OwnStep(s, id, o);
    }
  }

  lemma OwnStep(s: State, id: nat, o: LaneOutcome) returns (step: Step)
    requires Inv(s) && id in s.runs && !s.runs[id].pc.Released?
    requires s.runs[id].pc.Queued? ==> s.runs[id].pc.mutex < |s.held| && s.held[s.runs[id].pc.mutex].None?
    ensures Enabled(s, step) && !step.Arrive? && step.id == id
  {
    var r := s.runs[id];
    assert HeldOk(s, id) && ProgressOk(r);
    match r.pc {
      case Arrived => step := FindLock(id);
      case Queued(_) => step := Acquire(id);
      case Entered(_) => step := Begin(id);
      case InA(_) => step := EndA(id, o);
      case InB(_) =>
        if AllEnded(r.results) {
          step := Join(id);
        } else {
          var i: nat :| i < |r.results| && r.results[i].None?;
          step := EndB(id, i, o);
        }
      case Reported(_) => step := Unlock(id);
    }
  }
}
