/**
  Concurrent calls of AdminCache.For (internal/config/admin_cache.go:70-98) as a step
  system. A caller looks its entry up under the mutex, goes through the entry's sync.Once
  (one caller runs the load, the others wait), drops a failed entry under the mutex, and
  returns what the entry holds. Loads may take any time and end either way.

  Entries are numbered in the order they were made. L is the type of a loaded layer.
*/
module AdminCacheRuns {
  import opened Wrappers
  import opened AdminCache

  datatype Once =
    | Unused
    | Running(runner: nat) // a caller is in the once, until it leaves it
    | Done

  datatype Entry<L> = Entry(key: string, fetched: int, once: Once, loads: nat, outcome: Option<Result<L, string>>)

  predicate Failed<L>(e: Entry<L>) {
    e.outcome.Some? && e.outcome.value.Err?
  }

  datatype Pc<L> =
    | Called
    | Looked(entry: nat)   // has its entry, before the once
    | Loading(entry: nat)
    | Dropping(entry: nat) // the load failed
    | Leaving(entry: nat)  // about to end the once
    | Passed(entry: nat)   // after the once
    | Returned(entry: nat, result: Result<L, string>)

  // `lookedAt` is the clock reading of the caller's age check.
  datatype Caller<L> = Caller(key: string, lookedAt: int, pc: Pc<L>)

  datatype State<L> = State(now: int, entries: map<string, nat>, made: seq<Entry<L>>, callers: map<nat, Caller<L>>)

  datatype Step<L> =
    | Call(id: nat, key: string)
    | Lookup(id: nat, check: int, stamp: int)
    | EnterOnce(id: nat)
    | PassOnce(id: nat)
    | LoadEnds(id: nat, result: Result<L, string>)
    | Drop(id: nat)
    | EndOnce(id: nat)
    | Return(id: nat)

  // The entry that a lookup may reuse.
  predicate Young<L>(s: State<L>, key: string, check: int) {
    key in s.entries && s.entries[key] < |s.made| && check - s.made[s.entries[key]].fetched <= TTL
  }

  predicate At<L>(s: State<L>, id: nat) {
    id in s.callers && !s.callers[id].pc.Called? && s.callers[id].pc.entry < |s.made|
  }

  predicate Enabled<L>(s: State<L>, step: Step<L>) {
    match step
    case Call(id, _) => id !in s.callers
    case Lookup(id, check, stamp) => id in s.callers && s.callers[id].pc.Called? && s.now <= check <= stamp
    case EnterOnce(id) => At(s, id) && s.callers[id].pc.Looked? && s.made[s.callers[id].pc.entry].once == Unused
    case PassOnce(id) => At(s, id) && s.callers[id].pc.Looked? && s.made[s.callers[id].pc.entry].once == Done
    case LoadEnds(id, _) => At(s, id) && s.callers[id].pc.Loading?
    case Drop(id) => At(s, id) && s.callers[id].pc.Dropping?
    case EndOnce(id) => At(s, id) && s.callers[id].pc.Leaving?
    case Return(id) => At(s, id) && s.callers[id].pc.Passed? && s.made[s.callers[id].pc.entry].outcome.Some?
  }

  function Moved<L>(s: State<L>, id: nat, pc: Pc<L>): map<nat, Caller<L>>
    requires id in s.callers
  {
    s.callers[id := s.callers[id].(pc := pc)]
  }

  function After<L>(s: State<L>, step: Step<L>): State<L>
    requires Enabled(s, step)
  {
    match step
    case Call(id, key) => s.(callers := s.callers[id := Caller(key, s.now, Called)])
    case Lookup(id, check, stamp) =>
      var c := s.callers[id].(lookedAt := check);
      if Young(s, c.key, check) then
        s.(now := stamp, callers := s.callers[id := c.(pc := Looked(s.entries[c.key]))])
      else
        s.(now := stamp, entries := s.entries[c.key := |s.made|],
           made := s.made + [Entry(c.key, stamp, Unused, 0, None)],
           callers := s.callers[id := c.(pc := Looked(|s.made|))])
    case EnterOnce(id) =>
      var e := s.callers[id].pc.entry;
      s.(made := s.made[e := s.made[e].(once := Running(id), loads := s.made[e].loads + 1)],
         callers := Moved(s, id, Loading(e)))
    case PassOnce(id) => s.(callers := Moved(s, id, Passed(s.callers[id].pc.entry)))
    case LoadEnds(id, r) =>
      var e := s.callers[id].pc.entry;
      s.(made := s.made[e := s.made[e].(outcome := Some(r))],
         callers := Moved(s, id, if r.Ok? then Leaving(e) else Dropping(e)))
    case Drop(id) =>
      var e := s.callers[id].pc.entry;
      var key := s.callers[id].key;
      s.(entries := if key in s.entries && s.entries[key] == e then s.entries - {key} else s.entries,
         callers := Moved(s, id, Leaving(e)))
    case EndOnce(id) =>
      var e := s.callers[id].pc.entry;
      s.(made := s.made[e := s.made[e].(once := Done)], callers := Moved(s, id, Passed(e)))
    case Return(id) =>
      var e := s.callers[id].pc.entry;
      s.(callers := Moved(s, id, Returned(e, s.made[e].outcome.value)))
  }

  ghost predicate StepAt<L>(states: seq<State<L>>, steps: seq<Step<L>>, i: nat) {
    && i < |steps| && i + 1 < |states|
    && Enabled(states[i], steps[i]) && states[i + 1] == After(states[i], steps[i])
  }

  ghost predicate Run<L>(states: seq<State<L>>, steps: seq<Step<L>>) {
    && |states| == |steps| + 1
    && states[0].entries == map[] && states[0].made == [] && states[0].callers == map[]
    && forall i :: 0 <= i < |steps| ==> StepAt(states, steps, i)
  }

  // ---------------------------------------------------------------- the invariant

  // What a caller knows of its entry.
  ghost predicate CallerOk<L>(s: State<L>, id: nat)
    requires id in s.callers
  {
    var c := s.callers[id];
    !c.pc.Called? ==>
      && c.pc.entry < |s.made|
      && (var e := s.made[c.pc.entry];
          && e.key == c.key && c.lookedAt - e.fetched <= TTL
          && (c.pc.Loading? || c.pc.Dropping? || c.pc.Leaving? ==> e.once == Running(id))
          && (c.pc.Dropping? ==> Failed(e))
          && (c.pc.Leaving? ==> e.outcome.Some? && (e.outcome.value.Err? ==> !Listed(s, c.pc.entry)))
          && (c.pc.Loading? ==> e.outcome.None?)
          && (c.pc.Passed? ==> e.once == Done)
          && (c.pc.Returned? ==> e.once == Done && e.outcome == Some(c.pc.result)))
  }

  ghost predicate Listed<L>(s: State<L>, i: nat) {
    i < |s.made| && s.made[i].key in s.entries && s.entries[s.made[i].key] == i
  }

  ghost predicate EntryOk<L>(s: State<L>, i: nat)
    requires i < |s.made|
  {
    var e := s.made[i];
    && e.fetched <= s.now
    && (e.once == Unused ==> e.loads == 0 && e.outcome.None?)
    && (e.once != Unused ==> e.loads == 1)
    && (e.once == Done ==> e.outcome.Some? && (Failed(e) ==> !Listed(s, i)))
    && (e.once.Running? ==>
          && e.once.runner in s.callers
          && (var pc := s.callers[e.once.runner].pc; (pc.Loading? || pc.Dropping? || pc.Leaving?) && pc.entry == i))
    // an entry was replaced because it had failed or was too old
    && (Listed(s, i) || Failed(e) || s.now - e.fetched > TTL)
  }

  ghost predicate Inv<L>(s: State<L>) {
    && (forall k :: k in s.entries ==> s.entries[k] < |s.made| && s.made[s.entries[k]].key == k)
    && (forall i :: 0 <= i < |s.made| ==> EntryOk(s, i))
    && (forall id :: id in s.callers ==> CallerOk(s, id))
    && (forall i, j :: 0 <= i < j < |s.made| && s.made[i].key == s.made[j].key ==>
          Failed(s.made[i]) || s.made[j].fetched - s.made[i].fetched > TTL)
  }

  // A lookup may add an entry; the other steps of a caller work on the entry it has.
  lemma EntryLooked<L>(s: State<L>, step: Step<L>, s': State<L>, i: nat)
    requires Inv(s) && Enabled(s, step) && s' == After(s, step) && i < |s'.made| && (step.Call? || step.Lookup?)
    ensures EntryOk(s', i)
  {
    if i < |s.made| {
      assert EntryOk(s, i);
    }
  }

  lemma EntryWorked<L>(s: State<L>, step: Step<L>, s': State<L>, i: nat)
    requires Inv(s) && Enabled(s, step) && s' == After(s, step) && i < |s'.made| && !step.Call? && !step.Lookup?
    ensures EntryOk(s', i)
  {
    assert EntryOk(s, i);
    assert CallerOk(s, step.id);
  }

  lemma CallerMoved<L>(s: State<L>, step: Step<L>, s': State<L>)
    requires Inv(s) && Enabled(s, step) && s' == After(s, step)
    ensures step.id in s'.callers && CallerOk(s', step.id)
  {
    if !step.Call? {
      assert CallerOk(s, step.id);
      if !step.Lookup? {
        assert EntryOk(s, s.callers[step.id].pc.entry);
      }
    }
  }

  lemma CallerKept<L>(s: State<L>, step: Step<L>, s': State<L>, id: nat)
    requires Inv(s) && Enabled(s, step) && s' == After(s, step) && id in s'.callers && id != step.id
    ensures CallerOk(s', id)
  {
    assert CallerOk(s, id);
    if !s.callers[id].pc.Called? {
      assert EntryOk(s, s.callers[id].pc.entry);
    }
    if !step.Call? {
      assert CallerOk(s, step.id);
    }
  }

  lemma Replaced<L>(s: State<L>, step: Step<L>, s': State<L>, i: nat, j: nat)
    requires Inv(s) && Enabled(s, step) && s' == After(s, step)
    requires i < j < |s'.made| && s'.made[i].key == s'.made[j].key
    ensures Failed(s'.made[i]) || s'.made[j].fetched - s'.made[i].fetched > TTL
  {
    assert EntryOk(s, i);
    if !step.Call? {
      assert CallerOk(s, step.id);
    }
  }

  lemma InvNext<L>(s: State<L>, step: Step<L>, s': State<L>)
    requires Inv(s) && Enabled(s, step) && s' == After(s, step)
    ensures Inv(s')
  {
    forall i | 0 <= i < |s'.made| ensures EntryOk(s', i) {
      if step.Call? || step.Lookup? {
        EntryLooked(s, step, s', i);
      } else {
        EntryWorked(s, step, s', i);
      }
    }
    forall id | id in s'.callers ensures CallerOk(s', id) {
      if id == step.id {
        CallerMoved(s, step, s');
      } else {
        CallerKept(s, step, s', id);
      }
    }
    forall i, j | 0 <= i < j < |s'.made| && s'.made[i].key == s'.made[j].key
      ensures Failed(s'.made[i]) || s'.made[j].fetched - s'.made[i].fetched > TTL
    {
      Replaced(s, step, s', i, j);
    }
  }

  lemma {:induction false} RunInv<L>(states: seq<State<L>>, steps: seq<Step<L>>, n: nat)
    requires Run(states, steps) && n < |states|
    ensures Inv(states[n])
  {
    if n > 0 {
      RunInv(states, steps, n - 1);
      assert StepAt(states, steps, n - 1);
      InvNext(states[n - 1], steps[n - 1], states[n]);
    }
  }

  // ---------------------------------------------------------------- what every run keeps

  // An entry is loaded at most once, however many callers share it.
  lemma AtMostOneLoad<L>(states: seq<State<L>>, steps: seq<Step<L>>, n: nat, i: nat)
    requires Run(states, steps) && n < |states| && i < |states[n].made|
    ensures states[n].made[i].loads <= 1
    ensures states[n].made[i].outcome.Some? ==> states[n].made[i].loads == 1
  {
    RunInv(states, steps, n);
    assert EntryOk(states[n], i);
  }

  // Of two entries under one key the later one was made more than the TTL after the earlier
  // one, unless that one's load failed: at most one good load a TTL for each spelling.
  lemma OneLoadPerTtl<L>(states: seq<State<L>>, steps: seq<Step<L>>, n: nat, i: nat, j: nat)
    requires Run(states, steps) && n < |states| && i < j < |states[n].made|
    requires states[n].made[i].key == states[n].made[j].key
    ensures Failed(states[n].made[i]) || states[n].made[j].fetched - states[n].made[i].fetched > TTL
  {
    RunInv(states, steps, n);
  }

  // A caller returns exactly what the load of its entry reported, and that entry, under its
  // own key, was made no more than the TTL before the caller's age check.
  lemma ReturnsFreshLoad<L>(states: seq<State<L>>, steps: seq<Step<L>>, n: nat, id: nat)
    requires Run(states, steps) && n < |states| && id in states[n].callers && states[n].callers[id].pc.Returned?
    ensures var c := states[n].callers[id];
            && c.pc.entry < |states[n].made|
            && (var e := states[n].made[c.pc.entry];
                && e.key == c.key && e.once == Done && e.loads == 1 && e.outcome == Some(c.pc.result)
                && c.lookedAt - e.fetched <= TTL)
  {
    RunInv(states, steps, n);
    assert CallerOk(states[n], id);
    assert EntryOk(states[n], states[n].callers[id].pc.entry);
  }

  // The load of an entry, once it has ended, and the end of its once are final.
  lemma OutcomeStays<L>(s: State<L>, step: Step<L>, s': State<L>, i: nat)
    requires Inv(s) && Enabled(s, step) && s' == After(s, step) && i < |s.made|
    ensures i < |s'.made| && s'.made[i].key == s.made[i].key && s'.made[i].fetched == s.made[i].fetched
    ensures s.made[i].outcome.Some? ==> s'.made[i].outcome == s.made[i].outcome
    ensures s.made[i].once == Done ==> s'.made[i].once == Done
  {
    assert EntryOk(s, i);
    if !step.Call? {
      assert CallerOk(s, step.id);
    }
  }

  // A caller that has not looked up yet at m.
  predicate NotYet<L>(s: State<L>, id: nat) {
    id in s.callers ==> s.callers[id].pc.Called?
  }

  // Entry i failed for good and caller `id` does not use it.
  ghost predicate Avoids<L>(s: State<L>, i: nat, id: nat) {
    && i < |s.made| && Failed(s.made[i]) && s.made[i].once == Done
    && (NotYet(s, id) || s.callers[id].pc.entry != i)
  }

  lemma AvoidsNext<L>(s: State<L>, step: Step<L>, s': State<L>, i: nat, id: nat)
    requires Inv(s) && Enabled(s, step) && s' == After(s, step) && Avoids(s, i, id)
    ensures Avoids(s', i, id)
  {
    OutcomeStays(s, step, s', i);
    assert EntryOk(s, i);
  }

  // Once a caller has returned a failure, no call that looks up afterwards is answered by
  // that load: whatever entry it gets is another one.
  lemma FailureIsNotReused<L>(states: seq<State<L>>, steps: seq<Step<L>>, m: nat, n: nat, failed: nat, id: nat)
    requires Run(states, steps) && m <= n < |states|
    requires failed in states[m].callers && states[m].callers[failed].pc.Returned?
    requires states[m].callers[failed].pc.result.Err?
    requires id in states[m].callers ==> states[m].callers[id].pc.Called?
    ensures id in states[n].callers && !states[n].callers[id].pc.Called? ==>
              states[n].callers[id].pc.entry != states[m].callers[failed].pc.entry
  {
    RunInv(states, steps, m);
    assert CallerOk(states[m], failed);
    AvoidsStays(states, steps, m, n, states[m].callers[failed].pc.entry, id);
  }

  lemma {:induction false} AvoidsStays<L>(states: seq<State<L>>, steps: seq<Step<L>>, m: nat, n: nat, i: nat, id: nat)
    requires Run(states, steps) && m <= n < |states| && Avoids(states[m], i, id)
    ensures Avoids(states[n], i, id)
    decreases n
  {
    if m < n {
      AvoidsStays(states, steps, m, n - 1, i, id);
      RunInv(states, steps, n - 1);
      assert StepAt(states, steps, n - 1);
      AvoidsNext(states[n - 1], steps[n - 1], states[n], i, id);
    }
  }

  // A failed caller removes its own entry at most: every other key, and a newer entry of
  // the same key, stays, and afterwards the failed entry is not in the map.
  lemma DropSparesNewer<L>(states: seq<State<L>>, steps: seq<Step<L>>, n: nat)
    requires Run(states, steps) && StepAt(states, steps, n) && steps[n].Drop?
    ensures var i := states[n].callers[steps[n].id].pc.entry;
            && i < |states[n].made| && Failed(states[n].made[i])
            && (forall k :: k in states[n].entries && states[n].entries[k] != i ==>
                  k in states[n + 1].entries && states[n + 1].entries[k] == states[n].entries[k])
            && (forall k :: k in states[n + 1].entries ==>
                  states[n + 1].entries[k] != i && k in states[n].entries)
  {
    RunInv(states, steps, n);
    assert CallerOk(states[n], steps[n].id);
  }

  // A caller that has not returned can go on itself, or the caller whose load it waits for
  // can: callers never block each other for ever. `result` is how a running load ends.
  lemma NeverStuck<L>(states: seq<State<L>>, steps: seq<Step<L>>, n: nat, id: nat, result: Result<L, string>)
    returns (step: Step<L>)
    requires Run(states, steps) && n < |states| && id in states[n].callers && !states[n].callers[id].pc.Returned?
    ensures Enabled(states[n], step) && !step.Call?
    ensures step.id == id ||
            (var pc := states[n].callers[id].pc;
             pc.Looked? && pc.entry < |states[n].made| && states[n].made[pc.entry].once == Running(step.id))
  {
    RunInv(states, steps, n);
    var s := states[n];
    assert CallerOk(s, id);
    if s.callers[id].pc.Called? {
      step := Lookup(id, s.now, s.now);
    } else {
      assert EntryOk(s, s.callers[id].pc.entry);
      var once := s.made[s.callers[id].pc.entry].once;
      if s.callers[id].pc.Looked? && once.Running? {
        assert CallerOk(s, once.runner);
        step := OwnStep(s, once.runner, result);
      } else {
        step := OwnStep(s, id, result);
      }
    }
  }

  lemma OwnStep<L>(s: State<L>, id: nat, result: Result<L, string>) returns (step: Step<L>)
    requires Inv(s) && id in s.callers && !s.callers[id].pc.Returned? && !s.callers[id].pc.Called?
    requires CallerOk(s, id)
    requires s.callers[id].pc.Looked? ==> !s.made[s.callers[id].pc.entry].once.Running?
    ensures Enabled(s, step) && !step.Call? && step.id == id
  {
    var pc := s.callers[id].pc;
    assert EntryOk(s, pc.entry);
    match pc {
      case Looked(e) => step := if s.made[e].once == Unused then EnterOnce(id) else PassOnce(id);
      case Loading(_) => step := LoadEnds(id, result);
      case Dropping(_) => step := Drop(id);
      case Leaving(_) => step := EndOnce(id);
      case Passed(_) => step := Return(id);
    }
  }
}
