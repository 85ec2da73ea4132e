/**
  Applying a named-list plan (internal/applier/helpers.go): the actionable entries are
  fanned out, and one plan follows another. The remote is a store of items by key.
*/
module NamedListRun {
  import opened Wrappers
  import Strings
  import opened Diff
  import opened Plan
  import opened FanOut
  import ConcMap

  function FromDiff(a: Action): ApplyAction {
    match a
    case Create => Created
    case Update => Updated
    case Delete => Deleted
    case Noop => Skipped
  }

  // The function handed to conc.Map, given what mutate returned.
  function WrapMutate(d: Entry, act: ApplyAction, err: Option<string>): (r: ApplyResult)
    ensures r.resource == d.resource
    ensures Applied(r) <==> err.None? && act != Pending
    ensures !r.success <==> err.Some? && act != Pending
    ensures r.error == err.GetOr("") && r.calls == (if act == Pending then 0 else 1)
    ensures act != Unset || err.None? ==> r.action == act
    ensures act == Unset && err.Some? ==>
              (r.action == Created <==> d.action == Create) && (r.action == Updated <==> d.action == Update)
              && (r.action == Deleted <==> d.action == Delete) && (r.action == Skipped <==> d.action == Noop)
  {
    match err
    case Some(e) =>
      if act == Pending then ApplyResult(d.resource, Pending, true, e, 0)
      else ApplyResult(d.resource, if act == Unset then FromDiff(d.action) else act, false, e, 1)
    case None =>
      if act == Pending then ApplyResult(d.resource, Pending, true, "", 0)
      else ApplyResult(d.resource, act, true, "", 1)
  }

  // ---------------------------------------------------------------- the loops of namedListRun

  // Fetching, planning, and the entries handed to the pool: none on a dry run.
  method PlanRun(resource: string, keyField: string, sprint: Json -> string, unread: Option<string>, current: seq<Doc>,
                 desired: seq<Doc>, dryRun: bool)
    returns (r: Result<(seq<Entry>, seq<Entry>), string>)
    ensures r.Err? <==> unread.Some?
    ensures r.Err? ==> r.error == "fetch " + resource + ": " + unread.value
    ensures r.Ok? ==> r.value.0 == NamedPlan(resource, IndexOf(current, keyField, sprint), IndexOf(desired, keyField, sprint))
    ensures r.Ok? ==> (forall d :: d in r.value.1 <==> !dryRun && d in r.value.0 && d.action != Noop)
    ensures r.Ok? && !dryRun ==> r.value.1 == Filtered(r.value.0)
  {
    if unread.Some? {
      return Err("fetch " + resource + ": " + unread.value);
    }
    var diffs := NamedList(resource, current, desired, keyField, sprint);
    if dryRun {
      return Ok((diffs, []));
    }
    FilteredMembers(diffs);
    var actionable := Actionable(diffs);
    return Ok((diffs, actionable));
  }

  lemma {:induction false} FilteredMembers(diffs: seq<Entry>)
    ensures forall d :: d in Filtered(diffs) <==> d in diffs && d.action != Noop
  {
    if diffs != [] {
      FilteredMembers(diffs[..|diffs| - 1]);
      assert diffs == diffs[..|diffs| - 1] + [diffs[|diffs| - 1]];
    }
  }

  // With nothing handed to it the pool changes nothing.
  lemma NoJobsNoChange(live: Index, workers: nat, cancelErr: string, states: seq<State<Doc>>, steps: seq<Step>)
    requires Run([], live, workers, cancelErr, states, steps)
    ensures states[|steps|].remote == live
  {
    var end := states[|steps|].remote;
    forall k ensures (k in end <==> k in live) && (k in live ==> end[k] == live[k]) {
      OthersUntouched([], live, workers, cancelErr, states, steps, k);
    }
  }

  // Names the slots of items that were never run.
  method NameDropped(actionable: seq<Entry>, results: array<ApplyResult>, errs: seq<Option<string>>)
    requires results.Length == |actionable| == |errs|
    modifies results
    ensures forall i :: 0 <= i < |errs| ==>
              results[i] == if errs[i].Some?
                            then ApplyResult(actionable[i].resource, FromDiff(actionable[i].action), false, errs[i].value, 0)
                            else old(results[i])
  {
    for i := 0 to |errs|
      invariant forall k :: 0 <= k < i ==>
                  results[k] == if errs[k].Some?
                                then ApplyResult(actionable[k].resource, FromDiff(actionable[k].action), false, errs[k].value, 0)
                                else old(results[k])
      invariant forall k :: i <= k < |errs| ==> results[k] == old(results[k])
    {
      if errs[i].None? {
        continue;
      }
      var d := actionable[i];
      results[i] := ApplyResult(d.resource, FromDiff(d.action), false, errs[i].value, 0);
    }
  }

  // ---------------------------------------------------------------- requests

  // Create or replace the item; `extra` are fields the server adds on its own, such as ids.
  ghost function Put(des: Doc, extra: Doc): Request<Doc> {
    cur => Some(extra + des)
  }

  // Set the given fields and leave the others.
  ghost function Patch(des: Doc): Request<Doc> {
    (cur: Option<Doc>) => Some(Overlay(Object(cur.GetOr(map[])), Object(des)).fields)
  }

  ghost function Remove(): Request<Doc> {
    cur => None
  }

  // The requests bring an item to where its desired document wants it.
  ghost predicate Lands(cur: Option<Doc>, des: Option<Doc>, rs: seq<Request<Doc>>) {
    var end := Effects(cur, rs);
    if des.None? then end.None?
    else end.Some? && Covers(Object(end.value), Object(des.value))
  }

  lemma OneRequest(cur: Option<Doc>, r: Request<Doc>)
    ensures Effects(cur, [r]) == r(cur)
  {
    assert [r][..0] == [];
  }

  lemma ExtraCovers(des: Doc, extra: Doc)
    ensures Covers(Object(extra + des), Object(des))
  {
    forall k | k in des ensures Covers((extra + des)[k], des[k]) {
      CoversItself(des[k]);
    }
  }

  lemma CreateLands(des: Doc, extra: Doc)
    ensures Lands(None, Some(des), [Put(des, extra)])
  {
    OneRequest(None, Put(des, extra));
    ExtraCovers(des, extra);
  }

  // An update by a partial write.
  lemma PatchLands(cur: Doc, des: Doc)
    ensures Lands(Some(cur), Some(des), [Patch(des)])
  {
    OneRequest(Some(cur), Patch(des));
    OverlayCovers(Object(cur), Object(des));
  }

  // An update by delete and create, as the autolinks lane makes it.
  lemma RecreateLands(cur: Doc, des: Doc, extra: Doc)
    ensures Lands(Some(cur), Some(des), [Remove(), Put(des, extra)])
  {
    var rs := [Remove(), Put(des, extra)];
    assert rs[..1] == [Remove()];
    OneRequest(Some(cur), Remove());
    ExtraCovers(des, extra);
  }

  lemma RemoveLands(cur: Doc)
    ensures Lands(Some(cur), None, [Remove()])
  {
    OneRequest(Some(cur), Remove());
  }

  // Whatever a create or an update leaves still carries the key it is stored under.
  lemma KeyKept(cur: Option<Doc>, des: Doc, extra: Doc, keyField: string)
    requires keyField in des && !des[keyField].Object?
    ensures keyField in Put(des, extra)(cur).value && Put(des, extra)(cur).value[keyField] == des[keyField]
    ensures keyField in Patch(des)(cur).value && Patch(des)(cur).value[keyField] == des[keyField]
  {
    var base := cur.GetOr(map[]);
    assert keyField in base ==> Overlay(base[keyField], des[keyField]) == des[keyField];
    assert keyField in Object(des).fields.Keys;
  }

  // ---------------------------------------------------------------- convergence

  // The jobs of a plan: its actionable entries in order, each with requests that land.
  ghost predicate Planned(jobs: seq<Job<Doc>>, resource: string, live: Index, des: Index) {
    && |jobs| == |Filtered(NamedPlan(resource, live, des))|
    && |jobs| == |Only(PlanOrder(live, des), ActionableKeys(live, des))|
    && forall j :: 0 <= j < |jobs| ==>
         && jobs[j].resource == Filtered(NamedPlan(resource, live, des))[j].resource
         && jobs[j].key == Only(PlanOrder(live, des), ActionableKeys(live, des))[j]
         && Lands(Get(live, jobs[j].key), Get(des, jobs[j].key), jobs[j].requests)
  }

  // The last key of a plan is kept exactly when it is actionable.
  lemma FilteredKey(resource: string, live: Index, des: Index, order: seq<string>)
    requires order != [] && (order[|order| - 1] in live || order[|order| - 1] in des)
    ensures var n, k := |order| - 1, order[|order| - 1];
            Filtered(PlanKeys(resource, live, des, order)) ==
            Filtered(PlanKeys(resource, live, des, order[..n]))
            + if k in ActionableKeys(live, des) then PlanKeys(resource, live, des, [k]) else []
  {
    var n, k := |order| - 1, order[|order| - 1];
    var plan := PlanKeys(resource, live, des, order);
    assert plan[..n] == PlanKeys(resource, live, des, order[..n]);
    assert PlanKeys(resource, live, des, [k]) == [plan[n]];
    NoopMeansCovered(resource + "." + k, Get(live, k), Get(des, k));
    NoopMeansCovered("", Get(live, k), Get(des, k));
  }

  lemma {:induction false} FilteredOver(resource: string, live: Index, des: Index, order: seq<string>)
    requires forall k :: k in order ==> k in live || k in des
    ensures Filtered(PlanKeys(resource, live, des, order)) ==
            PlanKeys(resource, live, des, Only(order, ActionableKeys(live, des)))
  {
    if order != [] {
      var n := |order| - 1;
      var front, k := order[..n], order[n];
      FilteredOver(resource, live, des, front);
      FilteredKey(resource, live, des, order);
      OnlyAppend(order, ActionableKeys(live, des), n);
      assert order[..n + 1] == order;
      PlanKeysAppend(resource, live, des, Only(front, ActionableKeys(live, des)), [k]);
      assert k in order;
    }
  }

  // The entries that are fanned out are the plans of the actionable keys.
  lemma FilteredPlan(resource: string, live: Index, des: Index)
    ensures Filtered(NamedPlan(resource, live, des)) ==
            PlanKeys(resource, live, des, Only(PlanOrder(live, des), ActionableKeys(live, des)))
  {
    PlanOrderKeys(live, des);
    FilteredOver(resource, live, des, PlanOrder(live, des));
  }

  lemma PlannedKeys(jobs: seq<Job<Doc>>, resource: string, live: Index, des: Index)
    requires Planned(jobs, resource, live, des)
    ensures DistinctKeys(jobs)
    ensures forall k :: k in ActionableKeys(live, des) <==> exists j :: 0 <= j < |jobs| && jobs[j].key == k
  {
    var keys := Only(PlanOrder(live, des), ActionableKeys(live, des));
    PlanOrderKeys(live, des);
    OnlyMembers(PlanOrder(live, des), ActionableKeys(live, des));
    forall k ensures k in ActionableKeys(live, des) <==> exists j :: 0 <= j < |jobs| && jobs[j].key == k {
      if k in ActionableKeys(live, des) {
        assert k in keys;
        var j :| 0 <= j < |keys| && keys[j] == k;
        assert jobs[j].key == k;
      }
      if j :| 0 <= j < |jobs| && jobs[j].key == k {
        assert keys[j] in keys;
      }
    }
  }

  lemma ActionableIff(cur: Index, des: Index, k: string)
    ensures k in ActionableKeys(cur, des) <==>
            (k in cur || k in des) && !(k in cur && k in des && Covers(Object(cur[k]), Object(des[k])))
  {
    NoopMeansCovered("", Get(cur, k), Get(des, k));
  }

  // The result namedListRun reports for entry j.
  function Reported(entries: seq<Entry>, slot: ConcMap.Slot<ApplyResult, string>, j: nat): ApplyResult
    requires j < |entries|
  {
    if slot.err.Some? then ApplyResult(entries[j].resource, FromDiff(entries[j].action), false, slot.err.value, 0)
    else slot.result.GetOr(ApplyResult("", Unset, false, "", 0))
  }

  // ---------------------------------------------------------------- the jobs of a lane

  // What mutate sends for an entry.
  type Mutation = Entry -> seq<Request<Doc>>

  // The lane's mutation brings every item that needs it where it is wanted.
  ghost predicate Performs(mutate: Mutation) {
    forall resource, cur, des :: PlanFor(resource, cur, des).action != Noop ==>
      Lands(cur, des, mutate(PlanFor(resource, cur, des)))
  }

  // Autolinks: there is no update endpoint, so a change is a delete and a create. `extra`
  // are the fields the server adds.
  ghost function AutolinkRequests(d: Entry, extra: Doc): seq<Request<Doc>> {
    match d.action
    case Create => [Put(d.desired.GetOr(map[]), extra)]
    case Update => [Remove(), Put(d.desired.GetOr(map[]), extra)]
    case Delete => [Remove()]
    case Noop => []
  }

  // Lanes with an update endpoint.
  ghost function PatchRequests(d: Entry, extra: Doc): seq<Request<Doc>> {
    if d.action == Update then [Patch(d.desired.GetOr(map[]))] else AutolinkRequests(d, extra)
  }

  lemma AutolinksPerform(extra: Doc)
    ensures Performs(d => AutolinkRequests(d, extra))
  {
    forall resource, cur, des | PlanFor(resource, cur, des).action != Noop
      ensures Lands(cur, des, AutolinkRequests(PlanFor(resource, cur, des), extra))
    {
      AutolinkLands(resource, cur, des, extra);
    }
  }

  lemma AutolinkLands(resource: string, cur: Option<Doc>, des: Option<Doc>, extra: Doc)
    requires PlanFor(resource, cur, des).action != Noop
    ensures Lands(cur, des, AutolinkRequests(PlanFor(resource, cur, des), extra))
  {
    match (cur, des) {
      case (None, Some(d)) => CreateLands(d, extra);
      case (Some(c), Some(d)) => RecreateLands(c, d, extra);
      case (Some(c), None) => RemoveLands(c);
      case _ =>
    }
  }

  lemma PatchesPerform(extra: Doc)
    ensures Performs(d => PatchRequests(d, extra))
  {
    forall resource, cur, des | PlanFor(resource, cur, des).action != Noop
      ensures Lands(cur, des, PatchRequests(PlanFor(resource, cur, des), extra))
    {
      if cur.Some? && des.Some? {
        PatchLands(cur.value, des.value);
      } else {
        AutolinkLands(resource, cur, des, extra);
      }
    }
  }

  // Every item is stored under the value of its key field.
  ghost predicate WellKeyed(ix: Index, keyField: string, sprint: Json -> string) {
    forall k :: k in ix ==> Carries(ix[k], k, keyField, sprint)
  }

  ghost predicate Carries(item: Doc, k: string, keyField: string, sprint: Json -> string) {
    keyField in item && sprint(item[keyField]) == k
  }

  lemma {:induction false} IndexWellKeyed(items: seq<Doc>, keyField: string, sprint: Json -> string)
    ensures WellKeyed(IndexOf(items, keyField, sprint), keyField, sprint)
  {
    if items != [] {
      IndexWellKeyed(items[..|items| - 1], keyField, sprint);
    }
  }

  // keyOf: the key field of the desired item, or of the current one.
  function KeyOf(d: Entry, keyField: string, sprint: Json -> string): string {
    var item := if d.desired.Some? then d.desired.value else d.current.GetOr(map[]);
    if keyField in item then sprint(item[keyField]) else ""
  }

  // The jobs of a lane: one for each actionable entry of the plan, in order.
  ghost function LaneJobs(resource: string, live: Index, des: Index, keyField: string, sprint: Json -> string,
                          mutate: Mutation): (jobs: seq<Job<Doc>>)
    ensures |jobs| == |Filtered(NamedPlan(resource, live, des))|
  {
    var entries := Filtered(NamedPlan(resource, live, des));
    seq(|entries|, j requires 0 <= j < |entries| =>
          Job(KeyOf(entries[j], keyField, sprint), entries[j].resource, mutate(entries[j])))
  }

  // The entry of one key.
  lemma EntryKey(resource: string, live: Index, des: Index, k: string, keyField: string, sprint: Json -> string)
    requires WellKeyed(live, keyField, sprint) && WellKeyed(des, keyField, sprint) && (k in live || k in des)
    ensures KeyOf(PlanFor(resource, Get(live, k), Get(des, k)), keyField, sprint) == k
  {
    assert k in des ==> Carries(des[k], k, keyField, sprint);
    assert k in live ==> Carries(live[k], k, keyField, sprint);
  }

  lemma LaneJobLands(resource: string, live: Index, des: Index, k: string, keyField: string, sprint: Json -> string,
                     mutate: Mutation)
    requires WellKeyed(live, keyField, sprint) && WellKeyed(des, keyField, sprint) && Performs(mutate)
    requires k in ActionableKeys(live, des)
    ensures var d := PlanFor(resource + "." + k, Get(live, k), Get(des, k));
            KeyOf(d, keyField, sprint) == k && Lands(Get(live, k), Get(des, k), mutate(d))
  {
    ActionableIff(live, des, k);
    EntryKey(resource + "." + k, live, des, k, keyField, sprint);
    NoopMeansCovered(resource + "." + k, Get(live, k), Get(des, k));
  }

  lemma LaneJobAt(resource: string, live: Index, des: Index, keyField: string, sprint: Json -> string, mutate: Mutation, j: nat)
    requires WellKeyed(live, keyField, sprint) && WellKeyed(des, keyField, sprint) && Performs(mutate)
    requires j < |Filtered(NamedPlan(resource, live, des))|
    requires |Filtered(NamedPlan(resource, live, des))| == |Only(PlanOrder(live, des), ActionableKeys(live, des))|
    ensures var job := LaneJobs(resource, live, des, keyField, sprint, mutate)[j];
            && job.resource == Filtered(NamedPlan(resource, live, des))[j].resource
            && job.key == Only(PlanOrder(live, des), ActionableKeys(live, des))[j]
            && Lands(Get(live, job.key), Get(des, job.key), job.requests)
  {
    var k := Only(PlanOrder(live, des), ActionableKeys(live, des))[j];
    FilteredPlan(resource, live, des);
    OnlyMembers(PlanOrder(live, des), ActionableKeys(live, des));
    assert k in Only(PlanOrder(live, des), ActionableKeys(live, des));
    LaneJobLands(resource, live, des, k, keyField, sprint, mutate);
  }

  lemma LaneJobsPlanned(resource: string, live: Index, des: Index, keyField: string, sprint: Json -> string, mutate: Mutation)
    requires WellKeyed(live, keyField, sprint) && WellKeyed(des, keyField, sprint) && Performs(mutate)
    ensures Planned(LaneJobs(resource, live, des, keyField, sprint, mutate), resource, live, des)
  {
    FilteredPlan(resource, live, des);
    forall j | 0 <= j < |Filtered(NamedPlan(resource, live, des))|
      ensures var job := LaneJobs(resource, live, des, keyField, sprint, mutate)[j];
              && job.resource == Filtered(NamedPlan(resource, live, des))[j].resource
              && job.key == Only(PlanOrder(live, des), ActionableKeys(live, des))[j]
              && Lands(Get(live, job.key), Get(des, job.key), job.requests)
    {
      LaneJobAt(resource, live, des, keyField, sprint, mutate, j);
    }
  }

  // ApplyResult j names entry j: on every schedule, with any cancellation.
  lemma ResultNamesEntry(jobs: seq<Job<Doc>>, resource: string, live: Index, des: Index, workers: nat, cancelErr: string,
                         states: seq<State<Doc>>, steps: seq<Step>, j: nat)
    requires Planned(jobs, resource, live, des) && j < |jobs|
    requires Finished(jobs, live, workers, cancelErr, states, steps)
    ensures var s, entries := states[|steps|], Filtered(NamedPlan(resource, live, des));
            && |s.pool.slots| == |jobs| == |entries|
            && Reported(entries, s.pool.slots[j], j).resource == entries[j].resource
            && entries[j].resource == resource + "." + jobs[j].key
  {
    PlannedKeys(jobs, resource, live, des);
    FilteredPlan(resource, live, des);
    FinishedJob(jobs, live, workers, cancelErr, states, steps, j);
  }

  ghost predicate JobApplied(s: State<Doc>, j: nat) {
    j < |s.pool.slots| && s.pool.slots[j].result.Some? && Applied(s.pool.slots[j].result.value)
  }

  ghost predicate Called(s: State<Doc>, j: nat) {
    j < |s.pool.calls| && s.pool.calls[j] > 0
  }

  // After any finished run, whatever failed calls left behind, the next plan acts on no
  // other keys than those of jobs that did not apply.
  lemma NextPlanWithin(jobs: seq<Job<Doc>>, resource: string, live: Index, des: Index, workers: nat, cancelErr: string,
                       states: seq<State<Doc>>, steps: seq<Step>)
    requires Planned(jobs, resource, live, des)
    requires Finished(jobs, live, workers, cancelErr, states, steps)
    ensures ActionableKeys(states[|steps|].remote, des) <=
            set j | 0 <= j < |jobs| && !JobApplied(states[|steps|], j) :: jobs[j].key
  {
    var s := states[|steps|];
    forall k | k in ActionableKeys(s.remote, des)
      ensures exists j :: 0 <= j < |jobs| && !JobApplied(s, j) && jobs[j].key == k
    {
      AppliedKeyIsDone(jobs, resource, live, des, workers, cancelErr, states, steps, k);
    }
  }

  lemma AppliedKeyIsDone(jobs: seq<Job<Doc>>, resource: string, live: Index, des: Index, workers: nat, cancelErr: string,
                         states: seq<State<Doc>>, steps: seq<Step>, k: string)
    requires Planned(jobs, resource, live, des)
    requires Finished(jobs, live, workers, cancelErr, states, steps)
    requires k in ActionableKeys(states[|steps|].remote, des)
    ensures exists j :: 0 <= j < |jobs| && !JobApplied(states[|steps|], j) && jobs[j].key == k
  {
    PlannedKeys(jobs, resource, live, des);
    var s := states[|steps|];
    ActionableIff(s.remote, des, k);
    ActionableIff(live, des, k);
    if j :| 0 <= j < |jobs| && jobs[j].key == k {
      FinishedJob(jobs, live, workers, cancelErr, states, steps, j);
      assert Lands(Get(live, k), Get(des, k), jobs[j].requests);
    } else {
      OthersUntouched(jobs, live, workers, cancelErr, states, steps, k);
    }
  }

  // If jobs that were called and did not apply left their key as it was, the keys the next
  // plan acts on are exactly those of the jobs that did not apply, the never called included.
  lemma NextPlan(jobs: seq<Job<Doc>>, resource: string, live: Index, des: Index, workers: nat, cancelErr: string,
                 states: seq<State<Doc>>, steps: seq<Step>)
    requires Planned(jobs, resource, live, des)
    requires Finished(jobs, live, workers, cancelErr, states, steps)
    requires forall j :: 0 <= j < |jobs| && Called(states[|steps|], j) && !JobApplied(states[|steps|], j) ==>
               Get(states[|steps|].remote, jobs[j].key) == Get(live, jobs[j].key)
    ensures ActionableKeys(states[|steps|].remote, des) ==
            set j | 0 <= j < |jobs| && !JobApplied(states[|steps|], j) :: jobs[j].key
  {
    var s := states[|steps|];
    var left := set j | 0 <= j < |jobs| && !JobApplied(s, j) :: jobs[j].key;
    forall k ensures k in ActionableKeys(s.remote, des) <==> k in left {
      KeyAfterRun(jobs, resource, live, des, workers, cancelErr, states, steps, k);
    }
  }

  lemma KeyAfterRun(jobs: seq<Job<Doc>>, resource: string, live: Index, des: Index, workers: nat, cancelErr: string,
                    states: seq<State<Doc>>, steps: seq<Step>, k: string)
    requires Planned(jobs, resource, live, des)
    requires Finished(jobs, live, workers, cancelErr, states, steps)
    requires forall j :: 0 <= j < |jobs| && Called(states[|steps|], j) && !JobApplied(states[|steps|], j) ==>
               Get(states[|steps|].remote, jobs[j].key) == Get(live, jobs[j].key)
    ensures k in ActionableKeys(states[|steps|].remote, des) <==>
            exists j :: 0 <= j < |jobs| && !JobApplied(states[|steps|], j) && jobs[j].key == k
  {
    PlannedKeys(jobs, resource, live, des);
    var s := states[|steps|];
    ActionableIff(s.remote, des, k);
    ActionableIff(live, des, k);
    if j :| 0 <= j < |jobs| && jobs[j].key == k {
      FinishedJob(jobs, live, workers, cancelErr, states, steps, j);
      assert Lands(Get(live, k), Get(des, k), jobs[j].requests);
      assert JobApplied(s, j) || Get(s.remote, k) == Get(live, k);
      assert forall i :: 0 <= i < |jobs| && jobs[i].key == k ==> i == j;
    } else {
      OthersUntouched(jobs, live, workers, cancelErr, states, steps, k);
    }
  }

  // Convergence: a run in which every job applied makes the next plan a no-op.
  lemma Converges(jobs: seq<Job<Doc>>, resource: string, live: Index, des: Index, workers: nat, cancelErr: string,
                  states: seq<State<Doc>>, steps: seq<Step>)
    requires Planned(jobs, resource, live, des)
    requires Finished(jobs, live, workers, cancelErr, states, steps) && AllApplied(jobs, states[|steps|])
    ensures AllNoop(NamedPlan(resource, states[|steps|].remote, des))
  {
    NextPlan(jobs, resource, live, des, workers, cancelErr, states, steps);
    var remote := states[|steps|].remote;
    forall i | 0 <= i < |NamedPlan(resource, remote, des)| ensures NamedPlan(resource, remote, des)[i].action == Noop {
      ActionableEntries(resource, remote, des, i);
    }
  }

  // ---------------------------------------------------------------- reading the store back

  // A listing of the store: every stored item once, carrying the key it is stored under.
  ghost predicate Lists(items: seq<Doc>, store: Index, keyField: string, sprint: Json -> string) {
    && (forall i :: 0 <= i < |items| ==>
          && keyField in items[i] && sprint(items[i][keyField]) in store
          && store[sprint(items[i][keyField])] == items[i])
    && (forall i, j :: 0 <= i < j < |items| ==> items[i] != items[j])
    && (forall k :: k in store ==> exists i :: 0 <= i < |items| && store[k] == items[i] && Carries(items[i], k, keyField, sprint))
  }

  lemma {:induction false} IndexOfPrefix(items: seq<Doc>, store: Index, keyField: string, sprint: Json -> string)
    requires forall i :: 0 <= i < |items| ==>
               && keyField in items[i] && sprint(items[i][keyField]) in store
               && store[sprint(items[i][keyField])] == items[i]
    ensures forall k :: k in IndexOf(items, keyField, sprint) ==>
              k in store && IndexOf(items, keyField, sprint)[k] == store[k]
    ensures forall i :: 0 <= i < |items| ==> sprint(items[i][keyField]) in IndexOf(items, keyField, sprint)
  {
    if items != [] {
      IndexOfPrefix(items[..|items| - 1], store, keyField, sprint);
    }
  }

  // Indexing a listing gives the store back, whatever order it is listed in.
  lemma IndexOfListing(items: seq<Doc>, store: Index, keyField: string, sprint: Json -> string)
    requires Lists(items, store, keyField, sprint)
    ensures IndexOf(items, keyField, sprint) == store
  {
    IndexOfPrefix(items, store, keyField, sprint);
  }

  // A request leaves an item under its own key, if it leaves one.
  ghost predicate KeepsKey(r: Request<Doc>, k: string, keyField: string, sprint: Json -> string) {
    forall cur: Option<Doc> :: (cur.Some? ==> Carries(cur.value, k, keyField, sprint)) ==>
      (r(cur).Some? ==> Carries(r(cur).value, k, keyField, sprint))
  }

  ghost predicate AllKeepKey(rs: seq<Request<Doc>>, k: string, keyField: string, sprint: Json -> string) {
    forall i :: 0 <= i < |rs| ==> KeepsKey(rs[i], k, keyField, sprint)
  }

  // The item that an entry asks for carries the entry's key, which is no object.
  ghost predicate AsksForKey(d: Entry, k: string, keyField: string, sprint: Json -> string) {
    d.desired.Some? ==> Carries(d.desired.value, k, keyField, sprint) && !d.desired.value[keyField].Object?
  }

  ghost predicate KeepsKeys(mutate: Mutation, keyField: string, sprint: Json -> string) {
    forall d: Entry, k :: d.action != Noop && (d.action == Delete || d.desired.Some?) && AsksForKey(d, k, keyField, sprint) ==>
      AllKeepKey(mutate(d), k, keyField, sprint)
  }

  lemma RequestsKeepKey(des: Doc, extra: Doc, k: string, keyField: string, sprint: Json -> string)
    requires Carries(des, k, keyField, sprint) && !des[keyField].Object?
    ensures KeepsKey(Put(des, extra), k, keyField, sprint) && KeepsKey(Patch(des), k, keyField, sprint)
  {
    forall cur: Option<Doc> ensures Carries(Put(des, extra)(cur).value, k, keyField, sprint)
      ensures Carries(Patch(des)(cur).value, k, keyField, sprint)
    {
      KeyKept(cur, des, extra, keyField);
    }
  }

  lemma MutationsKeepKeys(extra: Doc, keyField: string, sprint: Json -> string)
    ensures KeepsKeys(d => AutolinkRequests(d, extra), keyField, sprint)
    ensures KeepsKeys(d => PatchRequests(d, extra), keyField, sprint)
  {
    forall d: Entry, k | d.action != Noop && (d.action == Delete || d.desired.Some?) && AsksForKey(d, k, keyField, sprint)
      ensures AllKeepKey(AutolinkRequests(d, extra), k, keyField, sprint)
      ensures AllKeepKey(PatchRequests(d, extra), k, keyField, sprint)
    {
      assert KeepsKey(Remove(), k, keyField, sprint);
      if d.desired.Some? {
        RequestsKeepKey(d.desired.value, extra, k, keyField, sprint);
      }
    }
  }

  lemma {:induction false} EffectsKeepKey(cur: Option<Doc>, rs: seq<Request<Doc>>, k: string, keyField: string,
                                          sprint: Json -> string)
    requires cur.Some? ==> Carries(cur.value, k, keyField, sprint)
    requires AllKeepKey(rs, k, keyField, sprint)
    ensures Effects(cur, rs).Some? ==> Carries(Effects(cur, rs).value, k, keyField, sprint)
  {
    if rs != [] {
      var n := |rs| - 1;
      EffectsKeepKey(cur, rs[..n], k, keyField, sprint);
      assert KeepsKey(rs[n], k, keyField, sprint);
    }
  }

  // In every state of every run each item is stored under its own key.
  lemma StoreStaysWellKeyed(jobs: seq<Job<Doc>>, live: Index, workers: nat, cancelErr: string, states: seq<State<Doc>>,
                            steps: seq<Step>, n: nat, keyField: string, sprint: Json -> string)
    requires DistinctKeys(jobs) && Run(jobs, live, workers, cancelErr, states, steps) && n < |states|
    requires WellKeyed(live, keyField, sprint)
    requires forall j :: 0 <= j < |jobs| ==> AllKeepKey(jobs[j].requests, jobs[j].key, keyField, sprint)
    ensures WellKeyed(states[n].remote, keyField, sprint)
  {
    RunInv(jobs, live, workers, cancelErr, states, steps, n);
    var s := states[n];
    forall k | k in s.remote ensures Carries(s.remote[k], k, keyField, sprint) {
      if j :| 0 <= j < |jobs| && jobs[j].key == k {
        assert JobOk(jobs, live, s, j);
        assert k in live ==> Carries(live[k], k, keyField, sprint);
        EffectsKeepKey(Get(live, k), jobs[j].requests[..s.progress[j]], k, keyField, sprint);
      } else {
        assert Get(s.remote, k) == Get(live, k);
        assert Carries(live[k], k, keyField, sprint);
      }
    }
  }

  ghost predicate ScalarKeys(ix: Index, keyField: string) {
    forall k :: k in ix ==> keyField in ix[k] && !ix[k][keyField].Object?
  }

  lemma LaneJobsKeepKeys(resource: string, live: Index, des: Index, keyField: string, sprint: Json -> string, mutate: Mutation)
    requires WellKeyed(live, keyField, sprint) && WellKeyed(des, keyField, sprint) && ScalarKeys(des, keyField)
    requires Performs(mutate) && KeepsKeys(mutate, keyField, sprint)
    ensures var jobs := LaneJobs(resource, live, des, keyField, sprint, mutate);
            forall j :: 0 <= j < |jobs| ==> AllKeepKey(jobs[j].requests, jobs[j].key, keyField, sprint)
  {
    LaneJobsPlanned(resource, live, des, keyField, sprint, mutate);
    FilteredPlan(resource, live, des);
    var keys := Only(PlanOrder(live, des), ActionableKeys(live, des));
    OnlyMembers(PlanOrder(live, des), ActionableKeys(live, des));
    var jobs := LaneJobs(resource, live, des, keyField, sprint, mutate);
    forall j | 0 <= j < |jobs| ensures AllKeepKey(jobs[j].requests, jobs[j].key, keyField, sprint) {
      var k := keys[j];
      assert k in keys;
      ActionableIff(live, des, k);
      var d := PlanFor(resource + "." + k, Get(live, k), Get(des, k));
      NoopMeansCovered(resource + "." + k, Get(live, k), Get(des, k));
      assert k in des ==> Carries(des[k], k, keyField, sprint);
      assert AsksForKey(d, k, keyField, sprint);
      assert jobs[j].requests == mutate(d) && jobs[j].key == k;
    }
  }

  // The items of a store in the order of their keys.
  ghost function Listed(store: Index, keys: seq<string>): seq<Doc>
    requires forall i :: 0 <= i < |keys| ==> keys[i] in store
  {
    seq(|keys|, i requires 0 <= i < |keys| => store[keys[i]])
  }

  // A well-keyed store can be listed.
  lemma SomeListing(store: Index, keyField: string, sprint: Json -> string) returns (items: seq<Doc>)
    requires WellKeyed(store, keyField, sprint)
    ensures Lists(items, store, keyField, sprint)
  {
    var keys := Strings.Listing(store.Keys);
    forall i | 0 <= i < |keys| ensures keys[i] in store && Carries(store[keys[i]], keys[i], keyField, sprint) {
      assert keys[i] in Strings.Elements(keys);
    }
    items := Listed(store, keys);
    forall k | k in store
      ensures exists i :: 0 <= i < |items| && store[k] == items[i] && Carries(items[i], k, keyField, sprint)
    {
      assert k in Strings.Elements(keys);
      var i :| 0 <= i < |keys| && keys[i] == k;
      assert items[i] == store[k];
    }
  }

  // Run once, then look again: after a run of the lane's own jobs in which every job
  // applied, on any schedule, the remote can be listed, and whatever way it is listed, the
  // plan of NamedList over that listing is all no-ops.
  lemma LaneConverges(resource: string, current: seq<Doc>, desired: seq<Doc>, keyField: string, sprint: Json -> string,
                      mutate: Mutation, workers: nat, cancelErr: string, states: seq<State<Doc>>, steps: seq<Step>)
    returns (listing: seq<Doc>)
    requires ScalarKeys(IndexOf(desired, keyField, sprint), keyField)
    requires Performs(mutate) && KeepsKeys(mutate, keyField, sprint)
    requires var live, des := IndexOf(current, keyField, sprint), IndexOf(desired, keyField, sprint);
             var jobs := LaneJobs(resource, live, des, keyField, sprint, mutate);
             Finished(jobs, live, workers, cancelErr, states, steps) && AllApplied(jobs, states[|steps|])
    ensures Lists(listing, states[|steps|].remote, keyField, sprint)
    ensures forall next :: Lists(next, states[|steps|].remote, keyField, sprint) ==>
              AllNoop(NamedPlan(resource, IndexOf(next, keyField, sprint), IndexOf(desired, keyField, sprint)))
  {
    var live, des := IndexOf(current, keyField, sprint), IndexOf(desired, keyField, sprint);
    var jobs := LaneJobs(resource, live, des, keyField, sprint, mutate);
    IndexWellKeyed(current, keyField, sprint);
    IndexWellKeyed(desired, keyField, sprint);
    LaneJobsPlanned(resource, live, des, keyField, sprint, mutate);
    LaneJobsKeepKeys(resource, live, des, keyField, sprint, mutate);
    PlannedKeys(jobs, resource, live, des);
    StoreStaysWellKeyed(jobs, live, workers, cancelErr, states, steps, |steps|, keyField, sprint);
    Converges(jobs, resource, live, des, workers, cancelErr, states, steps);
    listing := SomeListing(states[|steps|].remote, keyField, sprint);
    forall next | Lists(next, states[|steps|].remote, keyField, sprint)
      ensures AllNoop(NamedPlan(resource, IndexOf(next, keyField, sprint), des))
    {
      IndexOfListing(next, states[|steps|].remote, keyField, sprint);
    }
  }
}
