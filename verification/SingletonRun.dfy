/**
  The run of a lane over one document (internal/applier/helpers.go:72-104), and one such run
  after another. The remote holds the document; a mutation says what it reports and what it
  leaves there.
*/
module SingletonRun {
  import opened Wrappers
  import opened Diff
  import opened Plan
  import opened FanOut
  import NamedListRun

  // What mutate reports; an error goes with the action it names, or with none.
  datatype Mutated = Mutated(act: ApplyAction, err: Option<string>)

  type Mutation = (Entry, Option<Doc>) -> (Mutated, Option<Doc>)

  datatype LaneRun = LaneRun(diffs: seq<Entry>, results: seq<ApplyResult>)

  function ResultOf(d: Entry, m: Mutated): ApplyResult {
    match m.err
    case Some(e) => ApplyResult(d.resource, if m.act == Unset then NamedListRun.FromDiff(d.action) else m.act, false, e, 1)
    case None => ApplyResult(d.resource, m.act, true, "", 1)
  }

  // What a run returns and what it leaves at the remote. `unread` is the error of the
  // fetch, if it fails.
  ghost function RunOf(resource: string, unread: Option<string>, store: Option<Doc>, desired: Option<Doc>,
                       mutate: Mutation, dryRun: bool): (Result<LaneRun, string>, Option<Doc>) {
    var d := PlanFor(resource, store, desired);
    if desired.None? then (Ok(LaneRun([], [])), store)
    else if unread.Some? then (Err("fetch " + resource + ": " + unread.value), store)
    else if d.action == Noop || dryRun then (Ok(LaneRun([d], [])), store)
    else (Ok(LaneRun([d], [ResultOf(d, mutate(d, store).0)])), mutate(d, store).1)
  }

  method SingleResourceRun(resource: string, unread: Option<string>, store: Option<Doc>, desired: Option<Doc>,
                           mutate: Mutation, dryRun: bool)
    returns (r: Result<LaneRun, string>, after: Option<Doc>)
    ensures (r, after) == RunOf(resource, unread, store, desired, mutate, dryRun)
  {
    after := store;
    if desired.None? {
      return Ok(LaneRun([], [])), after;
    }
    if unread.Some? {
      return Err("fetch " + resource + ": " + unread.value), after;
    }
    var d := SingleResource(resource, store, desired);
    if d.action == Noop {
      return Ok(LaneRun([d], [])), after;
    }
    if dryRun {
      return Ok(LaneRun([d], [])), after;
    }
    var (m, written) := mutate(d, store);
    after := written;
    if m.err.Some? {
      var act := m.act;
      if act == Unset {
        act := NamedListRun.FromDiff(d.action);
      }
      return Ok(LaneRun([d], [ApplyResult(d.resource, act, false, m.err.value, 1)])), after;
    }
    return Ok(LaneRun([d], [ApplyResult(d.resource, m.act, true, "", 1)])), after;
  }

  // A dry run leaves the remote alone, whatever the mutation would do, and reports no
  // results; it shows the plan that the run would act on.
  lemma DryRunWritesNothing(resource: string, unread: Option<string>, store: Option<Doc>, desired: Option<Doc>, mutate: Mutation)
    ensures var (dry, after) := RunOf(resource, unread, store, desired, mutate, true);
            var (full, _) := RunOf(resource, unread, store, desired, mutate, false);
            && after == store && (dry.Ok? <==> full.Ok?)
            && (dry.Err? ==> dry.error == full.error)
            && (dry.Ok? ==> dry.value.results == [] && dry.value.diffs == full.value.diffs)
  {}

  // Nothing is sent without a desired document, nor without the live one, and a failed fetch
  // is an error exactly when it was needed.
  lemma UnreadWritesNothing(resource: string, unread: Option<string>, store: Option<Doc>, desired: Option<Doc>,
                            mutate: Mutation, dryRun: bool)
    ensures var (r, after) := RunOf(resource, unread, store, desired, mutate, dryRun);
            && (r.Err? <==> desired.Some? && unread.Some?)
            && (r.Err? ==> after == store && r.error == "fetch " + resource + ": " + unread.value)
            && (desired.None? ==> after == store && r.value.diffs == [] && r.value.results == [])
            && (r.Ok? && desired.Some? ==> r.value.diffs == [PlanFor(resource, store, desired)])
  {}

  // A real run sends its one mutation exactly when its plan is not a no-op, and its one
  // result says what the mutation said: a success exactly when that reported no error, and
  // the plan's own action when a failure names none.
  lemma RunReports(resource: string, store: Option<Doc>, des: Doc, mutate: Mutation)
    ensures var (r, after) := RunOf(resource, None, store, Some(des), mutate, false);
            var d := PlanFor(resource, store, Some(des));
            var said := mutate(d, store).0;
            && r.Ok? && (d.action == Noop ==> after == store && r.value.results == [])
            && (d.action != Noop ==>
                  && after == mutate(d, store).1 && |r.value.results| == 1
                  && (var result := r.value.results[0];
                      && result.resource == resource && result.calls == 1
                      && (result.success <==> said.err.None?) && result.error == said.err.GetOr("")
                      && (said.act != Unset || said.err.None? ==> result.action == said.act)
                      && (said.act == Unset && said.err.Some? ==> result.action == if store.None? then Created else Updated)))
  {}

  // A mutation that succeeds: it patches a document that is there and puts one that is not,
  // to which the server adds `extra`.
  ghost function Writes(des: Doc, extra: Doc): Mutation {
    (d: Entry, cur: Option<Doc>) =>
      (Mutated(NamedListRun.FromDiff(d.action), None),
       if cur.Some? then NamedListRun.Patch(des)(cur) else NamedListRun.Put(des, extra)(cur))
  }

  lemma WrittenIsCovered(des: Doc, extra: Doc, cur: Option<Doc>)
    ensures var end := if cur.Some? then NamedListRun.Patch(des)(cur) else NamedListRun.Put(des, extra)(cur);
            end.Some? && Covers(Object(end.value), Object(des))
  {
    if cur.Some? {
      OverlayCovers(Object(cur.value), Object(des));
    } else {
      NamedListRun.ExtraCovers(des, extra);
    }
  }

  // Run once, then run again: from any live document, present or absent, the second run
  // plans one no-op, sends nothing whatever its mutation would do, and leaves the remote
  // alone. The first one sent something exactly when its plan was not a no-op.
  lemma SecondRunIsIdle(resource: string, store: Option<Doc>, des: Doc, extra: Doc, again: Mutation, dryRun: bool)
    ensures var (first, after) := RunOf(resource, None, store, Some(des), Writes(des, extra), false);
            var (second, end) := RunOf(resource, None, after, Some(des), again, dryRun);
            && first.Ok? && first.value.diffs == [PlanFor(resource, store, Some(des))]
            && (first.value.results == [] <==> first.value.diffs[0].action == Noop)
            && (forall i :: 0 <= i < |first.value.results| ==> first.value.results[i].success)
            && second.Ok? && |second.value.diffs| == 1 && second.value.diffs[0].action == Noop
            && second.value.results == [] && end == after
            && (first.value.results == [] ==> after == store)
  {
    NoopMeansCovered(resource, store, Some(des));
    WrittenIsCovered(des, extra, store);
    var after := RunOf(resource, None, store, Some(des), Writes(des, extra), false).1;
    NoopMeansCovered(resource, after, Some(des));
  }

  // A failed write is reported as one failure, whatever it left behind, and the next run
  // writes again exactly when the document it finds still misses something desired.
  lemma FailedRunIsRetried(resource: string, store: Option<Doc>, des: Doc, mutate: Mutation, again: Mutation)
    requires var d := PlanFor(resource, store, Some(des)); d.action != Noop && mutate(d, store).0.err.Some?
    ensures var (first, after) := RunOf(resource, None, store, Some(des), mutate, false);
            var (second, end) := RunOf(resource, None, after, Some(des), again, false);
            && first.Ok? && |first.value.results| == 1 && !first.value.results[0].success
            && first.value.results[0].resource == resource
            && second.Ok? && |second.value.results| <= 1
            && (second.value.results == [] <==> after.Some? && Covers(Object(after.value), Object(des)))
            && (second.value.results == [] ==> end == after)
  {
    var after := RunOf(resource, None, store, Some(des), mutate, false).1;
    NoopMeansCovered(resource, after, Some(des));
  }

  // A run that patches leaves every location the report does not touch as it was.
  lemma PatchKeepsTheRest(resource: string, live: Doc, des: Doc, extra: Doc, q: seq<string>)
    requires forall c :: c in Changes(live, des) ==> !(c.keys <= q) && !(q <= c.keys)
    ensures var after := RunOf(resource, None, Some(live), Some(des), Writes(des, extra), false).1;
            after.Some? && At(Object(after.value), q) == At(Object(live), q)
  {
    ElsewhereUntouched(Object(live), Object(des), q);
    var cur: Option<Doc> := Some(live);
    assert cur.GetOr(map[]) == live;
    var patched := NamedListRun.Patch(des)(cur);
    assert patched == Some(Overlay(Object(live), Object(des)).fields);
    assert Object(patched.value) == Overlay(Object(live), Object(des));
    var after := RunOf(resource, None, cur, Some(des), Writes(des, extra), false).1;
    assert after == cur || after == patched;
  }
}
