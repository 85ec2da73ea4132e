/**
  One reconcile (internal/reconciler/reconciler.go): the policy gate, Phase A, the parallel
  lanes of Phase B, and the report they add up to. What a lane's own code does is a
  parameter: it reports diffs and results, fails, or panics in its goroutine.
*/
module Reconciler {
  import opened Wrappers
  import opened Strings
  import opened Plan
  import FanOut

  type ApplyResult = FanOut.ApplyResult

  const SPEC_KEYS: seq<string> := [
    "teams", "rulesets", "environments", "webhooks", "autolinks", "actions", "security", "pages",
    "secrets", "variables", "deploy_keys", "custom_properties", "collaborators", "branches"]

  datatype Violation = Violation(field: string, message: string, orgPolicy: string, isError: bool)

  // `configured` are the Phase B lanes that have something to do; `phaseA` says that
  // repository settings or topics are configured.
  datatype RunInput = RunInput(owner: string, name: string, violations: seq<Violation>, phaseA: bool,
                               configured: set<string>, disabled: set<string>)

  datatype LaneOutcome =
    | Reported(diffs: seq<Entry>, results: seq<ApplyResult>)
    | Erred(diffs: seq<Entry>, error: string)
    | Panicked(message: string)

  // What goes into the report.
  datatype Output = Output(diffs: seq<Entry>, applied: seq<ApplyResult>)

  datatype Report = Report(out: Output, violations: seq<Violation>, blocked: bool)

  const NOTHING := Output([], [])

  function Plus(a: Output, b: Output): Output {
    Output(a.diffs + b.diffs, a.applied + b.applied)
  }

  lemma PlusAssociative(a: Output, b: Output, c: Output)
    ensures Plus(Plus(a, b), c) == Plus(a, Plus(b, c))
  {}

  // ---------------------------------------------------------------- the parts of a report

  function FailedResult(resource: string, error: string): ApplyResult {
    FanOut.ApplyResult(resource, FanOut.Updated, false, error, 0)
  }

  function SkippedResult(key: string): ApplyResult {
    FanOut.ApplyResult(key, FanOut.Skipped, true, "disabled by operator policy", 0)
  }

  function RefusedResult(v: Violation): ApplyResult {
    FanOut.ApplyResult(v.field, FanOut.Skipped, false, v.message + " (org policy: " + v.orgPolicy + ")", 0)
  }

  // runLane
  function LaneOutput(resource: string, o: LaneOutcome): Output {
    match o
    case Reported(ds, rs) => Output(ds, rs)
    case Erred(ds, e) => Output(ds, [FailedResult(resource, e)])
    case Panicked(m) => Output([], [FailedResult(resource, "panic: " + m)])
  }

  // Resolution.Blocking
  function Blocking(vs: seq<Violation>): seq<Violation> {
    if vs == [] then [] else (if vs[0].isError then [vs[0]] else []) + Blocking(vs[1..])
  }

  predicate Refused(input: RunInput) {
    Blocking(input.violations) != []
  }

  function Refusals(vs: seq<Violation>): seq<ApplyResult> {
    seq(|vs|, i requires 0 <= i < |vs| => RefusedResult(vs[i]))
  }

  predicate RunsPhaseA(input: RunInput) {
    input.phaseA && "repository" !in input.disabled
  }

  // The Phase B lanes that run, in the order of the specs, and those that are skipped.
  function Lanes(input: RunInput): seq<string> {
    Only(SPEC_KEYS, input.configured - input.disabled)
  }

  function SkippedKeys(input: RunInput): seq<string> {
    Only(SPEC_KEYS, input.configured * input.disabled)
  }

  function Skips(keys: seq<string>): seq<ApplyResult> {
    seq(|keys|, i requires 0 <= i < |keys| => SkippedResult(keys[i]))
  }

  function PhaseAOutput(input: RunInput, a: Option<LaneOutcome>): Output
    requires RunsPhaseA(input) ==> a.Some?
  {
    if RunsPhaseA(input) then LaneOutput("repository", a.value)
    else if input.phaseA then Output([], [SkippedResult("repository")])
    else NOTHING
  }

  function LaneOutputs(lanes: seq<string>, bs: seq<LaneOutcome>): Output
    requires |lanes| == |bs|
  {
    if bs == [] then NOTHING else Plus(LaneOutput(lanes[0], bs[0]), LaneOutputs(lanes[1..], bs[1..]))
  }

  // The report of a run whose lanes ended with these outcomes.
  function ReportOf(input: RunInput, a: Option<LaneOutcome>, bs: seq<LaneOutcome>): Report
    requires RunsPhaseA(input) ==> a.Some?
    requires |bs| == |Lanes(input)|
  {
    if Refused(input) then Report(Output([], Refusals(Blocking(input.violations))), input.violations, true)
    else
      Report(Plus(PhaseAOutput(input, a), Plus(Output([], Skips(SkippedKeys(input))), LaneOutputs(Lanes(input), bs))),
             input.violations, false)
  }

  // ---------------------------------------------------------------- the code

  function Outcomes(lanes: seq<string>, outcomes: string -> LaneOutcome): seq<LaneOutcome> {
    seq(|lanes|, i requires 0 <= i < |lanes| => outcomes(lanes[i]))
  }

  function Indices(n: nat): seq<nat> {
    seq(n, i => i)
  }

  // `outcomes` is what each lane would end with; `finish` is the order in which the lane
  // goroutines write their slots.
  method Reconcile(input: RunInput, a: LaneOutcome, outcomes: string -> LaneOutcome, finish: seq<nat>) returns (rep: Report)
    requires multiset(finish) == multiset(Indices(|Lanes(input)|))
    ensures rep == ReportOf(input, Some(a), Outcomes(Lanes(input), outcomes))
    ensures rep.blocked <==> HasError(input.violations)
  {
    RefusedMeans(input);
    var diffs: seq<Entry>, applied: seq<ApplyResult> := [], [];
    var blocking := BlockingOf(input.violations);
    if |blocking| > 0 {
      applied := Refuse(blocking);
      return Report(Output(diffs, applied), input.violations, true);
    }
    if input.phaseA {
      if "repository" in input.disabled {
        applied := applied + [SkippedResult("repository")];
      } else {
        var out := LaneOutput("repository", a);
        diffs, applied := diffs + out.diffs, applied + out.applied;
      }
    }
    ghost var phaseA := Output(diffs, applied);
    assert phaseA == PhaseAOutput(input, Some(a));
    var lanes, skipped := SelectLanes(input);
    applied := applied + skipped;
    var results := RunLanes(lanes, outcomes, finish);
    var gathered := Gather(lanes, results, Outcomes(lanes, outcomes));
    PlusAssociative(phaseA, Output([], skipped), gathered);
    diffs, applied := diffs + gathered.diffs, applied + gathered.applied;
    rep := Report(Output(diffs, applied), input.violations, false);
  }

  method Refuse(blocking: seq<Violation>) returns (applied: seq<ApplyResult>)
    ensures applied == Refusals(blocking)
  {
    applied := [];
    for i := 0 to |blocking|
      invariant applied == Refusals(blocking[..i])
    {
      applied := applied + [RefusedResult(blocking[i])];
      assert Refusals(blocking[..i + 1]) == Refusals(blocking[..i]) + [RefusedResult(blocking[i])];
    }
    assert blocking[..|blocking|] == blocking;
  }

  // The loop over the slots, in the order of the lanes.
  method Gather(lanes: seq<string>, results: seq<Output>, ghost bs: seq<LaneOutcome>) returns (out: Output)
    requires |lanes| == |results| == |bs|
    requires forall i :: 0 <= i < |lanes| ==> results[i] == LaneOutput(lanes[i], bs[i])
    ensures out == LaneOutputs(lanes, bs)
  {
    out := NOTHING;
    for i := 0 to |results|
      invariant out == LaneOutputs(lanes[..i], bs[..i])
    {
      LaneOutputsAppend(lanes, bs, i);
      out := Output(out.diffs + results[i].diffs, out.applied + results[i].applied);
    }
    assert lanes[..|lanes|] == lanes && bs[..|bs|] == bs;
  }

  method BlockingOf(vs: seq<Violation>) returns (out: seq<Violation>)
    ensures out == Blocking(vs)
  {
    out := [];
    for i := 0 to |vs|
      invariant out + Blocking(vs[i..]) == Blocking(vs)
    {
      if vs[i].isError {
        out := out + [vs[i]];
      }
    }
  }

  // The filter over the lane specs.
  method SelectLanes(input: RunInput) returns (lanes: seq<string>, skipped: seq<ApplyResult>)
    ensures lanes == Lanes(input) && skipped == Skips(SkippedKeys(input))
  {
    lanes, skipped := [], [];
    for i := 0 to |SPEC_KEYS|
      invariant lanes == Only(SPEC_KEYS[..i], input.configured - input.disabled)
      invariant skipped == Skips(Only(SPEC_KEYS[..i], input.configured * input.disabled))
    {
      var key := SPEC_KEYS[i];
      OnlyAppend(SPEC_KEYS, input.configured - input.disabled, i);
      OnlyAppend(SPEC_KEYS, input.configured * input.disabled, i);
      if key !in input.configured {
        continue;
      }
      if key in input.disabled {
        skipped := skipped + [SkippedResult(key)];
        continue;
      }
      lanes := lanes + [key];
    }
    assert SPEC_KEYS[..|SPEC_KEYS|] == SPEC_KEYS;
  }

  // The goroutines: each writes its own slot.
  method RunLanes(lanes: seq<string>, outcomes: string -> LaneOutcome, finish: seq<nat>) returns (results: seq<Output>)
    requires multiset(finish) == multiset(Indices(|lanes|))
    ensures |results| == |lanes|
    ensures forall i :: 0 <= i < |lanes| ==> results[i] == LaneOutput(lanes[i], outcomes(lanes[i]))
  {
    results := seq(|lanes|, i => NOTHING);
    for n := 0 to |finish|
      invariant |results| == |lanes|
      invariant forall m :: 0 <= m < n ==> finish[m] < |lanes|
      invariant forall m :: 0 <= m < n ==> results[finish[m]] == LaneOutput(lanes[finish[m]], outcomes(lanes[finish[m]]))
    {
      var i := finish[n];
      assert i in multiset(finish);
      assert i in Indices(|lanes|);
      results := results[i := LaneOutput(lanes[i], outcomes(lanes[i]))];
    }
    forall i | 0 <= i < |lanes| ensures results[i] == LaneOutput(lanes[i], outcomes(lanes[i])) {
      assert Indices(|lanes|)[i] in multiset(Indices(|lanes|));
      assert i in finish;
      var m :| 0 <= m < |finish| && finish[m] == i;
    }
  }

  lemma {:induction false} LaneOutputsAppend(lanes: seq<string>, bs: seq<LaneOutcome>, i: nat)
    requires |lanes| == |bs| && i < |bs|
    ensures LaneOutputs(lanes[..i + 1], bs[..i + 1]) == Plus(LaneOutputs(lanes[..i], bs[..i]), LaneOutput(lanes[i], bs[i]))
  {
    LaneOutputsConcat(lanes[..i], bs[..i], [lanes[i]], [bs[i]]);
    assert lanes[..i + 1] == lanes[..i] + [lanes[i]] && bs[..i + 1] == bs[..i] + [bs[i]];
    assert LaneOutputs([lanes[i]][1..], [bs[i]][1..]) == NOTHING;
  }

  lemma {:induction false} LaneOutputsConcat(l: seq<string>, b: seq<LaneOutcome>, l': seq<string>, b': seq<LaneOutcome>)
    requires |l| == |b| && |l'| == |b'|
    ensures LaneOutputs(l + l', b + b') == Plus(LaneOutputs(l, b), LaneOutputs(l', b'))
  {
    if b == [] {
      assert l + l' == l' && b + b' == b';
    } else {
      LaneOutputsConcat(l[1..], b[1..], l', b');
      assert (l + l')[1..] == l[1..] + l' && (b + b')[1..] == b[1..] + b';
      LaneOutputsHead(l + l', b + b');
      LaneOutputsHead(l, b);
      PlusAssociative(LaneOutput(l[0], b[0]), LaneOutputs(l[1..], b[1..]), LaneOutputs(l', b'));
    }
  }

  // ---------------------------------------------------------------- what a report says

  predicate HasError(vs: seq<Violation>) {
    exists i :: 0 <= i < |vs| && vs[i].isError
  }

  function Shifted(places: seq<nat>): seq<nat> {
    seq(|places|, n requires 0 <= n < |places| => places[n] + 1)
  }

  // The places of the errors.
  function ErrorPlaces(vs: seq<Violation>): seq<nat> {
    if vs == [] then [] else (if vs[0].isError then [0] else []) + Shifted(ErrorPlaces(vs[1..]))
  }

  // What refuses a run is what stands there.
  lemma {:induction false} BlockingAt(vs: seq<Violation>)
    ensures |ErrorPlaces(vs)| == |Blocking(vs)|
    ensures forall n :: 0 <= n < |ErrorPlaces(vs)| ==>
              ErrorPlaces(vs)[n] < |vs| && Blocking(vs)[n] == vs[ErrorPlaces(vs)[n]]
  {
    if vs != [] { BlockingAt(vs[1..]); }
  }

  lemma {:induction false} PlacesAscend(vs: seq<Violation>)
    ensures forall m, n :: 0 <= m < n < |ErrorPlaces(vs)| ==> ErrorPlaces(vs)[m] < ErrorPlaces(vs)[n]
  {
    if vs != [] { PlacesAscend(vs[1..]); }
  }

  lemma ShiftedHas(places: seq<nat>, i: nat)
    ensures i in Shifted(places) <==> i > 0 && i - 1 in places
  {
    if i > 0 && i - 1 in places {
      var n :| 0 <= n < |places| && places[n] == i - 1;
      assert Shifted(places)[n] == i;
    }
  }

  // The errors stand there, all of them and no other violation.
  lemma {:induction false} PlaceIsError(vs: seq<Violation>, i: nat)
    ensures i in ErrorPlaces(vs) <==> i < |vs| && vs[i].isError
  {
    if vs != [] {
      var rest := ErrorPlaces(vs[1..]);
      ShiftedHas(rest, i);
      var first: seq<nat> := if vs[0].isError then [0] else [];
      assert i in first + Shifted(rest) <==> i in first || i in Shifted(rest);
      if i > 0 { PlaceIsError(vs[1..], i - 1); }
    }
  }

  lemma RefusedMeans(input: RunInput)
    ensures Refused(input) <==> HasError(input.violations)
  {
    var vs := input.violations;
    BlockingAt(vs);
    if HasError(vs) {
      var i: nat :| i < |vs| && vs[i].isError;
      PlaceIsError(vs, i);
    }
    if Refused(input) {
      assert ErrorPlaces(vs)[0] in ErrorPlaces(vs);
      PlaceIsError(vs, ErrorPlaces(vs)[0]);
    }
  }

  // The report is blocked exactly when some violation is an error. Then it has no diffs and
  // lists one failure for each error, in their order (`at` are their places) and under their
  // fields, whatever the lanes would have done.
  lemma BlockedExactly(input: RunInput, a: Option<LaneOutcome>, bs: seq<LaneOutcome>) returns (at: seq<nat>)
    requires RunsPhaseA(input) ==> a.Some?
    requires |bs| == |Lanes(input)|
    ensures var rep, vs := ReportOf(input, a, bs), input.violations;
            && rep.violations == vs && (rep.blocked <==> HasError(vs))
            && (forall i: nat :: i in at <==> i < |vs| && vs[i].isError)
            && (forall m, n :: 0 <= m < n < |at| ==> at[m] < at[n])
            && (rep.blocked ==>
                  && rep.out.diffs == [] && |rep.out.applied| == |at|
                  && forall n :: 0 <= n < |at| ==>
                       at[n] < |vs|
                       && rep.out.applied[n] ==
                          FanOut.ApplyResult(vs[at[n]].field, FanOut.Skipped, false,
                                             vs[at[n]].message + " (org policy: " + vs[at[n]].orgPolicy + ")", 0))
  {
    var vs := input.violations;
    RefusedMeans(input);
    BlockingAt(vs);
    PlacesAscend(vs);
    at := ErrorPlaces(vs);
    forall i: nat ensures i in at <==> i < |vs| && vs[i].isError {
      PlaceIsError(vs, i);
    }
  }

  // Violations that are not errors change nothing but the list of violations.
  lemma WarningsChangeNothing(input: RunInput, vs: seq<Violation>, a: Option<LaneOutcome>, bs: seq<LaneOutcome>)
    requires !HasError(input.violations) && !HasError(vs)
    requires RunsPhaseA(input) ==> a.Some?
    requires |bs| == |Lanes(input)|
    ensures ReportOf(input.(violations := vs), a, bs) == ReportOf(input, a, bs).(violations := vs)
  {
    RefusedMeans(input);
    RefusedMeans(input.(violations := vs));
  }

  // Phase A's part comes first, and the rest of the report is what it is without Phase A.
  lemma PhaseAIsolation(input: RunInput, a: LaneOutcome, bs: seq<LaneOutcome>)
    requires |bs| == |Lanes(input)| && !HasError(input.violations)
    requires input.phaseA && "repository" !in input.disabled
    ensures var out, rest := ReportOf(input, Some(a), bs).out, ReportOf(input.(phaseA := false), None, bs).out;
            match a
            case Reported(ds, rs) => out == Output(ds + rest.diffs, rs + rest.applied)
            case Erred(ds, e) =>
              out == Output(ds + rest.diffs, [FanOut.ApplyResult("repository", FanOut.Updated, false, e, 0)] + rest.applied)
            case Panicked(m) =>
              out == Output(rest.diffs,
                            [FanOut.ApplyResult("repository", FanOut.Updated, false, "panic: " + m, 0)] + rest.applied)
  {
    RefusedMeans(input);
    RefusedMeans(input.(phaseA := false));
    var rest := ReportOf(input.(phaseA := false), None, bs).out;
    assert rest == Plus(Output([], Skips(SkippedKeys(input))), LaneOutputs(Lanes(input), bs));
  }

  // Every configured lane is run or skipped, never both, and in the order of the specs.
  lemma LanesPartition(input: RunInput)
    ensures forall k :: k in SPEC_KEYS && k in input.configured <==> k in Lanes(input) || k in SkippedKeys(input)
    ensures forall k :: !(k in Lanes(input) && k in SkippedKeys(input))
    ensures forall k :: k in SkippedKeys(input) ==> k in input.disabled
    ensures NoDuplicates(Lanes(input)) && NoDuplicates(SkippedKeys(input))
  {
    OnlyMembers(SPEC_KEYS, input.configured - input.disabled);
    OnlyMembers(SPEC_KEYS, input.configured * input.disabled);
    SpecKeysDistinct();
  }

  // Both listings keep the order of the specs.
  lemma {:induction false} KeptInOrder(keys: seq<string>, keep: set<string>, i: nat, j: nat) returns (m: nat, n: nat)
    requires i < j < |Only(keys, keep)|
    ensures m < n < |keys| && keys[m] == Only(keys, keep)[i] && keys[n] == Only(keys, keep)[j]
  {
    if keys[0] in keep {
      if i == 0 {
        m := 0;
        n := KeptAt(keys[1..], keep, j - 1);
        n := n + 1;
      } else {
        m, n := KeptInOrder(keys[1..], keep, i - 1, j - 1);
        m, n := m + 1, n + 1;
      }
    } else {
      m, n := KeptInOrder(keys[1..], keep, i, j);
      m, n := m + 1, n + 1;
    }
  }

  lemma KeptAt(keys: seq<string>, keep: set<string>, i: nat) returns (n: nat)
    requires i < |Only(keys, keep)|
    ensures n < |keys| && keys[n] == Only(keys, keep)[i]
  {
    OnlyMembers(keys, keep);
    assert Only(keys, keep)[i] in keys;
    n :| n < |keys| && keys[n] == Only(keys, keep)[i];
  }

  lemma LanesInSpecOrder(input: RunInput, i: nat, j: nat) returns (m: nat, n: nat)
    requires i < j < |Lanes(input)|
    ensures m < n < |SPEC_KEYS| && SPEC_KEYS[m] == Lanes(input)[i] && SPEC_KEYS[n] == Lanes(input)[j]
  {
    m, n := KeptInOrder(SPEC_KEYS, input.configured - input.disabled, i, j);
  }

  // A disabled lane puts an entry in the report, a success that says why it was skipped,
  // whatever the other lanes did.
  lemma DisabledLaneReported(input: RunInput, a: Option<LaneOutcome>, bs: seq<LaneOutcome>, k: string) returns (i: nat)
    requires RunsPhaseA(input) ==> a.Some?
    requires |bs| == |Lanes(input)| && !Refused(input)
    requires k in input.disabled
    requires if k == "repository" then input.phaseA else k in SPEC_KEYS && k in input.configured
    ensures i < |ReportOf(input, a, bs).out.applied|
    ensures ReportOf(input, a, bs).out.applied[i] ==
            FanOut.ApplyResult(k, FanOut.Skipped, true, "disabled by operator policy", 0)
  {
    var first := PhaseAOutput(input, a).applied;
    if k == "repository" {
      i := 0;
      assert first == [SkippedResult(k)];
    } else {
      SkippedMember(input, k);
      var n := SkipAt(SkippedKeys(input), k);
      i := |first| + n;
      AppliedThird(first, Skips(SkippedKeys(input)), LaneOutputs(Lanes(input), bs).applied, n);
    }
  }

  lemma SkippedMember(input: RunInput, k: string)
    requires k in SPEC_KEYS && k in input.configured && k in input.disabled
    ensures k in SkippedKeys(input)
  {
    OnlyMembers(SPEC_KEYS, input.configured * input.disabled);
  }

  lemma SkipAt(keys: seq<string>, k: string) returns (n: nat)
    requires k in keys
    ensures n < |Skips(keys)| && Skips(keys)[n] == SkippedResult(k)
  {
    n :| 0 <= n < |keys| && keys[n] == k;
  }

  lemma AppliedThird(a: seq<ApplyResult>, b: seq<ApplyResult>, c: seq<ApplyResult>, n: nat)
    requires n < |b|
    ensures |a| + n < |a + (b + c)| && (a + (b + c))[|a| + n] == b[n]
  {}

  lemma SpecKeysDistinct()
    ensures NoDuplicates(SPEC_KEYS)
  {
    assert SPEC_KEYS[0][0] == 't';
    assert SPEC_KEYS[1][0] == 'r';
    assert SPEC_KEYS[2][0] == 'e';
    assert SPEC_KEYS[3][0] == 'w';
    assert SPEC_KEYS[4][..2] == "au";
    assert SPEC_KEYS[5][..2] == "ac";
    assert |SPEC_KEYS[6]| == 8 && SPEC_KEYS[6][0] == 's';
    assert SPEC_KEYS[7][0] == 'p';
    assert |SPEC_KEYS[8]| == 7 && SPEC_KEYS[8][0] == 's';
    assert SPEC_KEYS[9][0] == 'v';
    assert SPEC_KEYS[10][0] == 'd';
    assert SPEC_KEYS[11][..2] == "cu";
    assert SPEC_KEYS[12][..2] == "co";
    assert SPEC_KEYS[13][0] == 'b';
  }

  // What comes before and after lane i's part of the report depends on the other lanes
  // only.
  function Before(input: RunInput, a: Option<LaneOutcome>, bs: seq<LaneOutcome>): Output
    requires RunsPhaseA(input) ==> a.Some?
    requires |bs| <= |Lanes(input)|
  {
    Plus(PhaseAOutput(input, a), Plus(Output([], Skips(SkippedKeys(input))), LaneOutputs(Lanes(input)[..|bs|], bs)))
  }

  function Behind(input: RunInput, bs: seq<LaneOutcome>): Output
    requires |bs| <= |Lanes(input)|
  {
    LaneOutputs(Lanes(input)[|Lanes(input)| - |bs|..], bs)
  }

  // A lane changes its own part of the report and no other's. What it reported stands there;
  // a lane that fails or panics puts exactly one failed result there, under its own name (a
  // failed one keeps its diffs, a panicked one has none).
  lemma LaneIsolation(input: RunInput, a: Option<LaneOutcome>, bs: seq<LaneOutcome>, i: nat)
    requires RunsPhaseA(input) ==> a.Some?
    requires |bs| == |Lanes(input)| && i < |bs| && !Refused(input)
    ensures ReportOf(input, a, bs).out ==
            Plus(Before(input, a, bs[..i]), Plus(LaneOutput(Lanes(input)[i], bs[i]), Behind(input, bs[i + 1..])))
    ensures var out, key := LaneOutput(Lanes(input)[i], bs[i]), Lanes(input)[i];
            match bs[i]
            case Reported(ds, rs) => out.diffs == ds && out.applied == rs
            case Erred(ds, e) => out.diffs == ds && out.applied == [FanOut.ApplyResult(key, FanOut.Updated, false, e, 0)]
            case Panicked(m) =>
              out.diffs == [] && out.applied == [FanOut.ApplyResult(key, FanOut.Updated, false, "panic: " + m, 0)]
  {
    LaneOutputsSplit(Lanes(input), bs, i);
    var skips := Output([], Skips(SkippedKeys(input)));
    var own := LaneOutput(Lanes(input)[i], bs[i]);
    var first := LaneOutputs(Lanes(input)[..i], bs[..i]);
    PlusAssociative(skips, first, Plus(own, Behind(input, bs[i + 1..])));
    PlusAssociative(PhaseAOutput(input, a), Plus(skips, first), Plus(own, Behind(input, bs[i + 1..])));
  }

  lemma LaneOutputsSplit(lanes: seq<string>, bs: seq<LaneOutcome>, i: nat)
    requires |lanes| == |bs| && i < |bs|
    ensures LaneOutputs(lanes, bs) ==
            Plus(LaneOutputs(lanes[..i], bs[..i]), Plus(LaneOutput(lanes[i], bs[i]), LaneOutputs(lanes[i + 1..], bs[i + 1..])))
  {
    LaneOutputsConcat(lanes[..i], bs[..i], lanes[i..], bs[i..]);
    LaneOutputsHead(lanes[i..], bs[i..]);
    CutAt(lanes, i);
    CutAt(bs, i);
  }

  lemma CutAt<T>(s: seq<T>, i: nat)
    requires i < |s|
    ensures s[..i] + s[i..] == s && s[i..][0] == s[i] && s[i..][1..] == s[i + 1..]
  {}

  lemma LaneOutputsHead(lanes: seq<string>, bs: seq<LaneOutcome>)
    requires |lanes| == |bs| > 0
    ensures LaneOutputs(lanes, bs) == Plus(LaneOutput(lanes[0], bs[0]), LaneOutputs(lanes[1..], bs[1..]))
  {}
}
