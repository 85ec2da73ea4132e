/**
  The branches lane (internal/applier/branches.go) over the record shapes of Protection:
  planning, the calls of one branch, their fan-out, and convergence.

  The remote keeps, per branch, the last PUT body verbatim and the signatures switch beside
  it, and renders them as GET does.
*/
module Branches {
  import opened Wrappers
  import opened Strings
  import opened Diff
  import opened Plan
  import opened FanOut
  import opened Protection

  // ---------------------------------------------------------------- the plan and its requests

  ghost function PutProtection(body: PutBody): Request<Protected> {
    (cur: Option<Protected>) => Some(Protected(body, if cur.Some? then cur.value.signatures else None))
  }

  ghost function PutSignatures(want: bool): Request<Protected> {
    (cur: Option<Protected>) => if cur.Some? then Some(cur.value.(signatures := Some(want))) else None
  }

  ghost function BranchPlan(b: BranchProtection, live: Option<Protected>): Entry {
    PlanFor("branches." + b.pattern, LiveDoc(live), Some(DesiredDoc(b)))
  }

  // The first change reported under the signatures path.
  function FirstSignatures(changes: seq<FieldChange>): Option<bool> {
    if changes == [] then None
    else if changes[0].path == NameOf(SignaturesField) then Some(changes[0].to.Bool? && changes[0].to.b)
    else FirstSignatures(changes[1..])
  }

  method SignaturesChange(d: Entry) returns (want: bool, changed: bool)
    ensures FirstSignatures(d.changes) == if changed then Some(want) else None
  {
    for i := 0 to |d.changes|
      invariant FirstSignatures(d.changes) == FirstSignatures(d.changes[i..])
    {
      var c := d.changes[i];
      if c.path == "required_signatures" {
        var v := c.to.Bool? && c.to.b;
        return v, true;
      }
    }
    return false, false;
  }

  datatype Call =
    | PutCall(pattern: string, body: PutBody)
    | SignaturesCall(pattern: string, want: bool)
    | DeleteCall(pattern: string)

  // strings.TrimPrefix
  function TrimPrefix(s: string, prefix: string): string {
    if prefix <= s then s[|prefix|..] else s
  }

  // The calls that carry out a plan for the record `cfg`.
  function CallsFor(pattern: string, cfg: BranchProtection, d: Entry): seq<Call> {
    match d.action
    case Noop => []
    case Delete => [DeleteCall(pattern)]
    case _ =>
      var sig := FirstSignatures(d.changes);
      [PutCall(pattern, EncodeProtection(cfg))] + if sig.Some? then [SignaturesCall(pattern, sig.value)] else []
  }

  // applyBranchProtection: sends the calls of the plan in order up to the first that
  // fails, and reports success exactly when none did. `fail` says which calls fail.
  method ApplyBranch(d: Entry, cfg: BranchProtection, fail: Call -> Option<string>)
    returns (r: ApplyResult, sent: seq<Call>)
    ensures r.resource == d.resource && r.calls == |sent|
    ensures sent <= CallsFor(TrimPrefix(d.resource, "branches."), cfg, d)
    ensures forall i :: 0 <= i < |sent| - 1 ==> fail(sent[i]).None?
    ensures r.success ==> sent == CallsFor(TrimPrefix(d.resource, "branches."), cfg, d)
                          && (sent != [] ==> fail(sent[|sent| - 1]).None?)
    ensures !r.success ==> sent != [] && fail(sent[|sent| - 1]).Some?
    ensures !r.success ==>
              && r.action == (if d.action == Delete then Deleted else Updated)
              && (var last := sent[|sent| - 1];
                  r.error == (if last.SignaturesCall? then "required_signatures: " else "") + fail(last).value)
    ensures r.action != Pending && (r.success ==> r.action == match d.action {
              case Create => Created
              case Update => Updated
              case Delete => Deleted
              case Noop => Skipped })
  {
    var pattern := TrimPrefix(d.resource, "branches.");
    match d.action {
      case Delete =>
        sent := [DeleteCall(pattern)];
        var err := fail(DeleteCall(pattern));
        if err.Some? {
          return ApplyResult(d.resource, Deleted, false, err.value, 1), sent;
        }
        return ApplyResult(d.resource, Deleted, true, "", 1), sent;
      case Noop =>
        return ApplyResult(d.resource, Skipped, true, "", 0), [];
      case _ =>
        var put := PutCall(pattern, EncodeProtection(cfg));
        var calls := 1;
        sent := [put];
        var err := fail(put);
        assert sent[0] == put;
        if err.Some? {
          return ApplyResult(d.resource, Updated, false, err.value, calls), sent;
        }
        var want, changed := SignaturesChange(d);
        if changed {
          calls := calls + 1;
          var sig := SignaturesCall(pattern, want);
          sent := sent + [sig];
          assert sent[0] == put && sent[1] == sig;
          var serr := fail(sig);
          if serr.Some? {
            return ApplyResult(d.resource, Updated, false, "required_signatures: " + serr.value, calls), sent;
          }
        }
        return ApplyResult(d.resource, if d.action == Create then Created else Updated, true, "", calls), sent;
    }
  }

  // What a call does to its branch.
  ghost function RequestOf(c: Call): Request<Protected> {
    match c
    case PutCall(_, body) => PutProtection(body)
    case SignaturesCall(_, want) => PutSignatures(want)
    case DeleteCall(_) => cur => None
  }

  ghost function RequestsFor(b: BranchProtection, plan: Entry): seq<Request<Protected>> {
    var calls := CallsFor(b.pattern, b, plan);
    seq(|calls|, i requires 0 <= i < |calls| => RequestOf(calls[i]))
  }

  // ---------------------------------------------------------------- what the plan reports

  // A key whose values differ and are not both objects is reported under its own name.
  lemma ReportedAt(cur: Doc, des: Doc, k: string)
    requires k in des && (k in cur ==> cur[k] != des[k] && !(cur[k].Object? && des[k].Object?))
    ensures exists i :: 0 <= i < |Changes(cur, des)| &&
              RenderAll("", Changes(cur, des))[i] == FieldChange(k, if k in cur then cur[k] else Null, des[k])
  {
    var c := KeyChange([k], if k in cur then cur[k] else Null, des[k]);
    if k in cur {
      assert ValueChanges(cur[k], des[k]) == [KeyChange([], cur[k], des[k])];
      assert Under(k, ValueChanges(cur[k], des[k]))[0] == c;
    }
    assert c in KeyChanges(cur, des, k);
    ChangesMembers(cur, des, c);
    var i :| 0 <= i < |Changes(cur, des)| && Changes(cur, des)[i] == c;
    assert [k][1..] == [];
    assert Render("", [k]) == Render(ExtendPath("", k), []) == k;
    assert RenderAll("", Changes(cur, des))[i] == FieldChange(k, c.from, c.to);
  }

  lemma {:induction false} FirstSignaturesMeans(changes: seq<FieldChange>)
    ensures FirstSignatures(changes).Some? ==>
              exists i :: 0 <= i < |changes| && changes[i].path == NameOf(SignaturesField)
                          && FirstSignatures(changes).value == (changes[i].to.Bool? && changes[i].to.b)
    ensures FirstSignatures(changes).None? ==> forall i :: 0 <= i < |changes| ==> changes[i].path != NameOf(SignaturesField)
  {
    if changes != [] && changes[0].path != NameOf(SignaturesField) {
      FirstSignaturesMeans(changes[1..]);
      if FirstSignatures(changes).Some? {
        var i :| 0 <= i < |changes[1..]| && changes[1..][i].path == NameOf(SignaturesField)
                 && FirstSignatures(changes).value == (changes[1..][i].to.Bool? && changes[1..][i].to.b);
        assert changes[i + 1] == changes[1..][i];
      }
    }
  }

  // Keys that render to one dotless key are that key alone.
  lemma SingleKeyPath(keys: seq<string>, k: string)
    requires keys != [] && keys[0] != "" && Without(k, '.') && Render("", keys) == k
    ensures keys == [k]
  {
    RenderJoins(keys);
    if |keys| == 1 {
      assert keys == [keys[0]];
    } else {
      JoinHasSeparator(keys, '.');
    }
  }

  lemma JoinHasSeparator(keys: seq<string>, c: char)
    requires |keys| > 1
    ensures |keys[0]| < |Join(keys, c)| && Join(keys, c)[|keys[0]|] == c
  {}

  lemma SignaturesName()
    ensures Without(NameOf(SignaturesField), '.')
  {}

  // A change reported under the signatures path is the change of the signatures.
  lemma PathOfSignatures(b: BranchProtection, cur: Doc, i: nat)
    requires i < |Changes(cur, DesiredDoc(b))|
    requires RenderAll("", Changes(cur, DesiredDoc(b)))[i].path == NameOf(SignaturesField)
    ensures var k := NameOf(SignaturesField);
            && Get(DesiredDoc(b), k) == Some(RenderAll("", Changes(cur, DesiredDoc(b)))[i].to)
            && Get(cur, k) != Get(DesiredDoc(b), k)
  {
    var des, k := DesiredDoc(b), NameOf(SignaturesField);
    var c := Changes(cur, des)[i];
    var top, below := Descend(cur, des, c);
    var f := DocKey(f => DesiredValue(b, f), top);
    NameLength(f);
    SignaturesName();
    SingleKeyPath(c.keys, k);
    assert c in ValueChanges(Object(cur), Object(des));
    ChangeIsReal(Object(cur), Object(des), c);
    assert c.keys == [k] && [k][1..] == [];
    assert At(Object(des), [k]) == Some(c.to);
  }

  // The lane writes the signatures exactly when the record asks for a value GET does not
  // show, and then writes that value.
  lemma SignaturesWritten(b: BranchProtection, live: Option<Protected>)
    ensures var shown := if live.Some? then live.value.signatures else None;
            FirstSignatures(BranchPlan(b, live).changes) ==
            if b.signatures.Some? && shown != b.signatures then b.signatures else None
  {
    FirstSignaturesMeans(BranchPlan(b, live).changes);
    if live.None? {
      NewSignatures(b);
    } else {
      ChangedSignatures(b, live.value);
    }
  }

  // Nothing is protected yet: the signatures are listed when they are configured.
  lemma NewSignatures(b: BranchProtection)
    ensures var changes, k := BranchPlan(b, None).changes, NameOf(SignaturesField);
            && (b.signatures.Some? ==> exists i :: 0 <= i < |changes| && changes[i].path == k)
            && forall i :: 0 <= i < |changes| && changes[i].path == k ==>
                 b.signatures.Some? && changes[i].to == Json.Bool(b.signatures.value)
  {
    SignaturesAsked(b);
    NewBranchPlan(b);
    NewChangesListed(DesiredDoc(b), NameOf(SignaturesField));
  }

  lemma SignaturesAsked(b: BranchProtection)
    ensures Get(DesiredDoc(b), NameOf(SignaturesField)) == Switch(b.signatures)
  {
    DocGet(f => DesiredValue(b, f), SignaturesField);
  }

  lemma SignaturesShown(p: Live)
    ensures Get(Decoded(p), NameOf(SignaturesField)) == Switch(p.signatures)
  {
    DocGet(f => LiveValue(p, f), SignaturesField);
  }

  lemma NewBranchPlan(b: BranchProtection)
    ensures BranchPlan(b, None).changes == NewChanges(DesiredDoc(b))
  {}

  lemma ChangedBranchPlan(b: BranchProtection, live: Protected)
    ensures BranchPlan(b, Some(live)).changes == RenderAll("", Changes(Decoded(ReadBack(live)), DesiredDoc(b)))
  {}

  // The changes of a new document list each of its keys once, with its value.
  lemma NewChangesListed(des: Doc, k: string)
    ensures k in des <==> exists i :: 0 <= i < |NewChanges(des)| && NewChanges(des)[i].path == k
    ensures forall i :: 0 <= i < |NewChanges(des)| && NewChanges(des)[i].path == k ==>
              k in des && NewChanges(des)[i].to == des[k]
  {
    var keys := Listing(des.Keys);
    forall i | 0 <= i < |keys| ensures keys[i] in des {
      assert keys[i] in Elements(keys);
    }
    if k in des {
      assert k in Elements(keys);
      var i :| 0 <= i < |keys| && keys[i] == k;
      assert NewChanges(des)[i].path == k;
    }
  }

  // Otherwise they are listed when they are configured and differ.
  lemma ChangedSignatures(b: BranchProtection, live: Protected)
    ensures var changes, k := BranchPlan(b, Some(live)).changes, NameOf(SignaturesField);
            && (b.signatures.Some? && live.signatures != b.signatures ==>
                  exists i :: 0 <= i < |changes| && changes[i].path == k)
            && forall i :: 0 <= i < |changes| && changes[i].path == k ==>
                 b.signatures.Some? && live.signatures != b.signatures && changes[i].to == Json.Bool(b.signatures.value)
  {
    var cur, des := Decoded(ReadBack(live)), DesiredDoc(b);
    SignaturesAsked(b);
    SignaturesShown(ReadBack(live));
    ChangedBranchPlan(b, live);
    if b.signatures.Some? && live.signatures != b.signatures {
      ReportedAt(cur, des, NameOf(SignaturesField));
    }
    forall i | 0 <= i < |Changes(cur, des)| && RenderAll("", Changes(cur, des))[i].path == NameOf(SignaturesField)
      ensures b.signatures.Some? && live.signatures != b.signatures
      ensures RenderAll("", Changes(cur, des))[i].to == Json.Bool(b.signatures.value)
    {
      PathOfSignatures(b, cur, i);
    }
  }

  // The branch after its plan was applied without a failure.
  ghost function AfterApply(b: BranchProtection, live: Option<Protected>): Option<Protected> {
    Effects(live, RequestsFor(b, BranchPlan(b, live)))
  }

  // An applied plan leaves the encoded body, and the signatures the record asks for.
  lemma AppliedBranch(b: BranchProtection, live: Option<Protected>)
    requires BranchPlan(b, live).action != Noop
    ensures var shown := if live.Some? then live.value.signatures else None;
            AfterApply(b, live) == Some(Protected(EncodeProtection(b), if b.signatures.Some? then b.signatures else shown))
  {
    SignaturesWritten(b, live);
    var plan := BranchPlan(b, live);
    RequestsOfPlan(b, plan);
    var put := PutProtection(EncodeProtection(b));
    EffectsOfOne(live, put);
    var sig := FirstSignatures(plan.changes);
    if sig.Some? {
      EffectsOfTwo(live, put, PutSignatures(sig.value));
    }
  }

  lemma RequestsOfPlan(b: BranchProtection, plan: Entry)
    requires plan.action == Create || plan.action == Update
    ensures var sig := FirstSignatures(plan.changes);
            RequestsFor(b, plan) == [PutProtection(EncodeProtection(b))]
                                    + if sig.Some? then [PutSignatures(sig.value)] else []
  {}

  lemma EffectsOfOne(live: Option<Protected>, r: Request<Protected>)
    ensures Effects(live, [r]) == r(live)
  {
    assert [r][..0] == [];
  }

  lemma EffectsOfTwo(live: Option<Protected>, r: Request<Protected>, r': Request<Protected>)
    ensures Effects(live, [r, r']) == r'(r(live))
  {
    EffectsOfOne(live, r);
    assert [r, r'][..1] == [r];
  }

  // Without the admins switch stated, no live state ever satisfies the record.
  lemma AdminsUnstated(b: BranchProtection, live: Option<Protected>)
    requires b.enforceAdmins.None?
    ensures BranchPlan(b, live).action != Noop
  {
    NoopMeansCovered("branches." + b.pattern, LiveDoc(live), Some(DesiredDoc(b)));
    if live.Some? {
      UnstatedNeverCovered(b, ReadBack(live.value));
    }
  }

  // Applying a record once makes its next plan a no-op, from any live state, exactly when
  // the record states the admins switch; normalization always states it.
  lemma BranchConverges(b: BranchProtection, live: Option<Protected>)
    ensures BranchPlan(b, AfterApply(b, live)).action == Noop <==> b.enforceAdmins.Some?
    ensures Normalized(b).enforceAdmins.Some?
  {
    if BranchPlan(b, live).action == Noop {
      assert RequestsFor(b, BranchPlan(b, live)) == [];
      if b.enforceAdmins.None? { AdminsUnstated(b, live); }
    } else {
      AppliedBranch(b, live);
      var end := AfterApply(b, live);
      AfterPutCovers(b, end.value.signatures);
      NoopMeansCovered("branches." + b.pattern, LiveDoc(end), Some(DesiredDoc(b)));
    }
  }

  // Whatever the branch was before, after a record was completed and applied GET shows a
  // switch on exactly when the operator stated true.
  lemma SwitchesAfter(b: BranchProtection, live: Option<Protected>, f: Field)
    requires IsSwitch(f)
    ensures var end := AfterApply(Normalized(b), live);
            end.Some? && Get(LiveDoc(end).value, NameOf(f)) == Some(Json.Bool(SwitchOf(b, f) == Some(true)))
  {
    SwitchFilled(b, f);
    if BranchPlan(Normalized(b), live).action == Noop {
      SwitchesCovered(Normalized(b), live, f);
    } else {
      SwitchesWritten(Normalized(b), live, f);
    }
  }

  // A plan with nothing to do means that every stated switch is there already.
  lemma SwitchesCovered(n: BranchProtection, live: Option<Protected>, f: Field)
    requires IsSwitch(f) && SwitchOf(n, f).Some? && BranchPlan(n, live).action == Noop
    ensures AfterApply(n, live) == live && live.Some?
    ensures Get(LiveDoc(live).value, NameOf(f)) == Some(Json.Bool(SwitchOf(n, f).value))
  {
    assert RequestsFor(n, BranchPlan(n, live)) == [];
    DesiredKey(n, f);
    NoopMeansCovered("branches." + n.pattern, LiveDoc(live), Some(DesiredDoc(n)));
    CoveredSwitch(LiveDoc(live).value, DesiredDoc(n), NameOf(f));
  }

  lemma SwitchesWritten(n: BranchProtection, live: Option<Protected>, f: Field)
    requires IsSwitch(f) && SwitchOf(n, f).Some? && BranchPlan(n, live).action != Noop
    ensures var end := AfterApply(n, live);
            end.Some? && Get(LiveDoc(end).value, NameOf(f)) == Some(Json.Bool(SwitchOf(n, f).value))
  {
    AppliedBranch(n, live);
    var p := ReadBack(AfterApply(n, live).value);
    DocGet(g => LiveValue(p, g), f);
    SentSwitch(n, AfterApply(n, live).value.signatures, f);
  }

  lemma SentSwitch(n: BranchProtection, signatures: Option<bool>, f: Field)
    requires IsSwitch(f) && SwitchOf(n, f).Some?
    ensures LiveValue(AfterPut(n, signatures), f) == Some(Json.Bool(SwitchOf(n, f).value))
  {}

  lemma CoveredSwitch(cur: Doc, des: Doc, k: string)
    requires Covers(Object(cur), Object(des)) && k in des && des[k].Bool?
    ensures Get(cur, k) == Some(des[k])
  {
    assert k in Object(des).fields;
  }

  // ---------------------------------------------------------------- the dry run tells

  // What the dry run shows of a top-level field: a switch by its value, a sub-object by
  // its presence.
  function Shown(v: Option<Json>, f: Field): Json {
    if IsSubObject(f) then Json.Bool(OrNull(v) != Null) else OrNull(v)
  }

  // What a branch shows of a field: nothing while it is not protected.
  function ShownNow(live: Option<Protected>, f: Field): Json {
    Shown(if live.Some? then LiveValue(ReadBack(live.value), f) else None, f)
  }

  // Every top-level switch or sub-object presence that applying a complete record flips is
  // listed in the plan's changes, whether the branch was protected before or not.
  lemma FlipsAreListed(b: BranchProtection, live: Option<Protected>, f: Field)
    requires Complete(b) && f != SignaturesField
    requires ShownNow(live, f) != ShownNow(AfterApply(b, live), f)
    ensures exists n :: 0 <= n < |BranchPlan(b, live).changes| && BranchPlan(b, live).changes[n].path == NameOf(f)
  {
    if live.None? {
      CreateListsAll(b, f);
    } else {
      UpdateListsFlips(b, live.value, AfterApply(b, live), f);
    }
  }

  lemma CreateListsAll(b: BranchProtection, f: Field)
    requires Complete(b) && f != SignaturesField
    ensures exists n :: 0 <= n < |BranchPlan(b, None).changes| && BranchPlan(b, None).changes[n].path == NameOf(f)
  {
    DocGet(g => DesiredValue(b, g), f);
    assert DesiredValue(b, f).Some?;
    assert NameOf(f) in DesiredDoc(b);
    NewBranchPlan(b);
    NewChangesListed(DesiredDoc(b), NameOf(f));
  }

  lemma UpdateListsFlips(b: BranchProtection, live: Protected, end: Option<Protected>, f: Field)
    requires Complete(b) && f != SignaturesField && AfterApply(b, Some(live)) == end
    requires ShownNow(Some(live), f) != ShownNow(end, f)
    ensures exists n :: 0 <= n < |BranchPlan(b, Some(live)).changes| && BranchPlan(b, Some(live)).changes[n].path == NameOf(f)
  {
    var plan := BranchPlan(b, Some(live));
    assert plan.action == Noop ==> AfterApply(b, Some(live)) == Some(live);
    AppliedBranch(b, Some(live));
    var cur, des := Decoded(ReadBack(live)), DesiredDoc(b);
    DocGet(g => LiveValue(ReadBack(live), g), f);
    DocGet(g => DesiredValue(b, g), f);
    FlippedField(b, live, end.value.signatures, f);
    ReportedAt(cur, des, NameOf(f));
    var n :| 0 <= n < |plan.changes| && plan.changes[n].path == NameOf(f);
  }

  lemma FlippedField(b: BranchProtection, live: Protected, signatures: Option<bool>, f: Field)
    requires Complete(b) && f != SignaturesField
    requires Shown(LiveValue(ReadBack(live), f), f) != Shown(LiveValue(AfterPut(b, signatures), f), f)
    ensures var c, d := LiveValue(ReadBack(live), f), DesiredValue(b, f);
            c.Some? && d.Some? && c != d && !(c.value.Object? && d.value.Object?)
  {
    if IsSubObject(f) {
      PutCoversSubObject(b, signatures, f);
    } else {
      assert SwitchOf(b, f).Some?;
    }
  }

  // ---------------------------------------------------------------- the lane

  type Remote = map<string, Protected>

  lemma TrimOwnPrefix(pattern: string)
    ensures TrimPrefix("branches." + pattern, "branches.") == pattern
  {
    assert "branches." <= "branches." + pattern;
  }

  ghost predicate DistinctPatterns(bs: seq<BranchProtection>) {
    forall i, j :: 0 <= i < j < |bs| ==> bs[i].pattern != bs[j].pattern
  }

  // The records by pattern, the last one of a pattern winning.
  function ByPattern(bs: seq<BranchProtection>): map<string, BranchProtection> {
    if bs == [] then map[] else ByPattern(bs[..|bs| - 1])[bs[|bs| - 1].pattern := bs[|bs| - 1]]
  }

  lemma ByPatternNext(bs: seq<BranchProtection>, i: nat)
    requires i < |bs|
    ensures ByPattern(bs[..i + 1]) == ByPattern(bs[..i])[bs[i].pattern := bs[i]]
  {
    assert bs[..i + 1][..i] == bs[..i];
  }

  // With distinct patterns, the pattern cut out of a plan's resource finds its record.
  lemma {:induction false} ByPatternFinds(bs: seq<BranchProtection>, i: nat)
    requires DistinctPatterns(bs) && i < |bs|
    ensures Get(ByPattern(bs), TrimPrefix("branches." + bs[i].pattern, "branches.")) == Some(bs[i])
  {
    TrimOwnPrefix(bs[i].pattern);
    if i < |bs| - 1 {
      ByPatternFinds(bs[..|bs| - 1], i);
    }
  }

  ghost function LanePlan(bs: seq<BranchProtection>, remote: Remote): (r: seq<Entry>)
    ensures |r| == |bs|
  {
    seq(|bs|, i requires 0 <= i < |bs| => BranchPlan(bs[i], Get(remote, bs[i].pattern)))
  }

  lemma LanePlanNext(bs: seq<BranchProtection>, remote: Remote, i: nat)
    requires i < |bs|
    ensures LanePlan(bs[..i + 1], remote) == LanePlan(bs[..i], remote) + [BranchPlan(bs[i], Get(remote, bs[i].pattern))]
  {
    assert bs[..i + 1] == bs[..i] + [bs[i]];
    LanePlanConcat(bs[..i], bs[i], remote);
  }

  lemma LanePlanConcat(front: seq<BranchProtection>, b: BranchProtection, remote: Remote)
    ensures LanePlan(front + [b], remote) == LanePlan(front, remote) + [BranchPlan(b, Get(remote, b.pattern))]
  {
    var all := front + [b];
    forall j | 0 <= j < |front| ensures LanePlan(all, remote)[j] == LanePlan(front, remote)[j] {
      assert all[j] == front[j];
    }
  }

  method PlanBranch(b: BranchProtection, got: Option<Protected>) returns (d: Entry)
    ensures d == BranchPlan(b, got)
  {
    var live := DecodeProtection(if got.Some? then Some(ReadBack(got.value)) else None);
    d := SingleResource("branches." + b.pattern, live, Some(DesiredDoc(b)));
  }

  // What the planning loops give: the records by pattern, the plans and the actionable ones.
  datatype Planning = Planning(byPattern: map<string, BranchProtection>, diffs: seq<Entry>, actionable: seq<Entry>)

  function UnreadError(pattern: string, e: string): string {
    "get branch protection " + pattern + ": " + e
  }

  // The first record whose protection cannot be read; that a branch is not protected is no
  // failure.
  ghost predicate FirstUnread(bs: seq<BranchProtection>, fail: string -> Option<string>, i: nat) {
    i < |bs| && fail(bs[i].pattern).Some? && forall j :: 0 <= j < i ==> fail(bs[j].pattern).None?
  }

  // The planning loops of the lane. `fail` says for which patterns the GET fails. A dry run
  // has nothing to act on.
  method PlanLane(bs: seq<BranchProtection>, remote: Remote, fail: string -> Option<string>, dryRun: bool)
    returns (r: Result<Planning, string>)
    ensures r.Ok? <==> forall i :: 0 <= i < |bs| ==> fail(bs[i].pattern).None?
    ensures forall i: nat :: FirstUnread(bs, fail, i) ==>
              r == Err("get branch protection " + bs[i].pattern + ": " + fail(bs[i].pattern).value)
    ensures r.Ok? ==> r.value == Planning(ByPattern(bs), LanePlan(bs, remote),
                                          if dryRun then [] else Filtered(LanePlan(bs, remote)))
  {
    var byPattern: map<string, BranchProtection> := map[];
    var diffs: seq<Entry> := [];
    for i := 0 to |bs|
      invariant forall j :: 0 <= j < i ==> fail(bs[j].pattern).None?
      invariant diffs == LanePlan(bs[..i], remote)
      invariant byPattern == ByPattern(bs[..i])
    {
      var b := bs[i];
      ByPatternNext(bs, i);
      byPattern := byPattern[b.pattern := b];
      var err := fail(b.pattern);
      if err.Some? {
        return Err(UnreadError(b.pattern, err.value));
      }
      LanePlanNext(bs, remote, i);
      var d := PlanBranch(b, Get(remote, b.pattern));
      diffs := diffs + [d];
    }
    assert bs[..|bs|] == bs;
    if dryRun {
      return Ok(Planning(byPattern, diffs, []));
    }
    var actionable := Actionable(diffs);
    return Ok(Planning(byPattern, diffs, actionable));
  }

  // ---------------------------------------------------------------- the jobs of the lane

  function PatternOf(d: Entry): string {
    TrimPrefix(d.resource, "branches.")
  }

  // The job of an actionable plan, as the lane sets it up: the pattern is cut out of the
  // resource and the record looked up by it.
  ghost function JobOf(d: Entry, byPattern: map<string, BranchProtection>): Job<Protected> {
    var pattern := PatternOf(d);
    Job(pattern, d.resource, if pattern in byPattern then RequestsFor(byPattern[pattern], d) else [])
  }

  ghost function LaneJobs(bs: seq<BranchProtection>, remote: Remote): (jobs: seq<Job<Protected>>)
    ensures |jobs| == |Filtered(LanePlan(bs, remote))|
  {
    var entries := Filtered(LanePlan(bs, remote));
    seq(|entries|, j requires 0 <= j < |entries| => JobOf(entries[j], ByPattern(bs)))
  }

  // The plans that are kept, by the place of their record.
  ghost function KeptPlaces(diffs: seq<Entry>): seq<nat> {
    if diffs == [] then []
    else
      var n := |diffs| - 1;
      KeptPlaces(diffs[..n]) + if diffs[n].action != Noop then [n] else []
  }

  lemma {:induction false} FilteredPlaces(diffs: seq<Entry>)
    ensures |Filtered(diffs)| == |KeptPlaces(diffs)|
    ensures forall j :: 0 <= j < |KeptPlaces(diffs)| ==>
              KeptPlaces(diffs)[j] < |diffs| && Filtered(diffs)[j] == diffs[KeptPlaces(diffs)[j]]
              && diffs[KeptPlaces(diffs)[j]].action != Noop
    ensures forall i, j :: 0 <= i < j < |KeptPlaces(diffs)| ==> KeptPlaces(diffs)[i] < KeptPlaces(diffs)[j]
    ensures forall i: nat :: i < |diffs| && diffs[i].action != Noop ==> i in KeptPlaces(diffs)
  {
    if diffs != [] {
      FilteredPlaces(diffs[..|diffs| - 1]);
    }
  }

  // Each job is the one its own record asks for.
  lemma LaneJob(bs: seq<BranchProtection>, remote: Remote, j: nat) returns (i: nat)
    requires DistinctPatterns(bs) && j < |LaneJobs(bs, remote)|
    ensures |KeptPlaces(LanePlan(bs, remote))| == |LaneJobs(bs, remote)| && i == KeptPlaces(LanePlan(bs, remote))[j]
    ensures i < |bs| && BranchPlan(bs[i], Get(remote, bs[i].pattern)).action != Noop
    ensures LaneJobs(bs, remote)[j] ==
            Job(bs[i].pattern, "branches." + bs[i].pattern, RequestsFor(bs[i], BranchPlan(bs[i], Get(remote, bs[i].pattern))))
  {
    FilteredPlaces(LanePlan(bs, remote));
    i := KeptPlaces(LanePlan(bs, remote))[j];
    TrimOwnPrefix(bs[i].pattern);
    ByPatternFinds(bs, i);
    assert Filtered(LanePlan(bs, remote))[j] == BranchPlan(bs[i], Get(remote, bs[i].pattern));
  }

  lemma LaneJobsDistinct(bs: seq<BranchProtection>, remote: Remote)
    requires DistinctPatterns(bs)
    ensures DistinctKeys(LaneJobs(bs, remote))
  {
    var jobs := LaneJobs(bs, remote);
    FilteredPlaces(LanePlan(bs, remote));
    forall a, b | 0 <= a < b < |jobs| ensures jobs[a].key != jobs[b].key {
      var i := LaneJob(bs, remote, a);
      var k := LaneJob(bs, remote, b);
    }
  }

  // A branch whose plan is not a no-op has a job; a branch that plans one has none.
  lemma JobForBranch(bs: seq<BranchProtection>, remote: Remote, i: nat) returns (j: nat)
    requires DistinctPatterns(bs) && i < |bs|
    requires BranchPlan(bs[i], Get(remote, bs[i].pattern)).action != Noop
    ensures j < |LaneJobs(bs, remote)| && LaneJobs(bs, remote)[j].key == bs[i].pattern
    ensures LaneJobs(bs, remote)[j].requests == RequestsFor(bs[i], BranchPlan(bs[i], Get(remote, bs[i].pattern)))
  {
    var places := KeptPlaces(LanePlan(bs, remote));
    FilteredPlaces(LanePlan(bs, remote));
    assert LanePlan(bs, remote)[i].action != Noop;
    j :| 0 <= j < |places| && places[j] == i;
    var k := LaneJob(bs, remote, j);
  }

  lemma NoJobForIdle(bs: seq<BranchProtection>, remote: Remote, pattern: string)
    requires DistinctPatterns(bs)
    requires forall i :: 0 <= i < |bs| && bs[i].pattern == pattern ==> BranchPlan(bs[i], Get(remote, pattern)).action == Noop
    ensures forall j :: 0 <= j < |LaneJobs(bs, remote)| ==> LaneJobs(bs, remote)[j].key != pattern
  {
    forall j | 0 <= j < |LaneJobs(bs, remote)| ensures LaneJobs(bs, remote)[j].key != pattern {
      var i := LaneJob(bs, remote, j);
    }
  }

  // A finished run of the lane's jobs in which every job applied leaves each branch as its
  // plan's requests do.
  lemma LaneEffect(bs: seq<BranchProtection>, remote: Remote, workers: nat, cancelErr: string,
                   states: seq<State<Protected>>, steps: seq<Step>, i: nat)
    requires DistinctPatterns(bs) && i < |bs|
    requires Finished(LaneJobs(bs, remote), remote, workers, cancelErr, states, steps)
    requires AllApplied(LaneJobs(bs, remote), states[|steps|])
    ensures Get(states[|steps|].remote, bs[i].pattern) == AfterApply(bs[i], Get(remote, bs[i].pattern))
  {
    var jobs, live := LaneJobs(bs, remote), Get(remote, bs[i].pattern);
    LaneJobsDistinct(bs, remote);
    if BranchPlan(bs[i], live).action != Noop {
      var j := JobForBranch(bs, remote, i);
      FinishedJob(jobs, remote, workers, cancelErr, states, steps, j);
    } else {
      NoJobForIdle(bs, remote, bs[i].pattern);
      OthersUntouched(jobs, remote, workers, cancelErr, states, steps, bs[i].pattern);
      assert RequestsFor(bs[i], BranchPlan(bs[i], live)) == [];
    }
  }

  // So on any schedule, after such a run every branch whose record states the admins
  // switch plans a no-op.
  lemma LaneConverges(bs: seq<BranchProtection>, remote: Remote, workers: nat, cancelErr: string,
                      states: seq<State<Protected>>, steps: seq<Step>, i: nat)
    requires DistinctPatterns(bs) && i < |bs| && bs[i].enforceAdmins.Some?
    requires Finished(LaneJobs(bs, remote), remote, workers, cancelErr, states, steps)
    requires AllApplied(LaneJobs(bs, remote), states[|steps|])
    ensures LanePlan(bs, states[|steps|].remote)[i].action == Noop
  {
    LaneEffect(bs, remote, workers, cancelErr, states, steps, i);
    BranchConverges(bs[i], Get(remote, bs[i].pattern));
  }

  // A branch the configuration does not list is not touched, on any schedule.
  lemma UnlistedBranchUntouched(bs: seq<BranchProtection>, remote: Remote, workers: nat, cancelErr: string,
                                states: seq<State<Protected>>, steps: seq<Step>, pattern: string)
    requires DistinctPatterns(bs) && forall i :: 0 <= i < |bs| ==> bs[i].pattern != pattern
    requires Run(LaneJobs(bs, remote), remote, workers, cancelErr, states, steps)
    ensures Get(states[|steps|].remote, pattern) == Get(remote, pattern)
  {
    LaneJobsDistinct(bs, remote);
    NoJobForIdle(bs, remote, pattern);
    OthersUntouched(LaneJobs(bs, remote), remote, workers, cancelErr, states, steps, pattern);
  }
}
