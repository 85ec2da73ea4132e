/**
  Plans over whole resources (internal/diff/diff.go): SingleResource for one document,
  NamedList for two lists keyed by one field.

  The rendering of a key value (fmt.Sprint) is a parameter.
*/
module Plan {
  import opened Wrappers
  import opened Strings
  import opened Diff

  datatype Action = Create | Update | Delete | Noop

  datatype Entry = Entry(resource: string, action: Action, current: Option<Doc>, desired: Option<Doc>,
                         changes: seq<FieldChange>)

  // Every key of a new document, as a change from nothing.
  ghost function NewChanges(des: Doc): seq<FieldChange> {
    var keys := Listing(des.Keys);
    seq(|keys|, i requires 0 <= i < |keys| => FieldChange(keys[i], Null, ListedValue(des, keys, i)))
  }

  ghost function ListedValue(des: Doc, keys: seq<string>, i: nat): Json
    requires i < |keys| && Elements(keys) == des.Keys
  {
    assert keys[i] in Elements(keys);
    des[keys[i]]
  }

  // The plan for a document that may be absent on either side.
  ghost function PlanFor(resource: string, cur: Option<Doc>, des: Option<Doc>): Entry {
    if cur.None? && des.None? then Entry(resource, Noop, None, None, [])
    else if cur.None? then Entry(resource, Create, None, des, NewChanges(des.value))
    else if des.None? then Entry(resource, Delete, cur, None, [])
    else
      var changes := RenderAll("", Changes(cur.value, des.value));
      Entry(resource, if changes == [] then Noop else Update, cur, des, changes)
  }

  // A plan carries both documents it was made from, and acts by which of them there are.
  lemma PlanMeans(resource: string, cur: Option<Doc>, des: Option<Doc>)
    ensures var d := PlanFor(resource, cur, des);
            && d.resource == resource && d.current == cur && d.desired == des
            && (d.action == Create <==> cur.None? && des.Some?)
            && (d.action == Delete <==> cur.Some? && des.None?)
            && (d.action == Update <==>
                  cur.Some? && des.Some? && !Covers(Object(cur.value), Object(des.value)))
            && (d.action == Noop || d.action == Delete ==> d.changes == [])
  {
    NoopMeansCovered(resource, cur, des);
  }

  // A plan is a no-op exactly when both sides are absent or the current one covers the
  // desired one.
  lemma NoopMeansCovered(resource: string, cur: Option<Doc>, des: Option<Doc>)
    ensures PlanFor(resource, cur, des).action == Noop <==>
            (cur.None? && des.None?) || (cur.Some? && des.Some? && Covers(Object(cur.value), Object(des.value)))
  {
    if cur.Some? && des.Some? {
      NothingReported(Object(cur.value), Object(des.value));
    }
  }

  lemma NewChangesNext(des: Doc, i: nat)
    requires i < |Listing(des.Keys)|
    ensures |NewChanges(des)| == |Listing(des.Keys)| && Listing(des.Keys)[i] in des
    ensures NewChanges(des)[..i + 1] ==
            NewChanges(des)[..i] + [FieldChange(Listing(des.Keys)[i], Null, des[Listing(des.Keys)[i]])]
  {
    assert Listing(des.Keys)[i] in Elements(Listing(des.Keys));
  }

  method CreateChanges(desired: Doc) returns (changes: seq<FieldChange>)
    ensures changes == NewChanges(desired)
  {
    var keys := SortedKeys(desired.Keys);
    changes := [];
    for i := 0 to |keys|
      invariant |NewChanges(desired)| == |keys| && changes == NewChanges(desired)[..i]
    {
      NewChangesNext(desired, i);
      changes := changes + [FieldChange(keys[i], Null, desired[keys[i]])];
    }
  }

  method SingleResource(resource: string, current: Option<Doc>, desired: Option<Doc>) returns (d: Entry)
    ensures d == PlanFor(resource, current, desired)
  {
    if current.None? && desired.None? {
      return Entry(resource, Noop, None, None, []);
    }
    if current.None? {
      var changes := CreateChanges(desired.value);
      return Entry(resource, Create, None, desired, changes);
    }
    if desired.None? {
      return Entry(resource, Delete, current, None, []);
    }
    var changes := Fields(current.value, desired.value, "");
    var action := Noop;
    if |changes| > 0 {
      action := Update;
    }
    return Entry(resource, action, current, desired, changes);
  }

  // ---------------------------------------------------------------- lists

  type Index = map<string, Doc>

  // indexBy: the last item of a key wins; items without the key field are passed over.
  function IndexOf(items: seq<Doc>, keyField: string, sprint: Json -> string): Index {
    if items == [] then map[]
    else
      var front, last := IndexOf(items[..|items| - 1], keyField, sprint), items[|items| - 1];
      if keyField in last then front[sprint(last[keyField]) := last] else front
  }

  // Item i is the last one with key k.
  ghost predicate LastWith(items: seq<Doc>, keyField: string, sprint: Json -> string, k: string, i: nat) {
    && i < |items| && keyField in items[i] && sprint(items[i][keyField]) == k
    && forall j :: i < j < |items| && keyField in items[j] ==> sprint(items[j][keyField]) != k
  }

  ghost predicate Carried(items: seq<Doc>, keyField: string, sprint: Json -> string, k: string, i: nat) {
    i < |items| && keyField in items[i] && sprint(items[i][keyField]) == k
  }

  // A key is indexed exactly when an item carries it.
  lemma {:induction false} IndexedKeys(items: seq<Doc>, keyField: string, sprint: Json -> string, k: string)
    ensures k in IndexOf(items, keyField, sprint) <==> exists i: nat :: Carried(items, keyField, sprint, k, i)
  {
    if items != [] {
      var n := |items| - 1;
      IndexedKeys(items[..n], keyField, sprint, k);
      if i: nat :| Carried(items[..n], keyField, sprint, k, i) {
        assert Carried(items, keyField, sprint, k, i);
      }
      if i: nat :| Carried(items, keyField, sprint, k, i) {
        assert i < n ==> Carried(items[..n], keyField, sprint, k, i);
      }
      assert keyField in items[n] && sprint(items[n][keyField]) == k ==> Carried(items, keyField, sprint, k, n);
    }
  }

  // And to the last one that does.
  lemma {:induction false} LastIsIndexed(items: seq<Doc>, keyField: string, sprint: Json -> string, k: string, i: nat)
    requires LastWith(items, keyField, sprint, k, i)
    ensures Get(IndexOf(items, keyField, sprint), k) == Some(items[i])
  {
    var n := |items| - 1;
    if i < n {
      assert LastWith(items[..n], keyField, sprint, k, i);
      LastIsIndexed(items[..n], keyField, sprint, k, i);
    }
  }

  method IndexBy(items: seq<Doc>, keyField: string, sprint: Json -> string) returns (out: Index)
    ensures out == IndexOf(items, keyField, sprint)
  {
    out := map[];
    for i := 0 to |items|
      invariant out == IndexOf(items[..i], keyField, sprint)
    {
      assert items[..i + 1][..i] == items[..i];
      if keyField !in items[i] {
        continue;
      }
      out := out[sprint(items[i][keyField]) := items[i]];
    }
    assert items[..|items|] == items;
  }

  function Only(keys: seq<string>, keep: set<string>): seq<string> {
    if keys == [] then []
    else if keys[0] in keep then [keys[0]] + Only(keys[1..], keep)
    else Only(keys[1..], keep)
  }

  lemma {:induction false} OnlyMembers(keys: seq<string>, keep: set<string>)
    ensures forall k :: k in Only(keys, keep) <==> k in keys && k in keep
    ensures NoDuplicates(keys) ==> NoDuplicates(Only(keys, keep))
  {
    if keys != [] {
      OnlyMembers(keys[1..], keep);
      assert keys == [keys[0]] + keys[1..];
    }
  }

  lemma {:induction false} OnlyAppend(keys: seq<string>, keep: set<string>, i: nat)
    requires i < |keys|
    ensures Only(keys[..i + 1], keep) == Only(keys[..i], keep) + if keys[i] in keep then [keys[i]] else []
  {
    if i > 0 {
      OnlyAppend(keys[1..], keep, i - 1);
      assert keys[..i + 1][1..] == keys[1..][..i] && keys[..i][1..] == keys[1..][..i - 1];
    } else {
      assert keys[..1] == [keys[0]] && keys[..0] == [];
    }
  }

  // The order of a plan: creates, then keys on both sides, then deletes.
  ghost function PlanOrder(cur: Index, des: Index): seq<string> {
    Only(Listing(des.Keys), des.Keys - cur.Keys)
    + Only(Listing(des.Keys), cur.Keys)
    + Only(Listing(cur.Keys), cur.Keys - des.Keys)
  }

  ghost function PlanKeys(resource: string, cur: Index, des: Index, keys: seq<string>): (r: seq<Entry>)
    ensures |r| == |keys|
  {
    seq(|keys|, i requires 0 <= i < |keys| => PlanFor(resource + "." + keys[i], Get(cur, keys[i]), Get(des, keys[i])))
  }

  ghost function NamedPlan(resource: string, cur: Index, des: Index): seq<Entry> {
    PlanKeys(resource, cur, des, PlanOrder(cur, des))
  }

  // The plan looks at each key of either side once.
  lemma PlanOrderKeys(cur: Index, des: Index)
    ensures forall k :: k in PlanOrder(cur, des) <==> k in cur || k in des
    ensures NoDuplicates(PlanOrder(cur, des))
  {
    var cs, ds := Listing(cur.Keys), Listing(des.Keys);
    OnlyMembers(ds, des.Keys - cur.Keys);
    OnlyMembers(ds, cur.Keys);
    OnlyMembers(cs, cur.Keys - des.Keys);
    assert forall k :: k in cs <==> k in Elements(cs);
    assert forall k :: k in ds <==> k in Elements(ds);
    ApartConcat(Only(ds, des.Keys - cur.Keys), Only(ds, cur.Keys));
    ApartConcat(Only(ds, des.Keys - cur.Keys) + Only(ds, cur.Keys), Only(cs, cur.Keys - des.Keys));
  }

  lemma ApartConcat(a: seq<string>, b: seq<string>)
    requires NoDuplicates(a) && NoDuplicates(b) && forall k :: k in a ==> k !in b
    ensures NoDuplicates(a + b)
  {
    forall i, j | 0 <= i < j < |a + b| ensures (a + b)[i] != (a + b)[j] {
      if i < |a| <= j { assert a[i] in a && b[j - |a|] in b; }
    }
  }

  lemma PlanKeysAppend(resource: string, cur: Index, des: Index, a: seq<string>, b: seq<string>)
    ensures PlanKeys(resource, cur, des, a + b) == PlanKeys(resource, cur, des, a) + PlanKeys(resource, cur, des, b)
  {}

  method NamedList(resource: string, current: seq<Doc>, desired: seq<Doc>, keyField: string, sprint: Json -> string)
    returns (results: seq<Entry>)
    ensures results == NamedPlan(resource, IndexOf(current, keyField, sprint), IndexOf(desired, keyField, sprint))
  {
    var curIdx := IndexBy(current, keyField, sprint);
    var desIdx := IndexBy(desired, keyField, sprint);
    var creates := PlanCreates(resource, curIdx, desIdx);
    var updates := PlanUpdates(resource, curIdx, desIdx);
    var deletes := PlanDeletes(resource, curIdx, desIdx);
    results := creates + updates + deletes;
    ghost var a := Only(Listing(desIdx.Keys), desIdx.Keys - curIdx.Keys);
    ghost var b := Only(Listing(desIdx.Keys), curIdx.Keys);
    PlanKeysAppend(resource, curIdx, desIdx, a, b);
    PlanKeysAppend(resource, curIdx, desIdx, a + b, Only(Listing(curIdx.Keys), curIdx.Keys - desIdx.Keys));
  }

  // What one key adds to a plan being built.
  lemma PlanStep(resource: string, cur: Index, des: Index, keys: seq<string>, keep: set<string>, i: nat)
    requires i < |keys|
    ensures PlanKeys(resource, cur, des, Only(keys[..i + 1], keep)) ==
            PlanKeys(resource, cur, des, Only(keys[..i], keep))
            + if keys[i] in keep then [PlanFor(resource + "." + keys[i], Get(cur, keys[i]), Get(des, keys[i]))] else []
  {
    OnlyAppend(keys, keep, i);
    PlanKeysAppend(resource, cur, des, Only(keys[..i], keep), [keys[i]]);
  }

  lemma CreateStep(resource: string, cur: Index, des: Index, keys: seq<string>, i: nat)
    requires i < |keys| && keys[i] in des
    ensures PlanKeys(resource, cur, des, Only(keys[..i + 1], des.Keys - cur.Keys)) ==
            PlanKeys(resource, cur, des, Only(keys[..i], des.Keys - cur.Keys))
            + if keys[i] in cur then []
              else [Entry(resource + "." + keys[i], Create, None, Some(des[keys[i]]), NewChanges(des[keys[i]]))]
  {
    PlanStep(resource, cur, des, keys, des.Keys - cur.Keys, i);
  }

  lemma DeleteStep(resource: string, cur: Index, des: Index, keys: seq<string>, i: nat)
    requires i < |keys| && keys[i] in cur
    ensures PlanKeys(resource, cur, des, Only(keys[..i + 1], cur.Keys - des.Keys)) ==
            PlanKeys(resource, cur, des, Only(keys[..i], cur.Keys - des.Keys))
            + if keys[i] in des then [] else [Entry(resource + "." + keys[i], Delete, Some(cur[keys[i]]), None, [])]
  {
    PlanStep(resource, cur, des, keys, cur.Keys - des.Keys, i);
  }

  // The three loops of NamedList.
  method PlanCreates(resource: string, curIdx: Index, desIdx: Index) returns (results: seq<Entry>)
    ensures results == PlanKeys(resource, curIdx, desIdx, Only(Listing(desIdx.Keys), desIdx.Keys - curIdx.Keys))
  {
    results := [];
    var keys := SortedKeys(desIdx.Keys);
    for i := 0 to |keys|
      invariant results == PlanKeys(resource, curIdx, desIdx, Only(keys[..i], desIdx.Keys - curIdx.Keys))
    {
      var key := keys[i];
      assert key in Elements(keys);
      CreateStep(resource, curIdx, desIdx, keys, i);
      if key in curIdx {
        continue;
      }
      var changes := CreateChanges(desIdx[key]);
      results := results + [Entry(resource + "." + key, Create, None, Some(desIdx[key]), changes)];
    }
    assert keys[..|keys|] == keys;
  }

  method PlanUpdates(resource: string, curIdx: Index, desIdx: Index) returns (results: seq<Entry>)
    ensures results == PlanKeys(resource, curIdx, desIdx, Only(Listing(desIdx.Keys), curIdx.Keys))
  {
    results := [];
    var keys := SortedKeys(desIdx.Keys);
    for i := 0 to |keys|
      invariant results == PlanKeys(resource, curIdx, desIdx, Only(keys[..i], curIdx.Keys))
    {
      var key := keys[i];
      PlanStep(resource, curIdx, desIdx, keys, curIdx.Keys, i);
      assert key in Elements(keys);
      if key !in curIdx {
        continue;
      }
      var changes := Fields(curIdx[key], desIdx[key], "");
      var action := Noop;
      if |changes| > 0 {
        action := Update;
      }
      results := results + [Entry(resource + "." + key, action, Some(curIdx[key]), Some(desIdx[key]), changes)];
    }
    assert keys[..|keys|] == keys;
  }

  method PlanDeletes(resource: string, curIdx: Index, desIdx: Index) returns (results: seq<Entry>)
    ensures results == PlanKeys(resource, curIdx, desIdx, Only(Listing(curIdx.Keys), curIdx.Keys - desIdx.Keys))
  {
    results := [];
    var keys := SortedKeys(curIdx.Keys);
    for i := 0 to |keys|
      invariant results == PlanKeys(resource, curIdx, desIdx, Only(keys[..i], curIdx.Keys - desIdx.Keys))
    {
      var key := keys[i];
      assert key in Elements(keys);
      DeleteStep(resource, curIdx, desIdx, keys, i);
      if key in desIdx {
        continue;
      }
      results := results + [Entry(resource + "." + key, Delete, Some(curIdx[key]), None, [])];
    }
    assert keys[..|keys|] == keys;
  }

  // ---------------------------------------------------------------- what a plan says

  // New keys come first, then the keys on both sides, then those to be deleted.
  function Rank(cur: Index, des: Index, k: string): nat {
    if k !in cur then 0 else if k in des then 1 else 2
  }

  ghost predicate PlanBefore(cur: Index, des: Index, j: string, k: string) {
    Rank(cur, des, j) < Rank(cur, des, k) || (Rank(cur, des, j) == Rank(cur, des, k) && StrLess(j, k))
  }

  // Leaving out keys keeps the order of the others.
  lemma {:induction false} OnlyAscending(keys: seq<string>, keep: set<string>)
    requires Ascending(keys)
    ensures Ascending(Only(keys, keep))
  {
    if keys != [] {
      assert Ascending(keys[1..]);
      OnlyAscending(keys[1..], keep);
      OnlyMembers(keys[1..], keep);
      var rest := Only(keys[1..], keep);
      forall i | 0 <= i < |rest| ensures StrLess(keys[0], rest[i]) {
        assert rest[i] in rest;
        var j :| 0 <= j < |keys[1..]| && keys[1..][j] == rest[i];
        assert keys[j + 1] == rest[i];
      }
    }
  }

  ghost predicate InPlanOrder(cur: Index, des: Index, keys: seq<string>) {
    forall i, j :: 0 <= i < j < |keys| ==> PlanBefore(cur, des, keys[i], keys[j])
  }

  ghost predicate RankedAs(cur: Index, des: Index, keys: seq<string>, rank: nat) {
    forall i :: 0 <= i < |keys| ==> Rank(cur, des, keys[i]) == rank
  }

  lemma OneRank(cur: Index, des: Index, keys: seq<string>, rank: nat)
    requires Ascending(keys) && RankedAs(cur, des, keys, rank)
    ensures InPlanOrder(cur, des, keys)
  {}

  lemma RanksConcat(cur: Index, des: Index, a: seq<string>, b: seq<string>)
    requires InPlanOrder(cur, des, a) && InPlanOrder(cur, des, b)
    requires forall i, j :: 0 <= i < |a| && 0 <= j < |b| ==> Rank(cur, des, a[i]) < Rank(cur, des, b[j])
    ensures InPlanOrder(cur, des, a + b)
  {}

  // The plan of two lists, entry by entry: in the order above it holds the plan of each
  // key's own documents.
  lemma PlanEntries(resource: string, cur: Index, des: Index)
    ensures var order, plan := PlanOrder(cur, des), NamedPlan(resource, cur, des);
            && |plan| == |order| && InPlanOrder(cur, des, order)
            && forall i :: 0 <= i < |plan| ==>
                 plan[i] == PlanFor(resource + "." + order[i], Get(cur, order[i]), Get(des, order[i]))
  {
    var a, b, c := Only(Listing(des.Keys), des.Keys - cur.Keys), Only(Listing(des.Keys), cur.Keys),
                   Only(Listing(cur.Keys), cur.Keys - des.Keys);
    OnlyAscending(Listing(des.Keys), des.Keys - cur.Keys);
    OnlyAscending(Listing(des.Keys), cur.Keys);
    OnlyAscending(Listing(cur.Keys), cur.Keys - des.Keys);
    RanksOf(cur, des);
    OneRank(cur, des, a, 0);
    OneRank(cur, des, b, 1);
    OneRank(cur, des, c, 2);
    RanksConcat(cur, des, a, b);
    assert forall i :: 0 <= i < |a + b| ==> Rank(cur, des, (a + b)[i]) <= 1;
    RanksConcat(cur, des, a + b, c);
  }

  lemma Ranked(cur: Index, des: Index, keys: seq<string>, keep: set<string>, rank: nat)
    requires forall k :: k in keys && k in keep ==> Rank(cur, des, k) == rank
    ensures RankedAs(cur, des, Only(keys, keep), rank)
  {
    OnlyMembers(keys, keep);
    forall i | 0 <= i < |Only(keys, keep)| ensures Rank(cur, des, Only(keys, keep)[i]) == rank {
      assert Only(keys, keep)[i] in Only(keys, keep);
    }
  }

  lemma RanksOf(cur: Index, des: Index)
    ensures RankedAs(cur, des, Only(Listing(des.Keys), des.Keys - cur.Keys), 0)
    ensures RankedAs(cur, des, Only(Listing(des.Keys), cur.Keys), 1)
    ensures RankedAs(cur, des, Only(Listing(cur.Keys), cur.Keys - des.Keys), 2)
  {
    var cs, ds := Listing(cur.Keys), Listing(des.Keys);
    assert forall k :: k in ds <==> k in Elements(ds);
    Ranked(cur, des, ds, des.Keys - cur.Keys, 0);
    Ranked(cur, des, ds, cur.Keys, 1);
    Ranked(cur, des, cs, cur.Keys - des.Keys, 2);
  }

  ghost predicate AllNoop(plan: seq<Entry>) {
    forall i :: 0 <= i < |plan| ==> plan[i].action == Noop
  }

  // The live index satisfies the desired one: same keys, each item covered.
  ghost predicate Satisfies(cur: Index, des: Index) {
    cur.Keys == des.Keys && forall k :: k in des ==> Covers(Object(cur[k]), Object(des[k]))
  }

  // Entry i of a plan is a no-op exactly when its key is on both sides and covered.
  lemma EntryNoop(resource: string, cur: Index, des: Index, i: nat)
    requires i < |PlanOrder(cur, des)|
    ensures var k := PlanOrder(cur, des)[i];
            NamedPlan(resource, cur, des)[i].action == Noop <==>
            k in cur && k in des && Covers(Object(cur[k]), Object(des[k]))
  {
    var k := PlanOrder(cur, des)[i];
    PlanOrderKeys(cur, des);
    assert k in PlanOrder(cur, des);
    NoopMeansCovered(resource + "." + k, Get(cur, k), Get(des, k));
  }

  // A plan has nothing to do exactly when the live index satisfies the desired one.
  lemma NothingToDo(resource: string, cur: Index, des: Index)
    ensures AllNoop(NamedPlan(resource, cur, des)) <==> Satisfies(cur, des)
  {
    if Satisfies(cur, des) {
      SatisfiedIsNoop(resource, cur, des);
    }
    if AllNoop(NamedPlan(resource, cur, des)) {
      NoopIsSatisfied(resource, cur, des);
    }
  }

  lemma SatisfiedIsNoop(resource: string, cur: Index, des: Index)
    requires Satisfies(cur, des)
    ensures AllNoop(NamedPlan(resource, cur, des))
  {
    PlanOrderKeys(cur, des);
    var order, plan := PlanOrder(cur, des), NamedPlan(resource, cur, des);
    forall i | 0 <= i < |plan| ensures plan[i].action == Noop {
      assert order[i] in order;
      assert order[i] in cur.Keys && order[i] in des.Keys;
      EntryNoop(resource, cur, des, i);
    }
  }

  lemma NoopIsSatisfied(resource: string, cur: Index, des: Index)
    requires AllNoop(NamedPlan(resource, cur, des))
    ensures Satisfies(cur, des)
  {
    PlanOrderKeys(cur, des);
    forall k | k in cur.Keys || k in des.Keys ensures k in cur && k in des && Covers(Object(cur[k]), Object(des[k])) {
      var i := IndexInOrder(PlanOrder(cur, des), k);
      EntryNoop(resource, cur, des, i);
    }
  }

  lemma IndexInOrder(order: seq<string>, k: string) returns (i: nat)
    requires k in order
    ensures i < |order| && order[i] == k
  {
    i :| 0 <= i < |order| && order[i] == k;
  }

  // Keys whose plan is not a no-op.
  ghost function ActionableKeys(cur: Index, des: Index): set<string> {
    set k | k in cur.Keys + des.Keys && PlanFor("", Get(cur, k), Get(des, k)).action != Noop
  }

  // The actionable entries of a plan, in plan order, are the plans of exactly the
  // actionable keys.
  lemma ActionableEntries(resource: string, cur: Index, des: Index, i: nat)
    requires i < |NamedPlan(resource, cur, des)|
    ensures NamedPlan(resource, cur, des)[i].action != Noop <==> PlanOrder(cur, des)[i] in ActionableKeys(cur, des)
  {
    var k := PlanOrder(cur, des)[i];
    PlanOrderKeys(cur, des);
    assert k in PlanOrder(cur, des);
    NoopMeansCovered(resource + "." + k, Get(cur, k), Get(des, k));
    NoopMeansCovered("", Get(cur, k), Get(des, k));
  }

  // ---------------------------------------------------------------- what is acted on

  function Filtered(diffs: seq<Entry>): seq<Entry> {
    if diffs == [] then []
    else Filtered(diffs[..|diffs| - 1]) + if diffs[|diffs| - 1].action != Noop then [diffs[|diffs| - 1]] else []
  }

  method Actionable(diffs: seq<Entry>) returns (actionable: seq<Entry>)
    ensures actionable == Filtered(diffs)
  {
    actionable := [];
    for i := 0 to |diffs|
      invariant actionable == Filtered(diffs[..i])
    {
      assert diffs[..i + 1][..i] == diffs[..i];
      if diffs[i].action != Noop {
        actionable := actionable + [diffs[i]];
      }
    }
    assert diffs[..|diffs|] == diffs;
  }
}
