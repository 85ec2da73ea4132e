/**
  The strict boolean walk (internal/yamlstrict/bools.go): a depth-first search over
  pairs of a YAML node and a Go type, with a visited set, that reports every boolean
  field whose value is not a YAML boolean.

  YamlGraph says what leads from one pair to the next.
*/
module BoolWalk {
  import opened Wrappers
  import Strings
  import opened YamlGraph

  // ---------------------------------------------------------------- the walk

  // The pairs still to be seen: what the walk terminates on.
  ghost function Unseen(inp: Input, seen: set<Visit>): set<Visit> {
    set n, t | n in inp.nodes && t in inp.types && Visit(n, t) !in seen :: Visit(n, t)
  }

  lemma UnseenShrinks(inp: Input, seen: set<Visit>, v: Visit)
    requires InInput(inp, v) && v !in seen
    ensures Unseen(inp, seen + {v}) == Unseen(inp, seen) - {v}
    ensures |Unseen(inp, seen + {v})| < |Unseen(inp, seen)|
  {
    assert v in Unseen(inp, seen);
  }

  // The call leads to no pair outside `seen`.
  ghost predicate Handled(inp: Input, c: Call, seen: set<Visit>) {
    CallOk(inp, c) && (Resolve(inp, c).Some? ==> Resolve(inp, c).value.visit in seen)
  }

  ghost predicate AllHandled(inp: Input, cs: seq<Call>, seen: set<Visit>) {
    forall i :: 0 <= i < |cs| ==> Handled(inp, cs[i], seen)
  }

  // Everything one step from v is in `seen`, by whatever path v is looked at.
  ghost predicate Expanded(inp: Input, v: Visit, seen: set<Visit>)
    requires inp.Closed() && InInput(inp, v)
  {
    forall path :: AllHandled(inp, CallsFrom(inp, Stop(v, path)), seen)
  }

  // Two call lists that agree but for the paths.
  ghost predicate SameButPath(cs: seq<Call>, ds: seq<Call>) {
    |cs| == |ds| && forall i :: 0 <= i < |cs| ==> cs[i].node == ds[i].node && cs[i].typ == ds[i].typ
  }

  lemma {:induction false} MappingCallsSame(inp: Input, content: seq<NodeId>, i: nat, t: TypeId, p: string, q: string)
    requires t in inp.types && (inp.types[t].shape.Map? || inp.types[t].shape.Struct?)
    requires forall j :: 0 <= j < |content| ==> content[j] in inp.nodes
    ensures SameButPath(MappingCalls(inp, content, i, t, p), MappingCalls(inp, content, i, t, q))
    decreases |content| - i
  {
    if i + 1 < |content| {
      var a, b := PairCalls(inp, content[i], content[i + 1], t, p), PairCalls(inp, content[i], content[i + 1], t, q);
      assert SameButPath(a, b);
      MappingCallsSame(inp, content, i + 2, t, p, q);
    }
  }

  // Where the walk goes from a pair does not depend on the path it came by.
  lemma ExpandedByOnePath(inp: Input, v: Visit, path: string, seen: set<Visit>)
    requires inp.Closed() && InInput(inp, v)
    requires AllHandled(inp, CallsFrom(inp, Stop(v, path)), seen)
    ensures Expanded(inp, v, seen)
  {
    var n, t := inp.nodes[v.node], inp.types[v.typ];
    forall q ensures AllHandled(inp, CallsFrom(inp, Stop(v, q)), seen) {
      var cs, ds := CallsFrom(inp, Stop(v, path)), CallsFrom(inp, Stop(v, q));
      if (t.shape.Map? || t.shape.Struct?) && n.kind == Mapping {
        MappingCallsSame(inp, n.content, 0, v.typ, path, q);
      }
      assert SameButPath(cs, ds);
      forall i | 0 <= i < |ds| ensures Handled(inp, ds[i], seen) {
        assert Handled(inp, cs[i], seen);
      }
    }
  }

  lemma HandledGrows(inp: Input, cs: seq<Call>, seen: set<Visit>, more: set<Visit>)
    requires AllHandled(inp, cs, seen) && seen <= more
    ensures AllHandled(inp, cs, more)
  {
    forall i | 0 <= i < |cs| ensures Handled(inp, cs[i], more) {
      assert Handled(inp, cs[i], seen);
    }
  }

  lemma ExpandedGrows(inp: Input, v: Visit, seen: set<Visit>, more: set<Visit>)
    requires inp.Closed() && InInput(inp, v) && Expanded(inp, v, seen) && seen <= more
    ensures Expanded(inp, v, more)
  {
    forall path ensures AllHandled(inp, CallsFrom(inp, Stop(v, path)), more) {
      HandledGrows(inp, CallsFrom(inp, Stop(v, path)), seen, more);
    }
  }

  ghost predicate AllExpanded(inp: Input, vs: set<Visit>, seen: set<Visit>) {
    inp.Closed() && forall v :: v in vs ==> InInput(inp, v) && Expanded(inp, v, seen)
  }

  lemma WithVisit(inp: Input, before: set<Visit>, visit: Visit, seen: set<Visit>)
    requires AllExpanded(inp, seen - (before + {visit}), seen)
    requires InInput(inp, visit) && Expanded(inp, visit, seen)
    ensures AllExpanded(inp, seen - before, seen)
  {
    forall v | v in seen - before ensures InInput(inp, v) && Expanded(inp, v, seen) {
      assert v == visit || v in seen - (before + {visit});
    }
  }

  lemma AllExpandedGrows(inp: Input, vs: set<Visit>, seen: set<Visit>, more: set<Visit>)
    requires AllExpanded(inp, vs, seen) && seen <= more
    ensures AllExpanded(inp, vs, more)
  {
    forall v | v in vs ensures InInput(inp, v) && Expanded(inp, v, more) {
      ExpandedGrows(inp, v, seen, more);
    }
  }

  lemma ReachedNext(inp: Input, root: Option<Stop>, s: Stop, c: Call)
    requires inp.Closed() && InInput(inp, s.visit) && ReachedAt(inp, root, s)
    requires c in CallsFrom(inp, s)
    ensures CallOk(inp, c) && CallReached(inp, root, c)
  {
    CallsFromOk(inp, s);
    if Resolve(inp, c).Some? {
      var route :| Route(inp, root, route) && route[|route| - 1] == s;
      var next := route + [Resolve(inp, c).value];
      assert Edge(inp, s, Resolve(inp, c).value);
      assert Route(inp, root, next);
      assert next[|next| - 1] == Resolve(inp, c).value;
    }
  }

  ghost predicate CallReached(inp: Input, root: Option<Stop>, c: Call)
    requires CallOk(inp, c)
  {
    Resolve(inp, c).Some? ==> ReachedAt(inp, root, Resolve(inp, c).value)
  }

  ghost predicate CallsReached(inp: Input, root: Option<Stop>, cs: seq<Call>) {
    forall i :: 0 <= i < |cs| ==> CallOk(inp, cs[i]) && CallReached(inp, root, cs[i])
  }

  lemma CallsFromReached(inp: Input, root: Option<Stop>, s: Stop)
    requires inp.Closed() && InInput(inp, s.visit) && ReachedAt(inp, root, s)
    ensures CallsReached(inp, root, CallsFrom(inp, s))
  {
    var cs := CallsFrom(inp, s);
    forall i | 0 <= i < |cs| ensures CallOk(inp, cs[i]) && CallReached(inp, root, cs[i]) {
      ReachedNext(inp, root, s, cs[i]);
    }
  }

  lemma CallsReachedSlice(inp: Input, root: Option<Stop>, all: seq<Call>, a: seq<Call>, b: seq<Call>, c: seq<Call>)
    requires CallsReached(inp, root, all) && all == a + (b + c)
    ensures CallsReached(inp, root, b)
    ensures all == a + b + c
  {
    forall k | 0 <= k < |b| ensures CallOk(inp, b[k]) && CallReached(inp, root, b[k]) {
      assert all[|a| + k] == b[k];
    }
  }

  // A set that holds the root and is closed under the walk's edges holds every pair the
  // walk can reach.
  lemma {:induction false} ClosedSetIsReachable(inp: Input, root: Option<Stop>, seen: set<Visit>, route: seq<Stop>)
    requires AllExpanded(inp, seen, seen)
    requires root.Some? ==> root.value.visit in seen
    requires Route(inp, root, route)
    ensures route[|route| - 1].visit in seen
  {
    if |route| > 1 {
      var front := route[..|route| - 1];
      assert Route(inp, root, front);
      ClosedSetIsReachable(inp, root, seen, front);
      var a, b := front[|front| - 1], route[|route| - 1];
      assert Edge(inp, route[|route| - 2], route[|route| - 1]);
      var i :| 0 <= i < |CallsFrom(inp, a)| && CallOk(inp, CallsFrom(inp, a)[i])
               && Resolve(inp, CallsFrom(inp, a)[i]) == Some(b);
      assert a == Stop(a.visit, a.path);
      assert AllHandled(inp, CallsFrom(inp, Stop(a.visit, a.path)), seen);
      assert Handled(inp, CallsFrom(inp, a)[i], seen);
    }
  }

  class Walk {
    const input: Input
    ghost const root: Option<Stop>
    var seen: set<Visit>
    var issues: seq<Issue>
    var lines: set<int>
    ghost var found: seq<Visit> // the pair behind each issue

    ghost predicate Valid()
      reads this
    {
      && input.Closed()
      && (forall v :: v in seen ==> InInput(input, v) && Reachable(input, root, v))
      && IssuesOk(input, root, seen, issues, found)
      && lines == LinesOf(issues)
    }

    constructor (input: Input, ghost root: Option<Stop>)
      requires input.Closed()
      ensures Valid() && this.input == input && this.root == root
      ensures seen == {} && issues == [] && found == []
    {
      this.input, this.root := input, root;
      seen, issues, lines, found := {}, [], {}, [];
    }

    // fieldType
    method FieldType(shape: Shape, key: string) returns (r: Option<TypeRef>)
      requires shape.Map? || shape.Struct?
      ensures r == FieldTypeOf(shape, key)
      ensures forall t :: r == Some(t) <==> if shape.Map? then t == shape.elem else GivenTo(shape.fields, key, t)
    {
      if shape.Struct? {
        forall t ensures FirstField(shape.fields, key) == Some(t) <==> GivenTo(shape.fields, key, t) {
          FirstFieldMeans(shape.fields, key, t);
        }
      }
      if shape.Map? {
        return Some(shape.elem);
      }
      for i := 0 to |shape.fields|
        invariant FirstField(shape.fields, key) == FirstField(shape.fields[i..], key)
      {
        var f := shape.fields[i];
        if !f.exported {
          continue;
        }
        var name := BeforeComma(f.yamlTag);
        if name == "-" {
          continue;
        }
        if name == "" {
          name := Strings.Lower(f.name);
        }
        if name == key {
          return Some(f.ftype);
        }
      }
      return None;
    }

    // Looks at the pair named by `c` and at everything below it. Afterwards the pair is
    // seen, and so is everything one step from a pair that was not seen before.
    method Look(c: Call)
      requires Valid() && CallOk(input, c) && CallReached(input, root, c)
      modifies this
      ensures Valid() && old(seen) <= seen
      ensures Handled(input, c, seen)
      ensures AllExpanded(input, seen - old(seen), seen)
      decreases |Unseen(input, seen)|, 0
    {
      var t := c.typ;
      while t.Pointer?
        invariant Stripped(t) == Stripped(c.typ)
        decreases t
      {
        t := t.elem;
      }
      var n := c.node;
      if input.nodes[n].kind == Alias {
        if input.nodes[n].alias == None {
          return;
        }
        n := input.nodes[n].alias.value;
      }
      var visit := Visit(n, t.id);
      ghost var stop := Stop(visit, c.path);
      assert Resolve(input, c) == Some(stop);
      if visit in seen {
        return;
      }
      assert Reachable(input, root, visit);
      LookAt(n, t.id, c.path);
    }

    // A pair that is met for the first time.
    method LookAt(n: NodeId, t: TypeId, path: string)
      requires Valid() && n in input.nodes && t in input.types && Visit(n, t) !in seen
      requires ReachedAt(input, root, Stop(Visit(n, t), path))
      modifies this
      ensures Valid() && old(seen) <= seen && Visit(n, t) in seen
      ensures AllExpanded(input, seen - old(seen), seen)
      decreases |Unseen(input, seen)|, 0, 0
    {
      ghost var before := seen;
      var visit := Visit(n, t);
      UnseenShrinks(input, seen, visit);
      Mark(visit, path);
      if !input.types[t].decodesItself && !input.types[t].shape.Bool? {
        LookBelow(n, t, path);
      }
      ExpandedByOnePath(input, visit, path, seen);
      WithVisit(input, before, visit, seen);
    }

    // Marks a pair as seen and, for a bool that is given something else, records the issue.
    method Mark(visit: Visit, path: string)
      requires Valid() && InInput(input, visit) && visit !in seen
      requires ReachedAt(input, root, Stop(visit, path))
      modifies this
      ensures Valid() && seen == old(seen) + {visit}
    {
      ghost var stop := Stop(visit, path);
      assert Reachable(input, root, visit);
      var node, typ := input.nodes[visit.node], input.types[visit.typ];
      if !typ.decodesItself && typ.shape.Bool? && !IsBool(node) {
        IssuesAppend(input, root, seen, issues, found, stop);
        issues := issues + [Issue(node.line, path)];
        lines := lines + {node.line};
        found := found + [visit];
      }
      seen := seen + {visit};
    }

    // The cases of the switch that go further down.
    method LookBelow(n: NodeId, t: TypeId, path: string)
      requires Valid() && n in input.nodes && t in input.types
      requires !input.types[t].decodesItself && ReachedAt(input, root, Stop(Visit(n, t), path))
      modifies this
      ensures Valid() && old(seen) <= seen
      ensures AllHandled(input, CallsFrom(input, Stop(Visit(n, t), path)), seen)
      ensures AllExpanded(input, seen - old(seen), seen)
      decreases |Unseen(input, seen)|, 5
    {
      var node, typ := input.nodes[n], input.types[t];
      CallsFromReached(input, root, Stop(Visit(n, t), path));
      match typ.shape {
        case List(elem) =>
          if node.kind != Sequence {
            return;
          }
          LookAtItems(node.content, elem, path);
        case Map(_) =>
          if node.kind != Mapping {
            return;
          }
          LookAtPairs(node.content, t, path);
        case Struct(_) =>
          if node.kind != Mapping {
            return;
          }
          LookAtPairs(node.content, t, path);
        case _ =>
      }
    }

    // What a loop of calls keeps: `before` is what was seen when it began, `handled` the
    // calls it has made.
    ghost predicate Kept(before: set<Visit>, handled: seq<Call>)
      reads this
    {
      Valid() && before <= seen && AllHandled(input, handled, seen) && AllExpanded(input, seen - before, seen)
    }

    // One call made from a loop.
    method LookNext(c: Call, ghost before: set<Visit>, ghost handled: seq<Call>)
      requires Kept(before, handled) && CallOk(input, c) && CallReached(input, root, c)
      modifies this
      ensures Kept(before, handled + [c]) && old(seen) <= seen
      decreases |Unseen(input, seen)|, 1
    {
      Look(c);
      Extend(input, before, old(seen), seen, handled, [c]);
    }

    // The loop over the items of a sequence.
    method LookAtItems(items: seq<NodeId>, elem: TypeRef, path: string)
      requires Valid() && CallsReached(input, root, ItemCalls(items, elem, path))
      modifies this
      ensures Kept(old(seen), ItemCalls(items, elem, path))
      decreases |Unseen(input, seen)|, 2
    {
      ghost var calls, before := ItemCalls(items, elem, path), seen;
      for i := 0 to |items|
        invariant Kept(before, calls[..i])
      {
        SubsetSize(Unseen(input, seen), Unseen(input, before));
        assert CallOk(input, calls[i]) && CallReached(input, root, calls[i]);
        LookNext(Call(items[i], elem, path + "[" + Digits(i) + "]"), before, calls[..i]);
        assert calls[..i + 1] == calls[..i] + [calls[i]];
      }
      assert calls[..|items|] == calls;
    }

    // The loop over the pairs of a mapping.
    method LookAtPairs(content: seq<NodeId>, t: TypeId, path: string)
      requires Valid() && t in input.types
      requires input.types[t].shape.Map? || input.types[t].shape.Struct?
      requires forall j :: 0 <= j < |content| ==> content[j] in input.nodes
      requires CallsReached(input, root, MappingCalls(input, content, 0, t, path))
      modifies this
      ensures Kept(old(seen), MappingCalls(input, content, 0, t, path))
      decreases |Unseen(input, seen)|, 4
    {
      ghost var calls, before := MappingCalls(input, content, 0, t, path), seen;
      ghost var handled: seq<Call> := [];
      var i := 0;
      while i + 1 < |content|
        invariant 0 <= i && before <= seen
        invariant calls == handled + MappingCalls(input, content, i, t, path)
        invariant Kept(before, handled)
        decreases |content| - i
      {
        SubsetSize(Unseen(input, seen), Unseen(input, before));
        ghost var pair := PairCalls(input, content[i], content[i + 1], t, path);
        CallsReachedSlice(input, root, calls, handled, pair, MappingCalls(input, content, i + 2, t, path));
        LookAtPair(content[i], content[i + 1], t, path, before, handled);
        handled := handled + pair;
        i := i + 2;
      }
      assert handled == calls;
    }

    // The body of that loop.
    method LookAtPair(key: NodeId, value: NodeId, t: TypeId, path: string,
                      ghost before: set<Visit>, ghost handled: seq<Call>)
      requires key in input.nodes && value in input.nodes && t in input.types
      requires input.types[t].shape.Map? || input.types[t].shape.Struct?
      requires CallsReached(input, root, PairCalls(input, key, value, t, path))
      requires Kept(before, handled)
      modifies this
      ensures Kept(before, handled + PairCalls(input, key, value, t, path))
      decreases |Unseen(input, seen)|, 3
    {
      ghost var calls := PairCalls(input, key, value, t, path);
      var k := input.nodes[key];
      if k.kind == Scalar && k.mergeTag {
        Merge(value, t, path);
        Extend(input, before, old(seen), seen, handled, calls);
        return;
      }
      var ft := FieldType(input.types[t].shape, k.value);
      if ft.Some? {
        assert CallOk(input, calls[0]) && CallReached(input, root, calls[0]);
        LookNext(Call(value, ft.value, Join(path, k.value)), before, handled);
      } else {
        assert handled + calls == handled;
      }
    }

    method Merge(value: NodeId, t: TypeId, path: string)
      requires Valid() && value in input.nodes && t in input.types
      requires CallsReached(input, root, MergeCalls(input, value, t, path))
      modifies this
      ensures Kept(old(seen), MergeCalls(input, value, t, path))
      decreases |Unseen(input, seen)|, 2
    {
      if input.nodes[value].kind == Sequence {
        MergeItems(input.nodes[value].content, t, path);
        return;
      }
      ghost var calls := MergeCalls(input, value, t, path);
      assert CallOk(input, calls[0]) && CallReached(input, root, calls[0]);
      Look(Call(value, Defined(t), path));
    }

    method MergeItems(items: seq<NodeId>, t: TypeId, path: string)
      requires Valid() && CallsReached(input, root, MergeItemCalls(items, t, path))
      modifies this
      ensures Kept(old(seen), MergeItemCalls(items, t, path))
      decreases |Unseen(input, seen)|, 2, 0
    {
      ghost var calls, before := MergeItemCalls(items, t, path), seen;
      for i := 0 to |items|
        invariant Kept(before, calls[..i])
      {
        SubsetSize(Unseen(input, seen), Unseen(input, before));
        assert CallOk(input, calls[i]) && CallReached(input, root, calls[i]);
        LookNext(Call(items[i], Defined(t), path), before, calls[..i]);
        assert calls[..i + 1] == calls[..i] + [calls[i]];
      }
      assert calls[..|items|] == calls;
    }
  }

  function LinesOf(issues: seq<Issue>): set<int> {
    set i | 0 <= i < |issues| :: issues[i].line
  }

  // The issues are the bad pairs seen so far, each once, with its line and a path it is
  // reached by.
  ghost predicate IssuesOk(inp: Input, root: Option<Stop>, seen: set<Visit>, issues: seq<Issue>, found: seq<Visit>) {
    && |found| == |issues|
    && (forall i, j :: 0 <= i < j < |found| ==> found[i] != found[j])
    && (forall v :: v in found <==> v in seen && Bad(inp, v))
    && (forall i :: 0 <= i < |found| ==>
          found[i].node in inp.nodes
          && issues[i].line == inp.nodes[found[i].node].line
          && ReachedAt(inp, root, Stop(found[i], issues[i].path)))
  }

  lemma IssuesAppend(inp: Input, root: Option<Stop>, seen: set<Visit>, issues: seq<Issue>, found: seq<Visit>, s: Stop)
    requires IssuesOk(inp, root, seen, issues, found)
    requires s.visit !in seen && Bad(inp, s.visit) && ReachedAt(inp, root, s)
    ensures IssuesOk(inp, root, seen + {s.visit},
                     issues + [Issue(inp.nodes[s.visit.node].line, s.path)], found + [s.visit])
    ensures LinesOf(issues + [Issue(inp.nodes[s.visit.node].line, s.path)])
            == LinesOf(issues) + {inp.nodes[s.visit.node].line}
  {
    var more := issues + [Issue(inp.nodes[s.visit.node].line, s.path)];
    assert more[|issues|].line in LinesOf(more);
    forall l | l in LinesOf(issues) ensures l in LinesOf(more) {
      var i :| 0 <= i < |issues| && issues[i].line == l;
      assert more[i].line == l;
    }
    assert s == Stop(s.visit, s.path);
  }

  // What one more handled batch of calls adds to the loop invariants.
  lemma Extend(inp: Input, before: set<Visit>, mid: set<Visit>, after: set<Visit>, handled: seq<Call>, batch: seq<Call>)
    requires before <= mid <= after
    requires AllHandled(inp, handled, mid) && AllHandled(inp, batch, after)
    requires AllExpanded(inp, mid - before, mid) && AllExpanded(inp, after - mid, after)
    ensures AllHandled(inp, handled + batch, after)
    ensures AllExpanded(inp, after - before, after)
  {
    HandledGrows(inp, handled, mid, after);
    AllExpandedGrows(inp, mid - before, mid, after);
  }

  // checkBools: terminates on every table, cyclic ones included. What is seen is exactly what
  // trails from the document lead to, and there is exactly one issue for each pair seen of a
  // bool type and a node that is neither a boolean nor null, with its line and the path of a
  // trail to it.
  method CheckBools(input: Input, doc: NodeId, destination: TypeRef) returns (w: Walk)
    requires input.Closed() && doc in input.nodes && input.HasType(destination)
    ensures w.Valid() && fresh(w)
    ensures forall v :: v in w.seen <==> exists path :: Found(input, doc, destination, v, path)
    ensures |w.found| == |w.issues|
    ensures forall i, j :: 0 <= i < j < |w.found| ==> w.found[i] != w.found[j]
    ensures forall v :: v in w.found <==> v in w.seen && Mistyped(input, v)
    ensures forall i :: 0 <= i < |w.found| ==>
              w.found[i].node in input.nodes && w.issues[i].line == input.nodes[w.found[i].node].line
              && Found(input, doc, destination, w.found[i], w.issues[i].path)
    ensures forall line :: line in w.lines <==> exists i :: 0 <= i < |w.issues| && w.issues[i].line == line
  {
    w := Searched(input, doc, destination);
    forall v ensures v in w.seen <==> exists path :: Found(input, doc, destination, v, path) {
      forall path ensures ReachedAt(input, w.root, Stop(v, path)) <==> Found(input, doc, destination, v, path) {
        ReachedMeans(input, doc, destination, v, path);
      }
    }
    forall i | 0 <= i < |w.found| ensures Found(input, doc, destination, w.found[i], w.issues[i].path) {
      ReachedMeans(input, doc, destination, w.found[i], w.issues[i].path);
    }
  }

  // The walk itself: it sees what the graph reaches.
  method Searched(input: Input, doc: NodeId, destination: TypeRef) returns (w: Walk)
    requires input.Closed() && doc in input.nodes && input.HasType(destination)
    ensures w.Valid() && fresh(w) && w.input == input && w.root == RootOf(input, doc, destination)
    ensures forall v :: v in w.seen <==> Reachable(input, w.root, v)
  {
    ghost var root := RootOf(input, doc, destination);
    w := new Walk(input, root);
    var d := input.nodes[doc];
    if d.kind == Document && |d.content| == 1 {
      ghost var c := Call(d.content[0], destination, "");
      if root.Some? {
        assert Route(input, root, [root.value]);
        assert [root.value][|[root.value]| - 1] == root.value;
      }
      w.Look(Call(d.content[0], destination, ""));
      assert w.seen - {} == w.seen;
    }
    forall v | Reachable(input, root, v) ensures v in w.seen {
      var path :| ReachedAt(input, root, Stop(v, path));
      var route :| Route(input, root, route) && route[|route| - 1] == Stop(v, path);
      ClosedSetIsReachable(input, root, w.seen, route);
    }
  }
}
