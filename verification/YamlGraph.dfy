/**
  What the strict boolean walk (internal/yamlstrict/bools.go) searches: pairs of a YAML node
  and a Go type, and what leads from one to the next, once as the code computes it and once
  in terms of nodes, tags and types.

  Nodes and defined types are named by ids into tables, so that anchors and types may be
  cyclic and two mentions of one node are the same node. What yaml.v3 decodes a scalar
  to, and whether a type decodes itself, are given in the tables.
*/
module YamlGraph {
  import opened Wrappers
  import Strings

  type NodeId = nat
  type TypeId = nat

  datatype Kind = Document | Sequence | Mapping | Scalar | Alias

  // What a scalar decodes into when the target is `any`.
  datatype Decoded = BoolValue | NullValue | OtherValue | DecodeError

  datatype Node = Node(kind: Kind, content: seq<NodeId>, alias: Option<NodeId>, value: string, line: int,
                       mergeTag: bool, decoded: Decoded)

  // A type as written: pointers around a defined type.
  datatype TypeRef = Pointer(elem: TypeRef) | Defined(id: TypeId)

  datatype Field = Field(name: string, yamlTag: string, exported: bool, ftype: TypeRef)

  datatype Shape = Bool | List(elem: TypeRef) | Map(elem: TypeRef) | Struct(fields: seq<Field>) | FreeForm

  datatype GoType = GoType(shape: Shape, decodesItself: bool)

  // A parsed document beside the Go types it is decoded into.
  datatype Input = Input(nodes: map<NodeId, Node>, types: map<TypeId, GoType>)
  {
    predicate HasType(t: TypeRef) {
      Stripped(t) in types
    }

    predicate Closed() {
      && (forall n :: n in nodes ==>
            && (forall i :: 0 <= i < |nodes[n].content| ==> nodes[n].content[i] in nodes)
            && (nodes[n].alias.Some? ==> nodes[n].alias.value in nodes))
      && (forall t :: t in types ==>
            match types[t].shape
            case List(e) => HasType(e)
            case Map(e) => HasType(e)
            case Struct(fs) => forall i :: 0 <= i < |fs| ==> HasType(fs[i].ftype)
            case _ => true)
    }
  }

  datatype Visit = Visit(node: NodeId, typ: TypeId)

  // A visit together with the path it was reached by.
  datatype Stop = Stop(visit: Visit, path: string)

  // An argument triple of walk.
  datatype Call = Call(node: NodeId, typ: TypeRef, path: string)

  datatype Issue = Issue(line: int, path: string)

  // ---------------------------------------------------------------- what the code computes on the way

  function Stripped(t: TypeRef): TypeId {
    match t
    case Pointer(e) => Stripped(e)
    case Defined(id) => id
  }

  function Digits(n: nat): string {
    if n < 10 then [(('0' as int) + n) as char] else Digits(n / 10) + [(('0' as int) + n % 10) as char]
  }

  function Join(path: string, name: string): string {
    if path == "" then name else path + "." + name
  }

  // strings.Cut(tag, ","), first half.
  function BeforeComma(tag: string): string {
    if tag == "" || tag[0] == ',' then "" else [tag[0]] + BeforeComma(tag[1..])
  }

  // The key yaml.v3 decodes into field f, if any.
  function FieldKey(f: Field): Option<string> {
    if !f.exported then None
    else
      var name := BeforeComma(f.yamlTag);
      if name == "-" then None else if name == "" then Some(Strings.Lower(f.name)) else Some(name)
  }

  // The type of the first field for `key`.
  function FirstField(fields: seq<Field>, key: string): Option<TypeRef> {
    if fields == [] then None
    else if FieldKey(fields[0]) == Some(key) then Some(fields[0].ftype)
    else FirstField(fields[1..], key)
  }

  function FieldTypeOf(shape: Shape, key: string): Option<TypeRef>
    requires shape.Map? || shape.Struct?
  {
    if shape.Map? then Some(shape.elem) else FirstField(shape.fields, key)
  }

  predicate IsBool(n: Node) {
    n.kind == Scalar && (n.decoded == BoolValue || n.decoded == NullValue)
  }

  // ---------------------------------------------------------------- the graph that is searched

  // The pair walk looks at for a call: pointers stripped, one alias resolved.
  function Resolve(inp: Input, c: Call): Option<Stop>
    requires c.node in inp.nodes
  {
    var n := inp.nodes[c.node];
    if n.kind == Alias then
      if n.alias.None? then None else Some(Stop(Visit(n.alias.value, Stripped(c.typ)), c.path))
    else Some(Stop(Visit(c.node, Stripped(c.typ)), c.path))
  }

  function MergeItemCalls(items: seq<NodeId>, t: TypeId, path: string): seq<Call> {
    seq(|items|, i requires 0 <= i < |items| => Call(items[i], Defined(t), path))
  }

  // The calls made for a merge key: a sequence merges each of its items.
  function MergeCalls(inp: Input, value: NodeId, t: TypeId, path: string): seq<Call>
    requires value in inp.nodes
  {
    if inp.nodes[value].kind == Sequence then MergeItemCalls(inp.nodes[value].content, t, path)
    else [Call(value, Defined(t), path)]
  }

  function PairCalls(inp: Input, key: NodeId, value: NodeId, t: TypeId, path: string): seq<Call>
    requires key in inp.nodes && value in inp.nodes && t in inp.types
    requires inp.types[t].shape.Map? || inp.types[t].shape.Struct?
  {
    var k := inp.nodes[key];
    if k.kind == Scalar && k.mergeTag then MergeCalls(inp, value, t, path)
    else match FieldTypeOf(inp.types[t].shape, k.value)
      case Some(ft) => [Call(value, ft, Join(path, k.value))]
      case None => []
  }

  // The calls made for the key/value pairs of content[i..].
  function MappingCalls(inp: Input, content: seq<NodeId>, i: nat, t: TypeId, path: string): seq<Call>
    requires t in inp.types && (inp.types[t].shape.Map? || inp.types[t].shape.Struct?)
    requires forall j :: 0 <= j < |content| ==> content[j] in inp.nodes
    decreases |content| - i
  {
    if i + 1 < |content| then
      PairCalls(inp, content[i], content[i + 1], t, path) + MappingCalls(inp, content, i + 2, t, path)
    else []
  }

  function ItemCalls(content: seq<NodeId>, elem: TypeRef, path: string): seq<Call> {
    seq(|content|, i requires 0 <= i < |content| => Call(content[i], elem, path + "[" + Digits(i) + "]"))
  }

  // The calls that looking at a stop leads to.
  function CallsFrom(inp: Input, s: Stop): seq<Call>
    requires inp.Closed() && s.visit.node in inp.nodes && s.visit.typ in inp.types
  {
    var n, t := inp.nodes[s.visit.node], inp.types[s.visit.typ];
    if t.decodesItself then []
    else match t.shape
      case List(e) => if n.kind == Sequence then ItemCalls(n.content, e, s.path) else []
      case Map(_) => if n.kind == Mapping then MappingCalls(inp, n.content, 0, s.visit.typ, s.path) else []
      case Struct(_) => if n.kind == Mapping then MappingCalls(inp, n.content, 0, s.visit.typ, s.path) else []
      case _ => []
  }

  ghost predicate InInput(inp: Input, v: Visit) {
    v.node in inp.nodes && v.typ in inp.types
  }

  predicate CallOk(inp: Input, c: Call) {
    c.node in inp.nodes && inp.HasType(c.typ)
  }

  // One edge of the searched graph.
  ghost predicate Edge(inp: Input, a: Stop, b: Stop) {
    && inp.Closed() && InInput(inp, a.visit)
    && exists i :: 0 <= i < |CallsFrom(inp, a)| && CallOk(inp, CallsFrom(inp, a)[i])
                   && Resolve(inp, CallsFrom(inp, a)[i]) == Some(b)
  }

  // A route from the root stop.
  ghost predicate Route(inp: Input, root: Option<Stop>, route: seq<Stop>) {
    && route != [] && root == Some(route[0])
    && forall i :: 0 <= i < |route| - 1 ==> Edge(inp, route[i], route[i + 1])
  }

  ghost predicate ReachedAt(inp: Input, root: Option<Stop>, s: Stop) {
    exists route :: Route(inp, root, route) && route[|route| - 1] == s
  }

  ghost predicate Reachable(inp: Input, root: Option<Stop>, v: Visit) {
    exists path :: ReachedAt(inp, root, Stop(v, path))
  }

  // A pair that must be reported.
  ghost predicate Bad(inp: Input, v: Visit) {
    && InInput(inp, v)
    && inp.types[v.typ].shape.Bool? && !inp.types[v.typ].decodesItself
    && !IsBool(inp.nodes[v.node])
  }

  // Where the walk of a document starts.
  function RootOf(inp: Input, doc: NodeId, destination: TypeRef): Option<Stop>
    requires inp.Closed() && doc in inp.nodes
  {
    var d := inp.nodes[doc];
    if d.kind == Document && |d.content| == 1 then Resolve(inp, Call(d.content[0], destination, "")) else None
  }

  // ---------------------------------------------------------------- the graph is closed

  lemma {:induction false} FirstFieldIsField(fields: seq<Field>, key: string)
    ensures FirstField(fields, key).Some? ==>
              exists i :: 0 <= i < |fields| && fields[i].ftype == FirstField(fields, key).value
  {
    if fields != [] && FieldKey(fields[0]) != Some(key) {
      FirstFieldIsField(fields[1..], key);
      if FirstField(fields[1..], key).Some? {
        var i :| 0 <= i < |fields[1..]| && fields[1..][i].ftype == FirstField(fields[1..], key).value;
        assert fields[i + 1].ftype == FirstField(fields, key).value;
      }
    }
  }

  lemma PairCallsOk(inp: Input, key: NodeId, value: NodeId, t: TypeId, path: string)
    requires inp.Closed() && key in inp.nodes && value in inp.nodes && t in inp.types
    requires inp.types[t].shape.Map? || inp.types[t].shape.Struct?
    ensures forall i :: 0 <= i < |PairCalls(inp, key, value, t, path)| ==>
              CallOk(inp, PairCalls(inp, key, value, t, path)[i])
  {
    var shape := inp.types[t].shape;
    if shape.Struct? {
      FirstFieldIsField(shape.fields, inp.nodes[key].value);
    }
  }

  lemma {:induction false} MappingCallsOk(inp: Input, content: seq<NodeId>, i: nat, t: TypeId, path: string)
    requires inp.Closed()
    requires t in inp.types && (inp.types[t].shape.Map? || inp.types[t].shape.Struct?)
    requires forall j :: 0 <= j < |content| ==> content[j] in inp.nodes
    ensures forall c :: c in MappingCalls(inp, content, i, t, path) ==> CallOk(inp, c)
    decreases |content| - i
  {
    if i + 1 < |content| {
      PairCallsOk(inp, content[i], content[i + 1], t, path);
      MappingCallsOk(inp, content, i + 2, t, path);
    }
  }

  // Every call stays inside the tables.
  lemma CallsFromOk(inp: Input, s: Stop)
    requires inp.Closed() && InInput(inp, s.visit)
    ensures forall c :: c in CallsFrom(inp, s) ==> CallOk(inp, c)
  {
    var n, t := inp.nodes[s.visit.node], inp.types[s.visit.typ];
    if (t.shape.Map? || t.shape.Struct?) && n.kind == Mapping {
      MappingCallsOk(inp, n.content, 0, s.visit.typ, s.path);
    }
  }

  // ---------------------------------------------------------------- in terms of nodes, tags and types

  // The decoder gives key `k` to field `f`: the field is exported and its tag is `k`, or `k`
  // and options behind a comma, or names nothing while the field's own name is `k` in lower
  // case. A dash names nothing that can be given.
  predicate Selects(f: Field, k: string) {
    f.exported
    && (|| (k != "" && k != "-" && ',' !in k && (f.yamlTag == k || k + "," <= f.yamlTag))
        || ((f.yamlTag == "" || f.yamlTag[0] == ',') && Strings.Lower(f.name) == k))
  }

  // The first field that `k` is given to has type `t`.
  ghost predicate GivenTo(fields: seq<Field>, k: string, t: TypeRef) {
    exists i :: 0 <= i < |fields| && fields[i].ftype == t && Selects(fields[i], k)
                && forall j :: 0 <= j < i ==> !Selects(fields[j], k)
  }

  // Where the walk goes from a pair: to an item, to the value of a key, or into a mapping
  // that is merged in.
  datatype Way = Item(index: nat) | Key(key: string) | Merged

  ghost predicate PairAt(content: seq<NodeId>, p: nat, key: NodeId, value: NodeId) {
    2 * p + 1 < |content| && content[2 * p] == key && content[2 * p + 1] == value
  }

  predicate IsMergeKey(n: Node) {
    n.kind == Scalar && n.mergeTag
  }

  // From the pair `v`, node `m` is looked at with type `u`.
  ghost predicate Under(inp: Input, v: Visit, way: Way, m: NodeId, u: TypeRef) {
    && InInput(inp, v) && !inp.types[v.typ].decodesItself
    && (var n, shape := inp.nodes[v.node], inp.types[v.typ].shape;
        match way
        case Item(i) =>
          shape.List? && n.kind == Sequence && i < |n.content| && m == n.content[i] && u == shape.elem
        case Key(k) =>
          && (shape.Map? || shape.Struct?) && n.kind == Mapping
          && (if shape.Map? then u == shape.elem else GivenTo(shape.fields, k, u))
          && exists p, key :: PairAt(n.content, p, key, m) && key in inp.nodes
                              && !IsMergeKey(inp.nodes[key]) && inp.nodes[key].value == k
        case Merged =>
          && (shape.Map? || shape.Struct?) && n.kind == Mapping && u == Defined(v.typ)
          && exists p, key, value :: PairAt(n.content, p, key, value) && key in inp.nodes && value in inp.nodes
                                     && IsMergeKey(inp.nodes[key]) && MergesIn(inp.nodes[value], value, m))
  }

  // A merge key's value is a mapping, or a sequence of them.
  ghost predicate MergesIn(n: Node, value: NodeId, m: NodeId) {
    if n.kind == Sequence then m in n.content else m == value
  }

  predicate PointsTo(t: TypeRef, id: TypeId) {
    match t
    case Pointer(e) => PointsTo(e, id)
    case Defined(d) => d == id
  }

  // The pair that looking at node `m` with type `u` is about: an alias stands for its
  // anchor, a pointer for what it points to.
  ghost predicate Means(inp: Input, m: NodeId, u: TypeRef, v: Visit) {
    && m in inp.nodes && PointsTo(u, v.typ)
    && (if inp.nodes[m].kind == Alias then inp.nodes[m].alias == Some(v.node) else v.node == m)
  }

  function PathAfter(path: string, way: Way): string {
    match way
    case Item(i) => path + "[" + Digits(i) + "]"
    case Key(k) => if path == "" then k else path + "." + k
    case Merged => path
  }

  function PathOf(ways: seq<Way>): string {
    if ways == [] then "" else PathAfter(PathOf(ways[..|ways| - 1]), ways[|ways| - 1])
  }

  ghost predicate LeadsTo(inp: Input, v: Visit, way: Way, w: Visit) {
    exists m, u :: Under(inp, v, way, m, u) && Means(inp, m, u, w)
  }

  // The pair a document is entered at.
  ghost predicate Starts(inp: Input, doc: NodeId, destination: TypeRef, v: Visit) {
    && doc in inp.nodes && inp.nodes[doc].kind == Document && |inp.nodes[doc].content| == 1
    && Means(inp, inp.nodes[doc].content[0], destination, v)
  }

  ghost predicate Trail(inp: Input, doc: NodeId, destination: TypeRef, visits: seq<Visit>, ways: seq<Way>) {
    && |visits| == |ways| + 1 && Starts(inp, doc, destination, visits[0])
    && forall i :: 0 <= i < |ways| ==> LeadsTo(inp, visits[i], ways[i], visits[i + 1])
  }

  // Some trail from the document leads to the pair, and has this path.
  ghost predicate Found(inp: Input, doc: NodeId, destination: TypeRef, v: Visit, path: string) {
    exists visits, ways :: Trail(inp, doc, destination, visits, ways) && visits[|ways|] == v && PathOf(ways) == path
  }

  // A pair of a bool type and a node that is neither a boolean nor null.
  ghost predicate Mistyped(inp: Input, v: Visit) {
    && InInput(inp, v) && inp.types[v.typ].shape == Bool && !inp.types[v.typ].decodesItself
    && (inp.nodes[v.node].kind != Scalar || inp.nodes[v.node].decoded == OtherValue || inp.nodes[v.node].decoded == DecodeError)
  }

  // ---------------------------------------------------------------- both descriptions agree

  // What stands before the first comma.
  lemma {:induction false} BeforeCommaMeans(tag: string, k: string)
    ensures BeforeComma(tag) == Strings.Split(tag, ',')[0]
    ensures BeforeComma(tag) == k <==> ',' !in k && (tag == k || k + "," <= tag)
  {
    if tag != "" && tag[0] != ',' {
      assert tag == [tag[0]] + tag[1..];
      if k == "" {
        BeforeCommaMeans(tag[1..], "");
      } else {
        BeforeCommaMeans(tag[1..], k[1..]);
        assert k == [k[0]] + k[1..];
        assert k + "," == [k[0]] + (k[1..] + ",");
        assert k + "," <= tag <==> k[0] == tag[0] && k[1..] + "," <= tag[1..];
        assert ',' in k <==> k[0] == ',' || ',' in k[1..];
      }
    }
  }

  lemma FieldKeyMeans(f: Field, k: string)
    ensures FieldKey(f) == Some(k) <==> Selects(f, k)
  {
    BeforeCommaMeans(f.yamlTag, k);
    BeforeCommaMeans(f.yamlTag, "-");
    BeforeCommaMeans(f.yamlTag, "");
  }

  lemma {:induction false} FirstFieldMeans(fields: seq<Field>, k: string, t: TypeRef)
    ensures FirstField(fields, k) == Some(t) <==> GivenTo(fields, k, t)
  {
    if fields != [] {
      FieldKeyMeans(fields[0], k);
      FirstFieldMeans(fields[1..], k, t);
      if GivenTo(fields[1..], k, t) && !Selects(fields[0], k) {
        var i :| 0 <= i < |fields[1..]| && fields[1..][i].ftype == t && Selects(fields[1..][i], k)
                 && forall j :: 0 <= j < i ==> !Selects(fields[1..][j], k);
        assert fields[i + 1].ftype == t && Selects(fields[i + 1], k);
        forall j | 0 <= j < i + 1 ensures !Selects(fields[j], k) {
          if j > 0 { assert !Selects(fields[1..][j - 1], k); }
        }
      }
      if GivenTo(fields, k, t) && !Selects(fields[0], k) {
        var i :| 0 <= i < |fields| && fields[i].ftype == t && Selects(fields[i], k)
                 && forall j :: 0 <= j < i ==> !Selects(fields[j], k);
        assert fields[1..][i - 1] == fields[i];
        assert forall j :: 0 <= j < i - 1 ==> fields[1..][j] == fields[j + 1];
      }
    }
  }

  lemma {:induction false} StrippedMeans(t: TypeRef, id: TypeId)
    ensures Stripped(t) == id <==> PointsTo(t, id)
  {
    if t.Pointer? { StrippedMeans(t.elem, id); }
  }

  lemma ResolveMeans(inp: Input, c: Call, v: Visit)
    requires c.node in inp.nodes
    ensures Resolve(inp, c) == Some(Stop(v, c.path)) <==> Means(inp, c.node, c.typ, v)
    ensures Resolve(inp, c).Some? ==> Resolve(inp, c).value.path == c.path
  {
    StrippedMeans(c.typ, v.typ);
  }

  // The calls of one key/value pair.
  ghost predicate PairLeads(inp: Input, t: TypeId, path: string, key: NodeId, value: NodeId, way: Way, c: Call)
    requires key in inp.nodes && value in inp.nodes && t in inp.types
  {
    var shape := inp.types[t].shape;
    && c.path == PathAfter(path, way)
    && if IsMergeKey(inp.nodes[key]) then way == Merged && c.typ == Defined(t) && MergesIn(inp.nodes[value], value, c.node)
       else way == Key(inp.nodes[key].value) && c.node == value
            && if shape.Map? then c.typ == shape.elem else shape.Struct? && GivenTo(shape.fields, inp.nodes[key].value, c.typ)
  }

  lemma PairCallsAre(inp: Input, key: NodeId, value: NodeId, t: TypeId, path: string, c: Call)
    requires key in inp.nodes && value in inp.nodes && t in inp.types
    requires inp.types[t].shape.Map? || inp.types[t].shape.Struct?
    ensures c in PairCalls(inp, key, value, t, path) <==> exists way :: PairLeads(inp, t, path, key, value, way, c)
  {
    var k, calls := inp.nodes[key], PairCalls(inp, key, value, t, path);
    if IsMergeKey(k) {
      var items := inp.nodes[value].content;
      assert inp.nodes[value].kind != Sequence ==> calls == [Call(value, Defined(t), path)];
      if inp.nodes[value].kind == Sequence && PairLeads(inp, t, path, key, value, Merged, c) {
        var i :| 0 <= i < |items| && items[i] == c.node;
        assert calls[i] == c;
      }
      assert c in calls ==> PairLeads(inp, t, path, key, value, Merged, c);
    } else {
      if inp.types[t].shape.Struct? {
        FirstFieldMeans(inp.types[t].shape.fields, k.value, c.typ);
      }
      assert c in calls ==> PairLeads(inp, t, path, key, value, Key(k.value), c);
      assert PairLeads(inp, t, path, key, value, Key(k.value), c) ==> c in calls;
    }
  }

  // Some pair from the p-th on leads to the call.
  ghost predicate PairsLead(inp: Input, content: seq<NodeId>, p: nat, t: TypeId, path: string, c: Call)
    requires t in inp.types && forall j :: 0 <= j < |content| ==> content[j] in inp.nodes
  {
    exists q, key, value, way :: q >= p && PairAt(content, q, key, value) && PairLeads(inp, t, path, key, value, way, c)
  }

  lemma PairsLeadNext(inp: Input, content: seq<NodeId>, p: nat, k: NodeId, v: NodeId, t: TypeId, path: string, c: Call)
    requires t in inp.types && forall j :: 0 <= j < |content| ==> content[j] in inp.nodes
    requires PairAt(content, p, k, v)
    ensures PairsLead(inp, content, p, t, path, c) <==>
            (exists way :: PairLeads(inp, t, path, k, v, way, c))
            || PairsLead(inp, content, p + 1, t, path, c)
  {
    if q, key, value, way :| q >= p && PairAt(content, q, key, value) && PairLeads(inp, t, path, key, value, way, c) {
      assert q == p || q >= p + 1;
    }
  }

  lemma {:induction false} MappingCallsAre(inp: Input, content: seq<NodeId>, p: nat, t: TypeId, path: string, c: Call)
    requires t in inp.types && (inp.types[t].shape.Map? || inp.types[t].shape.Struct?)
    requires forall j :: 0 <= j < |content| ==> content[j] in inp.nodes
    ensures c in MappingCalls(inp, content, 2 * p, t, path) <==> PairsLead(inp, content, p, t, path, c)
    decreases |content| - 2 * p
  {
    if 2 * p + 1 < |content| {
      MappingCallsAre(inp, content, p + 1, t, path, c);
      PairCallsAre(inp, content[2 * p], content[2 * p + 1], t, path, c);
      PairsLeadNext(inp, content, p, content[2 * p], content[2 * p + 1], t, path, c);
      assert MappingCalls(inp, content, 2 * p, t, path)
          == PairCalls(inp, content[2 * p], content[2 * p + 1], t, path) + MappingCalls(inp, content, 2 * (p + 1), t, path);
    }
  }

  // The calls from a pair are the ways down from it.
  lemma CallsAre(inp: Input, s: Stop, c: Call)
    requires inp.Closed() && InInput(inp, s.visit)
    ensures c in CallsFrom(inp, s) <==>
            exists way :: Under(inp, s.visit, way, c.node, c.typ) && c.path == PathAfter(s.path, way)
  {
    var n, t := inp.nodes[s.visit.node], inp.types[s.visit.typ];
    var calls := CallsFrom(inp, s);
    if !t.decodesItself && t.shape.List? && n.kind == Sequence {
      forall i | 0 <= i < |calls| ensures Under(inp, s.visit, Item(i), calls[i].node, calls[i].typ) {}
      if way :| Under(inp, s.visit, way, c.node, c.typ) && c.path == PathAfter(s.path, way) {
        assert c == calls[way.index];
      }
    } else if !t.decodesItself && (t.shape.Map? || t.shape.Struct?) && n.kind == Mapping {
      MappingCallsAre(inp, n.content, 0, s.visit.typ, s.path, c);
      PairsAreWays(inp, s, c);
    }
  }

  lemma PairsAreWays(inp: Input, s: Stop, c: Call)
    requires inp.Closed() && InInput(inp, s.visit) && inp.nodes[s.visit.node].kind == Mapping
    requires !inp.types[s.visit.typ].decodesItself
    requires inp.types[s.visit.typ].shape.Map? || inp.types[s.visit.typ].shape.Struct?
    ensures PairsLead(inp, inp.nodes[s.visit.node].content, 0, s.visit.typ, s.path, c) <==>
            exists way :: Under(inp, s.visit, way, c.node, c.typ) && c.path == PathAfter(s.path, way)
  {
    var content := inp.nodes[s.visit.node].content;
    if q, key, value, way :| q >= 0 && PairAt(content, q, key, value)
                               && PairLeads(inp, s.visit.typ, s.path, key, value, way, c) {
      assert Under(inp, s.visit, way, c.node, c.typ);
    }
    if way :| Under(inp, s.visit, way, c.node, c.typ) && c.path == PathAfter(s.path, way) {
      if way.Key? {
        var q, key :| PairAt(content, q, key, c.node) && key in inp.nodes
                      && !IsMergeKey(inp.nodes[key]) && inp.nodes[key].value == way.key;
        assert PairLeads(inp, s.visit.typ, s.path, key, c.node, way, c);
      } else {
        var q, key, value :| PairAt(content, q, key, value) && key in inp.nodes && value in inp.nodes
                             && IsMergeKey(inp.nodes[key]) && MergesIn(inp.nodes[value], value, c.node);
        assert PairLeads(inp, s.visit.typ, s.path, key, value, way, c);
      }
    }
  }

  // An edge of the searched graph is a way down, and adds its way to the path.
  lemma EdgeMeans(inp: Input, a: Stop, b: Stop)
    requires inp.Closed() && InInput(inp, a.visit)
    ensures Edge(inp, a, b) <==> exists way :: LeadsTo(inp, a.visit, way, b.visit) && b.path == PathAfter(a.path, way)
  {
    if Edge(inp, a, b) {
      var i :| 0 <= i < |CallsFrom(inp, a)| && CallOk(inp, CallsFrom(inp, a)[i]) && Resolve(inp, CallsFrom(inp, a)[i]) == Some(b);
      var c := CallsFrom(inp, a)[i];
      CallsAre(inp, a, c);
      ResolveMeans(inp, c, b.visit);
      var way :| Under(inp, a.visit, way, c.node, c.typ) && c.path == PathAfter(a.path, way);
      assert LeadsTo(inp, a.visit, way, b.visit);
    }
    if way :| LeadsTo(inp, a.visit, way, b.visit) && b.path == PathAfter(a.path, way) {
      var m, u :| Under(inp, a.visit, way, m, u) && Means(inp, m, u, b.visit);
      var c := Call(m, u, b.path);
      CallsAre(inp, a, c);
      CallsFromOk(inp, a);
      ResolveMeans(inp, c, b.visit);
      var i :| 0 <= i < |CallsFrom(inp, a)| && CallsFrom(inp, a)[i] == c;
      assert CallOk(inp, CallsFrom(inp, a)[i]);
    }
  }

  lemma StartMeans(inp: Input, doc: NodeId, destination: TypeRef, v: Visit, path: string)
    requires inp.Closed() && doc in inp.nodes
    ensures RootOf(inp, doc, destination) == Some(Stop(v, path)) <==> Starts(inp, doc, destination, v) && path == ""
  {
    var d := inp.nodes[doc];
    if d.kind == Document && |d.content| == 1 {
      ResolveMeans(inp, Call(d.content[0], destination, ""), v);
    }
  }

  lemma {:induction false} RouteIsTrail(inp: Input, doc: NodeId, destination: TypeRef, route: seq<Stop>)
    requires inp.Closed() && doc in inp.nodes && Route(inp, RootOf(inp, doc, destination), route)
    ensures Found(inp, doc, destination, route[|route| - 1].visit, route[|route| - 1].path)
  {
    var n := |route| - 1;
    if n == 0 {
      StartMeans(inp, doc, destination, route[0].visit, route[0].path);
      assert Trail(inp, doc, destination, [route[0].visit], []);
    } else {
      assert Route(inp, RootOf(inp, doc, destination), route[..n]);
      RouteIsTrail(inp, doc, destination, route[..n]);
      assert route[..n][|route[..n]| - 1] == route[n - 1];
      assert Edge(inp, route[n - 1], route[n - 1 + 1]);
      EdgeMeans(inp, route[n - 1], route[n]);
      var way :| LeadsTo(inp, route[n - 1].visit, way, route[n].visit) && route[n].path == PathAfter(route[n - 1].path, way);
      FoundNext(inp, doc, destination, route[n - 1].visit, route[n - 1].path, way, route[n].visit);
    }
  }

  lemma FoundNext(inp: Input, doc: NodeId, destination: TypeRef, v: Visit, path: string, way: Way, w: Visit)
    requires Found(inp, doc, destination, v, path) && LeadsTo(inp, v, way, w)
    ensures Found(inp, doc, destination, w, PathAfter(path, way))
  {
    var visits, ways :| Trail(inp, doc, destination, visits, ways) && visits[|ways|] == v && PathOf(ways) == path;
    var vs, ws := visits + [w], ways + [way];
    assert ws[..|ws| - 1] == ways;
    assert Trail(inp, doc, destination, vs, ws) by {
      forall i | 0 <= i < |ws| ensures LeadsTo(inp, vs[i], ws[i], vs[i + 1]) {
        if i < |ways| { assert LeadsTo(inp, visits[i], ways[i], visits[i + 1]); }
      }
    }
    assert vs[|ws|] == w;
  }

  lemma TrailFront(inp: Input, doc: NodeId, destination: TypeRef, visits: seq<Visit>, ways: seq<Way>)
    requires Trail(inp, doc, destination, visits, ways) && ways != []
    ensures var n := |ways| - 1;
            Trail(inp, doc, destination, visits[..n + 1], ways[..n]) && LeadsTo(inp, visits[n], ways[n], visits[n + 1])
            && PathOf(ways) == PathAfter(PathOf(ways[..n]), ways[n])
  {
    var n := |ways| - 1;
    assert LeadsTo(inp, visits[n], ways[n], visits[n + 1]);
    forall i | 0 <= i < n ensures LeadsTo(inp, visits[..n + 1][i], ways[..n][i], visits[..n + 1][i + 1]) {
      assert LeadsTo(inp, visits[i], ways[i], visits[i + 1]);
    }
  }

  lemma {:induction false} TrailIsRoute(inp: Input, doc: NodeId, destination: TypeRef, visits: seq<Visit>, ways: seq<Way>)
    returns (route: seq<Stop>)
    requires inp.Closed() && doc in inp.nodes && Trail(inp, doc, destination, visits, ways)
    ensures Route(inp, RootOf(inp, doc, destination), route)
    ensures route[|route| - 1] == Stop(visits[|ways|], PathOf(ways))
    decreases |ways|
  {
    if ways == [] {
      StartMeans(inp, doc, destination, visits[0], "");
      route := [Stop(visits[0], "")];
    } else {
      var n := |ways| - 1;
      TrailFront(inp, doc, destination, visits, ways);
      route := TrailIsRoute(inp, doc, destination, visits[..n + 1], ways[..n]);
      var b := Stop(visits[n + 1], PathOf(ways));
      LeadsIsEdge(inp, route[|route| - 1], ways[n], b);
      RouteExtends(inp, RootOf(inp, doc, destination), route, b);
      route := route + [b];
    }
  }

  lemma LeadsIsEdge(inp: Input, a: Stop, way: Way, b: Stop)
    requires inp.Closed() && LeadsTo(inp, a.visit, way, b.visit) && b.path == PathAfter(a.path, way)
    ensures Edge(inp, a, b)
  {
    var m, u :| Under(inp, a.visit, way, m, u) && Means(inp, m, u, b.visit);
    EdgeMeans(inp, a, b);
  }

  lemma RouteExtends(inp: Input, root: Option<Stop>, route: seq<Stop>, b: Stop)
    requires Route(inp, root, route) && Edge(inp, route[|route| - 1], b)
    ensures Route(inp, root, route + [b])
  {
    var next := route + [b];
    forall i | 0 <= i < |next| - 1 ensures Edge(inp, next[i], next[i + 1]) {
      if i < |route| - 1 { assert Edge(inp, route[i], route[i + 1]); }
    }
  }

  // So the value of every struct field that a key is given to is found, under the field's
  // own type.
  lemma FieldIsFound(inp: Input, doc: NodeId, destination: TypeRef, v: Visit, path: string,
                     p: nat, key: NodeId, value: NodeId, i: nat, w: Visit)
    requires inp.Closed() && Found(inp, doc, destination, v, path) && InInput(inp, v)
    requires inp.types[v.typ].shape.Struct? && !inp.types[v.typ].decodesItself && inp.nodes[v.node].kind == Mapping
    requires PairAt(inp.nodes[v.node].content, p, key, value) && key in inp.nodes && !IsMergeKey(inp.nodes[key])
    requires var fields, k := inp.types[v.typ].shape.fields, inp.nodes[key].value;
             i < |fields| && Selects(fields[i], k) && forall j :: 0 <= j < i ==> !Selects(fields[j], k)
    requires Means(inp, value, inp.types[v.typ].shape.fields[i].ftype, w)
    ensures Found(inp, doc, destination, w, PathAfter(path, Key(inp.nodes[key].value)))
  {
    var way, u := Key(inp.nodes[key].value), inp.types[v.typ].shape.fields[i].ftype;
    assert GivenTo(inp.types[v.typ].shape.fields, way.key, u);
    assert Under(inp, v, way, value, u);
    assert LeadsTo(inp, v, way, w);
    FoundNext(inp, doc, destination, v, path, way, w);
  }

  // What the walk searches is what the trails lead to, with their paths.
  lemma ReachedMeans(inp: Input, doc: NodeId, destination: TypeRef, v: Visit, path: string)
    requires inp.Closed() && doc in inp.nodes
    ensures ReachedAt(inp, RootOf(inp, doc, destination), Stop(v, path)) <==> Found(inp, doc, destination, v, path)
  {
    if ReachedAt(inp, RootOf(inp, doc, destination), Stop(v, path)) {
      var route :| Route(inp, RootOf(inp, doc, destination), route) && route[|route| - 1] == Stop(v, path);
      RouteIsTrail(inp, doc, destination, route);
    }
    if Found(inp, doc, destination, v, path) {
      var visits, ways :| Trail(inp, doc, destination, visits, ways) && visits[|ways|] == v && PathOf(ways) == path;
      var route := TrailIsRoute(inp, doc, destination, visits, ways);
    }
  }

  // An index is written in decimal: digits only, no leading zero, and its own value.
  lemma {:induction false} DigitsMean(n: nat)
    ensures Digits(n) != "" && (forall i :: 0 <= i < |Digits(n)| ==> '0' <= Digits(n)[i] <= '9')
    ensures Digits(n)[0] == '0' ==> n == 0
    ensures Strings.NumberOf(Digits(n)) == n
  {
    if n < 10 {
      assert Digits(n)[..0] == "";
    } else {
      DigitsMean(n / 10);
      assert Digits(n)[..|Digits(n)| - 1] == Digits(n / 10);
    }
  }
}
