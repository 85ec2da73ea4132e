/**
  The differ (internal/diff/diff.go) over JSON documents. It is one-sided: what the
  desired document does not mention is not compared.

  A JSON number is its exact value, which is what valuesEqual compares; equality of JSON
  renderings is equality of values.
*/
module Diff {
  import opened Wrappers
  import opened Strings

  datatype Json =
    | Null
    | Bool(b: bool)
    | Number(n: real)
    | Text(s: string)
    | List(items: seq<Json>)
    | Object(fields: Doc)

  type Doc = map<string, Json>

  // `from` is Null where the location is absent.
  datatype FieldChange = FieldChange(path: string, from: Json, to: Json)

  // A change whose location is given as the keys that lead to it.
  datatype KeyChange = KeyChange(keys: seq<string>, from: Json, to: Json)

  // ---------------------------------------------------------------- what Fields reports

  function Under(k: string, cs: seq<KeyChange>): (r: seq<KeyChange>)
    ensures |r| == |cs|
  {
    seq(|cs|, i requires 0 <= i < |cs| => KeyChange([k] + cs[i].keys, cs[i].from, cs[i].to))
  }

  // The changes between two present values.
  ghost function ValueChanges(cur: Json, des: Json): seq<KeyChange>
    decreases des, 3
  {
    if cur.Object? && des.Object? then Changes(cur.fields, des.fields)
    else if cur == des then []
    else [KeyChange([], cur, des)]
  }

  ghost function KeyChanges(cur: Doc, des: Doc, k: string): seq<KeyChange>
    decreases Object(des), 0
  {
    if k !in des then []
    else if k !in cur then [KeyChange([k], Null, des[k])]
    else
      assert des[k] < Object(des);
      Under(k, ValueChanges(cur[k], des[k]))
  }

  ghost function ChangesOver(cur: Doc, des: Doc, keys: seq<string>): seq<KeyChange>
    decreases Object(des), 1, |keys|
  {
    if keys == [] then [] else KeyChanges(cur, des, keys[0]) + ChangesOver(cur, des, keys[1..])
  }

  ghost function Changes(cur: Doc, des: Doc): seq<KeyChange>
    decreases Object(des), 2
  {
    ChangesOver(cur, des, Listing(cur.Keys + des.Keys))
  }

  // ---------------------------------------------------------------- Fields

  function IsSlice(v: Json): bool {
    v.List?
  }

  // slicesEqualByJSON
  function SlicesEqual(a: Json, b: Json): bool
    requires a.List? && b.List?
  {
    a.items == b.items
  }

  // valuesEqual: numbers by value, nothing else coerced.
  function ValuesEqual(a: Json, b: Json): (r: bool)
    ensures r <==> a == b
  {
    if a.Null? || b.Null? then a.Null? && b.Null?
    else if a.Number? || b.Number? then a.Number? && b.Number? && a.n == b.n
    else a == b
  }

  function ExtendPath(prefix: string, k: string): string {
    if prefix != "" then prefix + "." + k else k
  }

  function Render(prefix: string, keys: seq<string>): string
    decreases |keys|
  {
    if keys == [] then prefix else Render(ExtendPath(prefix, keys[0]), keys[1..])
  }

  function RenderAll(prefix: string, cs: seq<KeyChange>): (r: seq<FieldChange>)
    ensures |r| == |cs|
  {
    seq(|cs|, i requires 0 <= i < |cs| => FieldChange(Render(prefix, cs[i].keys), cs[i].from, cs[i].to))
  }

  lemma RenderUnder(prefix: string, k: string, cs: seq<KeyChange>)
    ensures RenderAll(prefix, Under(k, cs)) == RenderAll(ExtendPath(prefix, k), cs)
  {
    forall i | 0 <= i < |cs| ensures Render(prefix, Under(k, cs)[i].keys) == Render(ExtendPath(prefix, k), cs[i].keys) {
      assert Under(k, cs)[i].keys[1..] == cs[i].keys;
    }
  }

  // What Fields reports for one key, case by case.
  lemma KeyChangesRendered(prefix: string, cur: Doc, des: Doc, k: string)
    ensures var here, path := RenderAll(prefix, KeyChanges(cur, des, k)), ExtendPath(prefix, k);
            here == if k !in des then []
                    else if k !in cur then [FieldChange(path, Null, des[k])]
                    else RenderAll(path, ValueChanges(cur[k], des[k]))
  {
    if k in des && k in cur {
      RenderUnder(prefix, k, ValueChanges(cur[k], des[k]));
    } else {
      assert [k][1..] == [];
      assert Render(prefix, [k]) == Render(ExtendPath(prefix, k), []);
    }
  }

  // Taking key i off what is still to report moves its changes to the end of `out`.
  lemma RenderOver(prefix: string, cur: Doc, des: Doc, keys: seq<string>, i: nat, out: seq<FieldChange>)
    requires i < |keys|
    ensures out + RenderAll(prefix, ChangesOver(cur, des, keys[i..])) ==
            (out + RenderAll(prefix, KeyChanges(cur, des, keys[i]))) + RenderAll(prefix, ChangesOver(cur, des, keys[i + 1..]))
  {
    assert keys[i..][1..] == keys[i + 1..];
    var here, rest := RenderAll(prefix, KeyChanges(cur, des, keys[i])), RenderAll(prefix, ChangesOver(cur, des, keys[i + 1..]));
    assert RenderAll(prefix, ChangesOver(cur, des, keys[i..])) == here + rest;
    assert out + (here + rest) == (out + here) + rest;
  }

  method Fields(current: Doc, desired: Doc, prefix: string) returns (out: seq<FieldChange>)
    ensures out == RenderAll(prefix, Changes(current, desired))
    decreases Object(desired), 0
  {
    var keys := SortedKeys(current.Keys + desired.Keys);
    out := [];
    for i := 0 to |keys|
      invariant RenderAll(prefix, Changes(current, desired)) ==
                out + RenderAll(prefix, ChangesOver(current, desired, keys[i..]))
    {
      var k := keys[i];
      var path := k;
      if prefix != "" {
        path := prefix + "." + k;
      }
      KeyChangesRendered(prefix, current, desired, k);
      RenderOver(prefix, current, desired, keys, i, out);
      ghost var after := out + RenderAll(prefix, KeyChanges(current, desired, k));
      if k !in desired {
        assert out == after;
        continue;
      }
      var desV := desired[k];
      if k !in current {
        out := out + [FieldChange(path, Null, desV)];
        assert out == after;
        continue;
      }
      assert desV < Object(desired);
      var here := BothPresent(current[k], desV, path);
      out := out + here;
      assert out == after;
    }
  }

  // The rest of the loop body, for a key both documents have.
  method BothPresent(curV: Json, desV: Json, path: string) returns (out: seq<FieldChange>)
    ensures out == RenderAll(path, ValueChanges(curV, desV))
    decreases desV, 1
  {
    if curV.Object? && desV.Object? {
      out := Fields(curV.fields, desV.fields, path);
      return;
    }
    if IsSlice(curV) && IsSlice(desV) {
      if !SlicesEqual(curV, desV) {
        return [FieldChange(path, curV, desV)];
      }
      return [];
    }
    if !ValuesEqual(curV, desV) {
      return [FieldChange(path, curV, desV)];
    }
    return [];
  }

  // ---------------------------------------------------------------- when nothing is reported

  // The current value satisfies every demand of the desired one.
  ghost predicate Covers(cur: Json, des: Json)
    decreases des
  {
    if cur.Object? && des.Object? then
      forall k :: k in des.fields ==> k in cur.fields && Covers(cur.fields[k], des.fields[k])
    else cur == des
  }

  lemma {:induction false} ChangesOverMembers(cur: Doc, des: Doc, keys: seq<string>, c: KeyChange)
    ensures c in ChangesOver(cur, des, keys) <==> exists k :: k in keys && c in KeyChanges(cur, des, k)
  {
    if keys != [] {
      ChangesOverMembers(cur, des, keys[1..], c);
      assert keys == [keys[0]] + keys[1..];
      if c in ChangesOver(cur, des, keys[1..]) {
        var k :| k in keys[1..] && c in KeyChanges(cur, des, k);
        assert k in keys;
      }
      if k :| k in keys && c in KeyChanges(cur, des, k) {
        assert k == keys[0] || k in keys[1..];
      }
    }
  }

  lemma ChangesMembers(cur: Doc, des: Doc, c: KeyChange)
    ensures c in Changes(cur, des) <==> exists k :: k in des && c in KeyChanges(cur, des, k)
  {
    ChangesOverMembers(cur, des, Listing(cur.Keys + des.Keys), c);
    forall k | k in des ensures k in Listing(cur.Keys + des.Keys) {
      assert k in Elements(Listing(cur.Keys + des.Keys));
    }
  }

  lemma {:induction false} ChangesOverEmpty(cur: Doc, des: Doc, keys: seq<string>)
    ensures ChangesOver(cur, des, keys) == [] <==> forall k :: k in keys ==> KeyChanges(cur, des, k) == []
  {
    if keys != [] {
      ChangesOverEmpty(cur, des, keys[1..]);
      assert keys == [keys[0]] + keys[1..];
      assert forall k :: k in keys <==> k == keys[0] || k in keys[1..];
      assert keys[0] in keys;
    }
  }

  // Nothing is reported exactly when the current value covers the desired one.
  lemma {:induction false} NothingReported(cur: Json, des: Json)
    ensures ValueChanges(cur, des) == [] <==> Covers(cur, des)
    decreases des
  {
    if cur.Object? && des.Object? {
      var c, d := cur.fields, des.fields;
      var keys := Listing(c.Keys + d.Keys);
      ChangesOverEmpty(c, d, keys);
      forall k ensures KeyChanges(c, d, k) == [] <==> k in d ==> k in c && Covers(c[k], d[k]) {
        if k in d && k in c {
          NothingReported(c[k], d[k]);
        }
      }
      forall k | k in d ensures k in keys {
        assert k in Elements(keys);
      }
    }
  }

  lemma NonEmptyMember(cs: seq<KeyChange>)
    ensures cs == [] || exists c :: c in cs
  {
    assert cs == [] || cs[0] in cs;
  }

  // ---------------------------------------------------------------- applying the changes

  // The value at a location.
  ghost function At(v: Json, keys: seq<string>): Option<Json> {
    if keys == [] then Some(v)
    else if v.Object? && keys[0] in v.fields then At(v.fields[keys[0]], keys[1..])
    else None
  }

  ghost function Put(v: Json, keys: seq<string>, to: Json): Json
    decreases |keys|
  {
    if keys == [] then to
    else
      var doc := if v.Object? then v.fields else map[];
      var child := if keys[0] in doc then doc[keys[0]] else Null;
      Object(doc[keys[0] := Put(child, keys[1..], to)])
  }

  ghost function ApplyAll(v: Json, cs: seq<KeyChange>): Json
    decreases |cs|
  {
    if cs == [] then v else ApplyAll(Put(v, cs[0].keys, cs[0].to), cs[1..])
  }

  // The desired document laid over the current one, all at once.
  ghost function Overlay(cur: Json, des: Json): Json
    decreases des
  {
    if cur.Object? && des.Object? then
      Object(map k | k in cur.fields.Keys + des.fields.Keys ::
               if k !in des.fields then cur.fields[k]
               else if k !in cur.fields then des.fields[k]
               else Overlay(cur.fields[k], des.fields[k]))
    else des
  }

  lemma {:induction false} ApplyConcat(v: Json, a: seq<KeyChange>, b: seq<KeyChange>)
    ensures ApplyAll(v, a + b) == ApplyAll(ApplyAll(v, a), b)
    decreases |a|
  {
    if a == [] {
      assert a + b == b;
    } else {
      assert (a + b)[1..] == a[1..] + b;
      ApplyConcat(Put(v, a[0].keys, a[0].to), a[1..], b);
    }
  }

  lemma {:induction false} ApplyUnder(doc: Doc, k: string, cs: seq<KeyChange>)
    requires k in doc
    ensures ApplyAll(Object(doc), Under(k, cs)) == Object(doc[k := ApplyAll(doc[k], cs)])
    decreases |cs|
  {
    if cs == [] {
      assert doc[k := doc[k]] == doc;
    } else {
      var u := Under(k, cs);
      assert u[0].keys[1..] == cs[0].keys;
      assert u[1..] == Under(k, cs[1..]);
      var doc' := doc[k := Put(doc[k], cs[0].keys, cs[0].to)];
      ApplyUnder(doc', k, cs[1..]);
      assert doc'[k := ApplyAll(doc'[k], cs[1..])] == doc[k := ApplyAll(doc'[k], cs[1..])];
    }
  }

  ghost function OverlayKey(doc: Doc, des: Doc, k: string): Doc {
    if k !in des then doc else doc[k := if k in doc then Overlay(doc[k], des[k]) else des[k]]
  }

  ghost predicate AgreeAt(a: Doc, b: Doc, k: string) {
    (k in a <==> k in b) && (k in a ==> a[k] == b[k])
  }

  lemma {:induction false} ApplyKey(doc: Doc, cur: Doc, des: Doc, k: string)
    requires AgreeAt(doc, cur, k)
    ensures ApplyAll(Object(doc), KeyChanges(cur, des, k)) == Object(OverlayKey(doc, des, k))
    decreases Object(des), 0
  {
    if k in des {
      if k in cur {
        assert des[k] < Object(des);
        ApplyUnder(doc, k, ValueChanges(cur[k], des[k]));
        ApplyChanges(cur[k], des[k]);
      } else {
        var cs := KeyChanges(cur, des, k);
        assert cs[1..] == [] && cs[0].keys[1..] == [];
        assert ApplyAll(Put(Object(doc), cs[0].keys, cs[0].to), cs[1..]) == Object(doc[k := des[k]]);
      }
    }
  }

  lemma AgreeEverywhere(a: Doc, b: Doc)
    requires forall k :: AgreeAt(a, b, k)
    ensures a == b
  {
    forall k ensures (k in a.Keys <==> k in b.Keys) && (k in a ==> a[k] == b[k]) {
      assert AgreeAt(a, b, k);
    }
    assert a.Keys == b.Keys;
  }

  lemma {:induction false} ApplyKeys(doc: Doc, cur: Doc, des: Doc, keys: seq<string>)
    returns (doc': Doc)
    requires NoDuplicates(keys)
    requires forall k :: k in keys ==> AgreeAt(doc, cur, k)
    ensures ApplyAll(Object(doc), ChangesOver(cur, des, keys)) == Object(doc')
    ensures forall k :: AgreeAt(doc', if k in keys then OverlayKey(doc, des, k) else doc, k)
    decreases Object(des), 1, |keys|
  {
    if keys == [] {
      doc' := doc;
    } else {
      var k := keys[0];
      assert keys == [k] + keys[1..];
      assert k !in keys[1..];
      ApplyKey(doc, cur, des, k);
      ApplyConcat(Object(doc), KeyChanges(cur, des, k), ChangesOver(cur, des, keys[1..]));
      forall x | x in keys[1..] ensures AgreeAt(OverlayKey(doc, des, k), cur, x) {
        assert AgreeAt(doc, cur, x) && x != k;
      }
      doc' := ApplyKeys(OverlayKey(doc, des, k), cur, des, keys[1..]);
    }
  }

  // Applying the reported changes one after another lays the desired document over the
  // current one.
  lemma {:induction false} ApplyChanges(cur: Json, des: Json)
    ensures ApplyAll(cur, ValueChanges(cur, des)) == Overlay(cur, des)
    decreases des, 3
  {
    if cur.Object? && des.Object? {
      var c, d := cur.fields, des.fields;
      var keys := Listing(c.Keys + d.Keys);
      var doc' := ApplyKeys(c, c, d, keys);
      forall k ensures AgreeAt(doc', Overlay(cur, des).fields, k) {
        assert k in keys <==> k in Elements(keys);
      }
      AgreeEverywhere(doc', Overlay(cur, des).fields);
    } else if cur != des {
      var cs := ValueChanges(cur, des);
      assert cs[1..] == [];
      assert ApplyAll(Put(cur, cs[0].keys, cs[0].to), cs[1..]) == des;
    }
  }

  lemma {:induction false} CoversItself(v: Json)
    ensures Covers(v, v)
    decreases v
  {
    if v.Object? {
      forall k | k in v.fields ensures Covers(v.fields[k], v.fields[k]) {
        CoversItself(v.fields[k]);
      }
    }
  }

  lemma {:induction false} OverlayCovers(cur: Json, des: Json)
    ensures Covers(Overlay(cur, des), des)
    decreases des
  {
    if cur.Object? && des.Object? {
      forall k | k in des.fields ensures Covers(Overlay(cur, des).fields[k], des.fields[k]) {
        if k in cur.fields {
          OverlayCovers(cur.fields[k], des.fields[k]);
        } else {
          CoversItself(des.fields[k]);
        }
      }
    } else {
      CoversItself(des);
    }
  }

  // Sound: applying what is reported makes the next report empty.
  lemma PatchCompletes(cur: Json, des: Json)
    ensures Covers(ApplyAll(cur, ValueChanges(cur, des)), des)
    ensures ValueChanges(ApplyAll(cur, ValueChanges(cur, des)), des) == []
  {
    ApplyChanges(cur, des);
    OverlayCovers(cur, des);
    NothingReported(Overlay(cur, des), des);
  }

  // ---------------------------------------------------------------- each change is needed

  // A change names a location the desired document sets and the current one lacks or
  // holds differently.
  lemma {:induction false} ChangeIsReal(cur: Json, des: Json, c: KeyChange)
    requires c in ValueChanges(cur, des)
    ensures At(des, c.keys) == Some(c.to)
    ensures At(cur, c.keys) == None ==> c.from == Null
    ensures At(cur, c.keys).Some? ==> At(cur, c.keys) == Some(c.from) && c.from != c.to
    ensures At(cur, c.keys).Some? ==> !(c.from.Object? && c.to.Object?)
    decreases des
  {
    if cur.Object? && des.Object? {
      ChangesMembers(cur.fields, des.fields, c);
      var k :| k in des.fields && c in KeyChanges(cur.fields, des.fields, k);
      if k in cur.fields {
        var inner := ValueChanges(cur.fields[k], des.fields[k]);
        var i :| 0 <= i < |inner| && c == Under(k, inner)[i];
        assert inner[i] in inner;
        ChangeIsReal(cur.fields[k], des.fields[k], inner[i]);
        assert c.keys[1..] == inner[i].keys;
      } else {
        assert c.keys[1..] == [];
      }
    }
  }

  lemma {:induction false} CoversAt(v: Json, des: Json, keys: seq<string>)
    requires Covers(v, des) && At(des, keys).Some?
    ensures At(v, keys).Some? && Covers(At(v, keys).value, At(des, keys).value)
    decreases |keys|
  {
    if keys != [] {
      CoversAt(v.fields[keys[0]], des.fields[keys[0]], keys[1..]);
    }
  }

  // Minimal: whatever else is changed, a document that keeps the current value at one
  // reported location does not cover the desired one.
  lemma EveryChangeNeeded(cur: Json, des: Json, c: KeyChange, v: Json)
    requires c in ValueChanges(cur, des)
    requires At(v, c.keys) == At(cur, c.keys)
    ensures !Covers(v, des)
  {
    ChangeIsReal(cur, des, c);
    if Covers(v, des) {
      CoversAt(v, des, c.keys);
    }
  }

  lemma PrefixTail(a: seq<string>, b: seq<string>)
    requires a != [] && b != []
    ensures a <= b <==> a[0] == b[0] && a[1..] <= b[1..]
  {
    assert a == [a[0]] + a[1..] && b == [b[0]] + b[1..];
  }

  // No reported location lies at or below another.
  lemma {:induction false} LocationsApart(cur: Json, des: Json, i: nat, j: nat)
    requires i < |ValueChanges(cur, des)| && j < |ValueChanges(cur, des)| && i != j
    ensures !(ValueChanges(cur, des)[i].keys <= ValueChanges(cur, des)[j].keys)
    decreases des, 2
  {
    if cur.Object? && des.Object? {
      LocationsApartOver(cur.fields, des.fields, Listing(cur.fields.Keys + des.fields.Keys), i, j);
    }
  }

  lemma KeyChangesHead(cur: Doc, des: Doc, k: string)
    ensures forall i :: 0 <= i < |KeyChanges(cur, des, k)| ==>
              KeyChanges(cur, des, k)[i].keys != [] && KeyChanges(cur, des, k)[i].keys[0] == k
  {}

  // A change below key k is a change of the whole, and every change is below some key.
  lemma Ascend(cur: Doc, des: Doc, k: string, below: KeyChange) returns (c: KeyChange)
    requires k in cur && k in des && below in ValueChanges(cur[k], des[k])
    ensures c == KeyChange([k] + below.keys, below.from, below.to) && c in Changes(cur, des)
  {
    var inner := ValueChanges(cur[k], des[k]);
    var i :| 0 <= i < |inner| && inner[i] == below;
    c := Under(k, inner)[i];
    assert c in KeyChanges(cur, des, k);
    ChangesMembers(cur, des, c);
  }

  lemma NewKeyChange(cur: Doc, des: Doc, k: string) returns (c: KeyChange)
    requires k !in cur && k in des
    ensures c == KeyChange([k], Null, des[k]) && c in Changes(cur, des)
  {
    c := KeyChange([k], Null, des[k]);
    assert c in KeyChanges(cur, des, k);
    ChangesMembers(cur, des, c);
  }

  lemma Descend(cur: Doc, des: Doc, c: KeyChange) returns (k: string, below: KeyChange)
    requires c in Changes(cur, des)
    ensures k in des && c == KeyChange([k] + below.keys, below.from, below.to)
    ensures k in cur ==> below in ValueChanges(cur[k], des[k])
    ensures k !in cur ==> below == KeyChange([], Null, des[k])
  {
    ChangesMembers(cur, des, c);
    k :| k in des && c in KeyChanges(cur, des, k);
    if k in cur {
      var inner := ValueChanges(cur[k], des[k]);
      var i :| 0 <= i < |inner| && c == Under(k, inner)[i];
      below := inner[i];
    } else {
      below := KeyChange([], Null, des[k]);
      assert [k] + below.keys == [k];
    }
  }

  lemma {:induction false} LocationsApartKey(cur: Doc, des: Doc, k: string, i: nat, j: nat)
    requires i < |KeyChanges(cur, des, k)| && j < |KeyChanges(cur, des, k)| && i != j
    ensures !(KeyChanges(cur, des, k)[i].keys <= KeyChanges(cur, des, k)[j].keys)
    decreases Object(des), 0
  {
    assert des[k] < Object(des);
    var here, inner := KeyChanges(cur, des, k), ValueChanges(cur[k], des[k]);
    LocationsApart(cur[k], des[k], i, j);
    assert here[i].keys[1..] == inner[i].keys && here[j].keys[1..] == inner[j].keys;
    PrefixTail(here[i].keys, here[j].keys);
  }

  // Every location reported for `keys` starts with one of them.
  lemma ChangesOverHead(cur: Doc, des: Doc, keys: seq<string>, i: nat)
    requires i < |ChangesOver(cur, des, keys)|
    ensures ChangesOver(cur, des, keys)[i].keys != [] && ChangesOver(cur, des, keys)[i].keys[0] in keys
  {
    var c := ChangesOver(cur, des, keys)[i];
    ChangesOverMembers(cur, des, keys, c);
    var k :| k in keys && c in KeyChanges(cur, des, k);
    KeyChangesHead(cur, des, k);
  }

  lemma {:induction false} LocationsApartOver(cur: Doc, des: Doc, keys: seq<string>, i: nat, j: nat)
    requires NoDuplicates(keys)
    requires i < |ChangesOver(cur, des, keys)| && j < |ChangesOver(cur, des, keys)| && i != j
    ensures !(ChangesOver(cur, des, keys)[i].keys <= ChangesOver(cur, des, keys)[j].keys)
    decreases Object(des), 1, |keys|
  {
    var all, here := ChangesOver(cur, des, keys), KeyChanges(cur, des, keys[0]);
    var n := |here|;
    assert all == here + ChangesOver(cur, des, keys[1..]);
    KeyChangesHead(cur, des, keys[0]);
    if i < n && j < n {
      LocationsApartKey(cur, des, keys[0], i, j);
    } else if i >= n && j >= n {
      LocationsApartOver(cur, des, keys[1..], i - n, j - n);
    } else if i < n {
      ChangesOverHead(cur, des, keys[1..], j - n);
    } else {
      ChangesOverHead(cur, des, keys[1..], i - n);
    }
  }

  // ---------------------------------------------------------------- the rest is untouched

  // Every location unrelated to the reported ones keeps its value, absent ones included.
  lemma {:induction false} ElsewhereUntouched(cur: Json, des: Json, q: seq<string>)
    requires forall c :: c in ValueChanges(cur, des) ==> !(c.keys <= q) && !(q <= c.keys)
    ensures At(Overlay(cur, des), q) == At(cur, q)
    decreases des
  {
    if q == [] || !(cur.Object? && des.Object?) {
      var all := ValueChanges(cur, des);
      NonEmptyMember(all);
      NothingReported(cur, des);
      CoveredOverlay(cur, des);
    } else {
      var k := q[0];
      assert q == [k] + q[1..];
      if k in des.fields && k !in cur.fields {
        var c := NewKeyChange(cur.fields, des.fields, k);
      } else if k in des.fields {
        forall below | below in ValueChanges(cur.fields[k], des.fields[k])
          ensures !(below.keys <= q[1..]) && !(q[1..] <= below.keys)
        {
          var c := Ascend(cur.fields, des.fields, k, below);
          PrefixCons(k, below.keys, q[1..]);
        }
        ElsewhereUntouched(cur.fields[k], des.fields[k], q[1..]);
      }
    }
  }

  lemma PrefixCons(k: string, a: seq<string>, b: seq<string>)
    ensures a <= b ==> [k] + a <= [k] + b
    ensures b <= a ==> [k] + b <= [k] + a
  {}

  // Laying a covered document over the current one changes nothing.
  lemma {:induction false} CoveredOverlay(cur: Json, des: Json)
    requires Covers(cur, des)
    ensures Overlay(cur, des) == cur
    decreases des
  {
    if cur.Object? && des.Object? {
      forall k | k in des.fields ensures k in cur.fields && Overlay(cur.fields[k], des.fields[k]) == cur.fields[k] {
        CoveredOverlay(cur.fields[k], des.fields[k]);
      }
      assert Overlay(cur, des).fields == cur.fields;
    }
  }

  // At a reported location the desired value stands; above it an object stays an object.
  lemma {:induction false} ReportedLocation(cur: Json, des: Json, c: KeyChange, q: seq<string>)
    requires c in ValueChanges(cur, des) && q <= c.keys
    ensures q == c.keys ==> At(Overlay(cur, des), q) == Some(c.to)
    ensures q != c.keys ==> At(cur, q).Some? && At(cur, q).value.Object?
                            && At(Overlay(cur, des), q).Some? && At(Overlay(cur, des), q).value.Object?
    decreases des
  {
    if cur.Object? && des.Object? {
      var k, below := Descend(cur.fields, des.fields, c);
      assert c.keys[0] == k && c.keys[1..] == below.keys;
      if q != [] {
        assert q[0] == k && q[1..] <= below.keys;
        assert q == [k] + q[1..];
        if k in cur.fields {
          ReportedLocation(cur.fields[k], des.fields[k], below, q[1..]);
        }
      }
    }
  }

  // ---------------------------------------------------------------- paths as strings

  // No key of the document, at any depth, holds a dot.
  ghost predicate DotFree(v: Json)
    decreases v
  {
    v.Object? ==> forall k :: k in v.fields ==> Without(k, '.') && DotFree(v.fields[k])
  }

  // No key at any depth holds a dot, and nothing lies below an empty key at the top, which
  // leaves no trace in a path.
  ghost predicate PathsName(des: Doc) {
    DotFree(Object(des)) && ("" in des && des[""].Object? ==> des[""].fields == map[])
  }

  lemma {:induction false} KeysDotFree(v: Json, keys: seq<string>)
    requires DotFree(v) && At(v, keys).Some?
    ensures AllWithout(keys, '.')
    decreases |keys|
  {
    if keys != [] {
      KeysDotFree(v.fields[keys[0]], keys[1..]);
      assert keys == [keys[0]] + keys[1..];
    }
  }

  // A document that is not dot-free has a location that shows it.
  lemma {:induction false} DottedLocation(v: Json) returns (keys: seq<string>)
    requires !DotFree(v)
    ensures keys != [] && At(v, keys).Some? && !AllWithout(keys, '.')
    decreases v
  {
    var k :| k in v.fields && !(Without(k, '.') && DotFree(v.fields[k]));
    if !Without(k, '.') {
      keys := [k];
      assert keys[1..] == [];
      assert keys[0] == k;
    } else {
      var below := DottedLocation(v.fields[k]);
      keys := [k] + below;
      assert keys[1..] == below;
      var i :| 0 <= i < |below| && !Without(below[i], '.');
      assert keys[i + 1] == below[i];
    }
  }

  // A path splits back into these keys.
  predicate KeysNamed(keys: seq<string>)
    requires keys != []
  {
    AllWithout(keys, '.') && (keys[0] != "" || |keys| == 1)
  }

  lemma {:induction false} RenderBelow(prefix: string, keys: seq<string>)
    requires prefix != ""
    ensures Render(prefix, keys) == Join([prefix] + keys, '.')
    decreases |keys|
  {
    if keys == [] {
      assert [prefix] + keys == [prefix];
    } else {
      RenderBelow(ExtendPath(prefix, keys[0]), keys[1..]);
      JoinHeads(prefix, keys[0], keys[1..]);
      assert [prefix] + keys == [prefix, keys[0]] + keys[1..];
    }
  }

  lemma RenderJoins(keys: seq<string>)
    requires keys != [] && keys[0] != ""
    ensures Render("", keys) == Join(keys, '.')
  {
    RenderBelow(keys[0], keys[1..]);
    assert [keys[0]] + keys[1..] == keys;
  }

  // Keys without dots leave at most as many parts in their path, fewer when the first is
  // empty and others follow.
  lemma {:induction false} PartsOfPath(keys: seq<string>)
    requires keys != [] && AllWithout(keys, '.')
    ensures |Split(Render("", keys), '.')| <= |keys|
    ensures keys[0] == "" && |keys| > 1 ==> |Split(Render("", keys), '.')| < |keys|
  {
    if keys[0] != "" {
      RenderJoins(keys);
      SplitJoin(keys, '.');
    } else if |keys| > 1 {
      assert Render("", keys) == Render("", keys[1..]);
      PartsOfPath(keys[1..]);
    } else {
      assert Render("", keys) == Render("", []) by { assert keys[1..] == []; }
    }
  }

  // Exactly then.
  lemma PathSplitsBack(keys: seq<string>)
    requires keys != []
    ensures Split(Render("", keys), '.') == keys <==> KeysNamed(keys)
  {
    JoinSplit(Render("", keys), '.');
    if keys[0] != "" {
      RenderJoins(keys);
      if AllWithout(keys, '.') { SplitJoin(keys, '.'); }
    } else if |keys| == 1 {
      assert keys[1..] == [] && keys == [""];
      assert Render("", keys) == Render("", []) == "";
    } else if AllWithout(keys, '.') {
      PartsOfPath(keys);
    }
  }

  lemma JoinHeads(a: string, b: string, rest: seq<string>)
    ensures Join([a + "." + b] + rest, '.') == Join([a, b] + rest, '.')
  {
    var x, y := [a + "." + b] + rest, [a, b] + rest;
    assert x[1..] == rest && y[1..] == [b] + rest && ([b] + rest)[1..] == rest;
    if rest == [] {
      assert x == [a + "." + b] && y == [a, b];
      assert Join([b], '.') == b;
    } else {
      assert Join([b] + rest, '.') == b + ['.'] + Join(rest, '.');
      assert Join(x, '.') == (a + "." + b) + ['.'] + Join(rest, '.');
      assert a + ['.'] + (b + ['.'] + Join(rest, '.')) == (a + "." + b) + ['.'] + Join(rest, '.');
    }
  }

  ghost predicate LocationsNamed(des: Doc) {
    forall keys :: keys != [] && At(Object(des), keys).Some? ==> KeysNamed(keys)
  }

  // Every location of a document is named by its path exactly when no key holds a dot and
  // nothing lies below an empty top key.
  lemma NamedExactly(des: Doc)
    ensures LocationsNamed(des) <==> PathsName(des)
  {
    if PathsName(des) {
      forall keys | keys != [] && At(Object(des), keys).Some? ensures KeysNamed(keys) {
        KeysDotFree(Object(des), keys);
      }
    } else if !DotFree(Object(des)) {
      var keys := DottedLocation(Object(des));
      assert !KeysNamed(keys);
    } else {
      var k :| k in des[""].fields;
      var keys := ["", k];
      assert keys[1..] == [k] && [k][1..] == [];
      assert At(des[""], [k]) == At(des[""].fields[k], []);
      assert At(Object(des), keys).Some? && !KeysNamed(keys);
    }
  }

  // Every report is about a location of the desired document.
  lemma ReportedAtLocation(cur: Doc, des: Doc, i: nat)
    requires i < |Changes(cur, des)|
    ensures Changes(cur, des)[i].keys != [] && At(Object(des), Changes(cur, des)[i].keys).Some?
  {
    var c := Changes(cur, des)[i];
    assert c in ValueChanges(Object(cur), Object(des));
    ChangeIsReal(Object(cur), Object(des), c);
    var k, below := Descend(cur, des, c);
  }

  // Any location of the desired document is reported against some current document.
  lemma {:induction false} SomeReport(des: Doc, keys: seq<string>) returns (cur: Doc)
    requires keys != [] && At(Object(des), keys).Some?
    ensures keys[0] in cur <==> |keys| > 1
    ensures forall k :: k in cur ==> k == keys[0]
    ensures KeyChange(keys, Null, At(Object(des), keys).value) in Changes(cur, des)
    decreases |keys|
  {
    var k := keys[0];
    assert keys == [k] + keys[1..];
    if |keys| == 1 {
      cur := map[];
      assert keys == [k] && keys[1..] == [];
      var c := NewKeyChange(cur, des, k);
    } else {
      var inner := SomeReport(des[k].fields, keys[1..]);
      cur := map[k := Object(inner)];
      var c := Ascend(cur, des, k, KeyChange(keys[1..], Null, At(Object(des), keys).value));
    }
  }

  // Every reported path splits back into the keys of its location, against every current
  // document, exactly when no key of the desired document holds a dot and nothing lies below
  // an empty top key.
  lemma PathNamesLocation(des: Doc)
    ensures (forall cur: Doc, i :: 0 <= i < |Changes(cur, des)| ==>
               Split(RenderAll("", Changes(cur, des))[i].path, '.') == Changes(cur, des)[i].keys)
            <==> PathsName(des)
  {
    NamedExactly(des);
    if PathsName(des) {
      forall cur: Doc, i | 0 <= i < |Changes(cur, des)|
        ensures Split(RenderAll("", Changes(cur, des))[i].path, '.') == Changes(cur, des)[i].keys
      {
        ReportedAtLocation(cur, des, i);
        PathSplitsBack(Changes(cur, des)[i].keys);
      }
    } else {
      var keys :| keys != [] && At(Object(des), keys).Some? && !KeysNamed(keys);
      var cur := SomeReport(des, keys);
      var c := KeyChange(keys, Null, At(Object(des), keys).value);
      var i :| 0 <= i < |Changes(cur, des)| && Changes(cur, des)[i] == c;
      PathSplitsBack(keys);
      assert RenderAll("", Changes(cur, des))[i].path == Render("", keys);
    }
  }

  // Then no reported path equals another or continues one with a dot.
  lemma PathsApart(cur: Doc, des: Doc, i: nat, j: nat)
    requires PathsName(des) && i < |Changes(cur, des)| && j < |Changes(cur, des)| && i != j
    ensures var out := RenderAll("", Changes(cur, des));
            out[i].path != out[j].path && !(out[i].path + "." <= out[j].path)
  {
    var out := RenderAll("", Changes(cur, des));
    PathNamesLocation(des);
    LocationsApart(Object(cur), Object(des), i, j);
    SplitPrefix(out[i].path, out[j].path, '.');
  }

  // Two locations of a document, neither at or below the other, with one path.
  ghost predicate Collide(des: Doc, p: seq<string>, q: seq<string>) {
    && p != [] && q != [] && At(Object(des), p).Some? && At(Object(des), q).Some?
    && !(p <= q) && !(q <= p) && Render("", p) == Render("", q)
  }

  // Against some current document both of two such locations are reported.
  lemma {:induction false} BothReported(des: Doc, p: seq<string>, q: seq<string>) returns (cur: Doc)
    requires p != [] && q != [] && At(Object(des), p).Some? && At(Object(des), q).Some?
    requires !(p <= q) && !(q <= p)
    ensures KeyChange(p, Null, At(Object(des), p).value) in Changes(cur, des)
    ensures KeyChange(q, Null, At(Object(des), q).value) in Changes(cur, des)
    decreases |p|
  {
    assert p == [p[0]] + p[1..] && q == [q[0]] + q[1..];
    if p[0] == q[0] {
      var k := p[0];
      assert p[1..] != [] && q[1..] != [];
      var inner := BothReported(des[k].fields, p[1..], q[1..]);
      cur := map[k := Object(inner)];
      var c := Ascend(cur, des, k, KeyChange(p[1..], Null, At(Object(des), p).value));
      var d := Ascend(cur, des, k, KeyChange(q[1..], Null, At(Object(des), q).value));
    } else {
      var a := SomeReport(des, p);
      var b := SomeReport(des, q);
      cur := a + b;
      StillReported(a, cur, des, KeyChange(p, Null, At(Object(des), p).value));
      StillReported(b, cur, des, KeyChange(q, Null, At(Object(des), q).value));
    }
  }

  // What is reported depends on the current document only at its top key.
  lemma StillReported(cur: Doc, cur': Doc, des: Doc, c: KeyChange)
    requires c in Changes(cur, des) && c.keys != []
    requires Get(cur, c.keys[0]) == Get(cur', c.keys[0])
    ensures c in Changes(cur', des)
  {
    var k, below := Descend(cur, des, c);
    if k in cur {
      var c' := Ascend(cur', des, k, below);
    } else {
      var c' := NewKeyChange(cur', des, k);
      assert [k] + below.keys == [k];
    }
  }

  // Two reported locations share a path, against some current document, exactly when the
  // desired document has two locations, neither at or below the other, with one path.
  lemma PathsCollideExactly(des: Doc)
    ensures (exists cur: Doc, i, j :: 0 <= i < j < |Changes(cur, des)|
               && RenderAll("", Changes(cur, des))[i].path == RenderAll("", Changes(cur, des))[j].path)
            <==> exists p, q :: Collide(des, p, q)
  {
    forall cur: Doc, i, j | 0 <= i < j < |Changes(cur, des)|
                            && RenderAll("", Changes(cur, des))[i].path == RenderAll("", Changes(cur, des))[j].path
      ensures exists p, q :: Collide(des, p, q)
    {
      ReportedAtLocation(cur, des, i);
      ReportedAtLocation(cur, des, j);
      LocationsApart(Object(cur), Object(des), i, j);
      LocationsApart(Object(cur), Object(des), j, i);
      assert Collide(des, Changes(cur, des)[i].keys, Changes(cur, des)[j].keys);
    }
    if p, q :| Collide(des, p, q) {
      var cur := BothReported(des, p, q);
      var cs := Changes(cur, des);
      var i :| 0 <= i < |cs| && cs[i] == KeyChange(p, Null, At(Object(des), p).value);
      var j :| 0 <= j < |cs| && cs[j] == KeyChange(q, Null, At(Object(des), q).value);
      assert i != j;
      assert RenderAll("", cs)[i].path == RenderAll("", cs)[j].path;
      var a, b := if i < j then i else j, if i < j then j else i;
      assert RenderAll("", Changes(cur, des))[a].path == RenderAll("", Changes(cur, des))[b].path;
    }
  }

  lemma CollidingRenders()
    ensures Render("", ["a", "b"]) == "a.b" && Render("", ["a.b"]) == "a.b"
  {
    assert ["a", "b"][1..] == ["b"] && ["b"][1..] == [] && ["a.b"][1..] == [];
    assert Render("", ["a", "b"]) == Render("a", ["b"]) == Render("a.b", []) == "a.b";
    assert Render("", ["a.b"]) == Render("a.b", []) == "a.b";
  }

  // Dots in keys do collide: two locations reported under one path.
  lemma DottedKeysCollide() returns (cur: Doc, des: Doc, i: nat, j: nat)
    ensures i < |Changes(cur, des)| && j < |Changes(cur, des)| && i != j
    ensures RenderAll("", Changes(cur, des))[i].path == RenderAll("", Changes(cur, des))[j].path
  {
    var inner := Object(map["b" := Bool(true)]);
    cur, des := map["a" := Object(map[])], map["a" := inner, "a.b" := Bool(true)];
    var c, d := KeyChange(["a", "b"], Null, Bool(true)), KeyChange(["a.b"], Null, Bool(true));
    assert |"a"| != |"a.b"|;
    var d' := NewKeyChange(cur, des, "a.b");
    var below := NewKeyChange(map[], inner.fields, "b");
    var c' := Ascend(cur, des, "a", below);
    assert ["a"] + ["b"] == ["a", "b"];
    i :| 0 <= i < |Changes(cur, des)| && Changes(cur, des)[i] == c;
    j :| 0 <= j < |Changes(cur, des)| && Changes(cur, des)[j] == d;
    CollidingRenders();
    assert i != j;
  }
}
