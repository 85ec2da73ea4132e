/**
  The conditional-GET cache (internal/ghclient/cache.go): an LRU held in a list of items
  and a map from keys to those items, with invalidation by path. It is proved to refine a
  plain sequence of items, most recently used first.
*/
module EtagCache {
  import opened Wrappers
  import opened Strings

  type Body = seq<bv8>

  datatype Entry = Entry(etag: string, body: Body, path: string)

  // ---------------------------------------------------------------- paths

  // strips one trailing slash
  function CanonicalPath(p: string): string {
    if |p| > 1 && p[|p| - 1] == '/' then p[..|p| - 1] else p
  }

  function PathsRelated(cached: string, written: string): bool {
    if cached == "" then false
    else cached == written || written + "/" <= cached || cached + "/" <= written
  }

  // Relatedness is exact on segments: one path's segments begin the other's.
  lemma RelatedMeansSegments(cached: string, written: string)
    requires cached != ""
    ensures PathsRelated(cached, written) <==>
            Split(cached, '/') <= Split(written, '/') || Split(written, '/') <= Split(cached, '/')
  {
    SplitPrefix(cached, written, '/');
    SplitPrefix(written, cached, '/');
  }

  // ---------------------------------------------------------------- the MRU sequence

  datatype Item = Item(key: string, value: Entry)

  // The cache as a sequence, most recently used first.
  type Recency = seq<Item>

  ghost predicate DistinctItems(c: Recency) {
    forall i, j :: 0 <= i < j < |c| ==> c[i].key != c[j].key
  }

  function Find(c: Recency, key: string): Option<Entry> {
    if c == [] then None else if c[0].key == key then Some(c[0].value) else Find(c[1..], key)
  }

  // The items with a key outside `gone`, in order.
  function Excluding(c: Recency, gone: set<string>): Recency {
    if c == [] then []
    else if c[0].key in gone then Excluding(c[1..], gone)
    else [c[0]] + Excluding(c[1..], gone)
  }

  function Take<T>(s: seq<T>, n: nat): seq<T> {
    if |s| <= n then s else s[..n]
  }

  // Get: a hit moves the item to the front.
  function Touched(c: Recency, key: string): Recency {
    match Find(c, key)
    case None => c
    case Some(e) => [Item(key, e)] + Excluding(c, {key})
  }

  // Set: the item goes to the front and the oldest beyond `cap` drop off.
  function Inserted(c: Recency, cap: nat, key: string, e: Entry): Recency {
    Take([Item(key, e)] + Excluding(c, {key}), cap)
  }

  // The keys a write to `path` makes stale.
  function StaleKeys(c: Recency, path: string): set<string> {
    set i | 0 <= i < |c| && PathsRelated(CanonicalPath(c[i].value.path), CanonicalPath(path)) :: c[i].key
  }

  function Invalidated(c: Recency, path: string): Recency {
    if CanonicalPath(path) == "" then c else Excluding(c, StaleKeys(c, path))
  }

  lemma {:induction false} ExcludingItems(c: Recency, gone: set<string>)
    ensures forall x :: x in Excluding(c, gone) <==> x in c && x.key !in gone
    ensures |Excluding(c, gone)| <= |c|
  {
    if c != [] {
      ExcludingItems(c[1..], gone);
      assert c == [c[0]] + c[1..];
    }
  }

  lemma {:induction false} ExcludingDistinct(c: Recency, gone: set<string>)
    requires DistinctItems(c)
    ensures DistinctItems(Excluding(c, gone))
  {
    if c != [] {
      ExcludingDistinct(c[1..], gone);
      ExcludingItems(c[1..], gone);
      var rest := Excluding(c[1..], gone);
      forall i | 0 <= i < |rest| ensures rest[i].key != c[0].key {
        assert rest[i] in rest;
      }
    }
  }

  // Leaving out a key that is there shortens the sequence.
  lemma {:induction false} ExcludingShorter(c: Recency, i: nat)
    requires i < |c|
    ensures |Excluding(c, {c[i].key})| < |c|
  {
    ExcludingItems(c[1..], {c[i].key});
    if c[0].key != c[i].key { ExcludingShorter(c[1..], i - 1); }
  }

  lemma {:induction false} FindItem(c: Recency, key: string)
    ensures Find(c, key).Some? ==> Item(key, Find(c, key).value) in c
    ensures Find(c, key).None? ==> forall x :: x in c ==> x.key != key
  {
    if c != [] {
      FindItem(c[1..], key);
      assert c == [c[0]] + c[1..];
    }
  }

  lemma {:induction false} ExcludingFinds(c: Recency, gone: set<string>, key: string)
    ensures Find(Excluding(c, gone), key) == if key in gone then None else Find(c, key)
  {
    if c != [] { ExcludingFinds(c[1..], gone, key); }
  }

  // What one operation does to the entry found under each key.
  lemma TouchedFinds(c: Recency, key: string, k: string)
    ensures Find(Touched(c, key), k) == Find(c, k)
  {
    ExcludingFinds(c, {key}, k);
  }

  lemma InsertedFinds(c: Recency, cap: nat, key: string, e: Entry, k: string)
    requires cap > 0
    ensures Find(Inserted(c, cap, key, e), key) == Some(e)
    ensures k != key && Find(Inserted(c, cap, key, e), k).Some? ==> Find(Inserted(c, cap, key, e), k) == Find(c, k)
  {
    ExcludingFinds(c, {key}, k);
    var all := [Item(key, e)] + Excluding(c, {key});
    TakeFinds(all, cap, k);
    assert Inserted(c, cap, key, e)[0] == Item(key, e);
  }

  lemma {:induction false} TakeFinds(c: Recency, n: nat, k: string)
    ensures Find(Take(c, n), k).Some? ==> Find(Take(c, n), k) == Find(c, k)
  {
    if |c| > n && n > 0 {
      TakeFinds(c[1..], n - 1, k);
      assert Take(c, n)[1..] == Take(c[1..], n - 1);
    }
  }

  // A write keeps exactly the items on unrelated paths, in their order.
  lemma InvalidatedItems(c: Recency, path: string, x: Item)
    requires DistinctItems(c)
    ensures x in Invalidated(c, path) <==>
            x in c && (CanonicalPath(path) == "" || !PathsRelated(CanonicalPath(x.value.path), CanonicalPath(path)))
    ensures exists gone :: Invalidated(c, path) == Excluding(c, gone)
  {
    var stale := StaleKeys(c, path);
    ExcludingItems(c, stale);
    ExcludingNothing(c);
    if x in c {
      var i :| 0 <= i < |c| && c[i] == x;
      if x.key in stale {
        var j :| 0 <= j < |c| && PathsRelated(CanonicalPath(c[j].value.path), CanonicalPath(path)) && c[j].key == x.key;
        assert i == j;
      }
    }
    assert CanonicalPath(path) == "" ==> Invalidated(c, path) == Excluding(c, {});
    assert CanonicalPath(path) != "" ==> Invalidated(c, path) == Excluding(c, stale);
  }

  lemma {:induction false} ExcludingNothing(c: Recency)
    ensures Excluding(c, {}) == c
  {
    if c != [] { ExcludingNothing(c[1..]); }
  }

  // ---------------------------------------------------------------- what is forgotten

  // No more than `cap` items, each key once.
  ghost predicate Shaped(c: Recency, cap: nat) {
    DistinctItems(c) && |c| <= cap
  }

  lemma FrontedShape(c: Recency, key: string, e: Entry)
    requires DistinctItems(c)
    ensures DistinctItems([Item(key, e)] + Excluding(c, {key}))
    ensures Find(c, key).Some? ==> |[Item(key, e)] + Excluding(c, {key})| <= |c|
  {
    ExcludingItems(c, {key});
    ExcludingDistinct(c, {key});
    var rest := Excluding(c, {key});
    forall i | 0 <= i < |rest| ensures rest[i].key != key {
      assert rest[i] in rest;
    }
    if Find(c, key).Some? {
      FindItem(c, key);
      var i :| 0 <= i < |c| && c[i] == Item(key, Find(c, key).value);
      ExcludingShorter(c, i);
    }
  }

  // Every operation keeps the shape.
  lemma OperationsKeepShape(c: Recency, cap: nat, key: string, e: Entry, path: string)
    requires Shaped(c, cap)
    ensures Shaped(Touched(c, key), cap) && Shaped(Inserted(c, cap, key, e), cap) && Shaped(Invalidated(c, path), cap)
  {
    FrontedShape(c, key, e);
    if Find(c, key).Some? {
      FrontedShape(c, key, Find(c, key).value);
    }
    ExcludingDistinct(c, StaleKeys(c, path));
    ExcludingItems(c, StaleKeys(c, path));
  }

  // A write forgets a key exactly when its entry's path is related.
  lemma InvalidatedForgets(c: Recency, path: string, key: string)
    requires DistinctItems(c) && Find(c, key).Some?
    ensures Find(Invalidated(c, path), key).None? <==>
            CanonicalPath(path) != "" && PathsRelated(CanonicalPath(Find(c, key).value.path), CanonicalPath(path))
  {
    FindItem(c, key);
    var i :| 0 <= i < |c| && c[i] == Item(key, Find(c, key).value);
    ExcludingFinds(c, StaleKeys(c, path), key);
  }

  // `p` names the path `p0`, with or without a slash behind it.
  predicate Names(p: string, p0: string) {
    p0 != "" && (p == p0 + "/" || (p == p0 && (|p0| == 1 || p0[|p0| - 1] != '/')))
  }

  lemma NamedPath(p: string, p0: string)
    requires Names(p, p0)
    ensures CanonicalPath(p) == p0
  {}

  // In terms of raw paths: a write forgets a cached read exactly when the segments of one
  // path begin the other's, a slash behind either making no difference. A read without a
  // path is never forgotten, nor does a write without one forget anything.
  lemma WriteForgets(c: Recency, written: string, w0: string, key: string, c0: string)
    requires DistinctItems(c) && Find(c, key).Some? && Names(Find(c, key).value.path, c0) && Names(written, w0)
    ensures Find(Invalidated(c, written), key).None? <==>
            Split(c0, '/') <= Split(w0, '/') || Split(w0, '/') <= Split(c0, '/')
  {
    NamedPath(Find(c, key).value.path, c0);
    NamedPath(written, w0);
    InvalidatedForgets(c, written, key);
    RelatedMeansSegments(c0, w0);
  }

  lemma PathlessStays(c: Recency, written: string, key: string)
    requires DistinctItems(c) && Find(c, key).Some? && (Find(c, key).value.path == "" || written == "")
    ensures Find(Invalidated(c, written), key) == Find(c, key)
  {
    InvalidatedForgets(c, written, key);
    ExcludingFinds(c, StaleKeys(c, written), key);
  }

  lemma {:induction false} FindInFront(c: Recency, key: string)
    requires DistinctItems(c) && c != []
    ensures Find(c[..|c| - 1], key) == if c[|c| - 1].key == key then None else Find(c, key)
  {
    var n := |c| - 1;
    if n > 0 {
      assert c[1..][..n - 1] == c[..n][1..];
      FindInFront(c[1..], key);
    } else {
      assert c[1..] == [];
    }
  }

  // Storing one key forgets another exactly when the first is new, the cache is full, and
  // the other is the least recently used.
  lemma InsertedForgets(c: Recency, cap: nat, key: string, e: Entry, k: string)
    requires Shaped(c, cap) && cap > 0 && k != key && Find(c, k).Some?
    ensures Find(Inserted(c, cap, key, e), k).None? <==> Find(c, key).None? && |c| == cap && c[cap - 1].key == k
  {
    FrontedShape(c, key, e);
    ExcludingFinds(c, {key}, k);
    var all := [Item(key, e)] + Excluding(c, {key});
    assert all[1..] == Excluding(c, {key});
    if Find(c, key).None? {
      NoItem(c, key);
      if |c| == cap {
        FindInFront(c, k);
        assert all[..cap] == [Item(key, e)] + c[..cap - 1];
        assert ([Item(key, e)] + c[..cap - 1])[1..] == c[..cap - 1];
      }
    }
  }

  // ---------------------------------------------------------------- the list and the map

  class CacheItem {
    const key: string
    var value: Entry

    constructor (key: string, value: Entry)
      ensures this.key == key && this.value == value
    {
      this.key, this.value := key, value;
    }
  }

  // The list items other than `el`, in order.
  function Unlinked(order: seq<CacheItem>, el: CacheItem): seq<CacheItem> {
    if order == [] then []
    else if order[0] == el then Unlinked(order[1..], el)
    else [order[0]] + Unlinked(order[1..], el)
  }

  ghost function ItemsOf(order: seq<CacheItem>): (c: Recency)
    reads order
    ensures |c| == |order|
  {
    seq(|order|, i requires 0 <= i < |order| reads order => Item(order[i].key, order[i].value))
  }

  ghost predicate DistinctKeys(order: seq<CacheItem>) {
    forall i, j :: 0 <= i < j < |order| ==> order[i].key != order[j].key
  }

  lemma {:induction false} UnlinkedMembers(order: seq<CacheItem>, el: CacheItem)
    requires DistinctKeys(order) && el in order
    ensures forall j :: 0 <= j < |Unlinked(order, el)| ==>
              Unlinked(order, el)[j] in order && Unlinked(order, el)[j].key != el.key
    ensures forall x :: x in order && x != el ==> x in Unlinked(order, el)
    ensures DistinctKeys(Unlinked(order, el)) && |Unlinked(order, el)| == |order| - 1
  {
    assert order == [order[0]] + order[1..];
    if order[0] == el {
      UnlinkedAbsent(order[1..], el);
    } else {
      UnlinkedMembers(order[1..], el);
      assert el in order[1..];
      var i :| 0 <= i < |order| && order[i] == el;
      assert order[0].key != el.key;
      var rest := Unlinked(order[1..], el);
      forall j | 0 <= j < |rest| ensures rest[j].key != order[0].key {
        var n :| 0 <= n < |order[1..]| && order[1..][n] == rest[j];
        assert order[n + 1] == rest[j];
      }
    }
  }

  lemma {:induction false} UnlinkedContents(order: seq<CacheItem>, el: CacheItem)
    requires DistinctKeys(order) && el in order
    ensures ItemsOf(Unlinked(order, el)) == Excluding(ItemsOf(order), {el.key})
  {
    assert ItemsOf(order)[1..] == ItemsOf(order[1..]);
    if order[0] == el {
      UnlinkedAbsent(order[1..], el);
    } else {
      assert el in order[1..];
      UnlinkedContents(order[1..], el);
      var i :| 0 <= i < |order| && order[i] == el;
      assert order[0].key != el.key;
      var rest := Unlinked(order[1..], el);
      assert ItemsOf([order[0]] + rest) == [Item(order[0].key, order[0].value)] + ItemsOf(rest);
    }
  }

  lemma UnlinkedItems(order: seq<CacheItem>, el: CacheItem)
    requires DistinctKeys(order) && el in order
    ensures ItemsOf(Unlinked(order, el)) == Excluding(ItemsOf(order), {el.key})
    ensures forall j :: 0 <= j < |Unlinked(order, el)| ==>
              Unlinked(order, el)[j] in order && Unlinked(order, el)[j].key != el.key
    ensures forall x :: x in order && x != el ==> x in Unlinked(order, el)
    ensures DistinctKeys(Unlinked(order, el)) && |Unlinked(order, el)| == |order| - 1
  {
    UnlinkedMembers(order, el);
    UnlinkedContents(order, el);
  }

  lemma Fronted(order: seq<CacheItem>, el: CacheItem)
    requires DistinctKeys(order) && el in order
    ensures var front := [el] + Unlinked(order, el);
            && DistinctKeys(front) && |front| == |order|
            && ItemsOf(front) == [Item(el.key, el.value)] + Excluding(ItemsOf(order), {el.key})
            && (forall j :: 0 <= j < |front| ==> front[j] in order)
            && (forall x :: x in order ==> x in front)
  {
    UnlinkedItems(order, el);
    assert ItemsOf([el] + Unlinked(order, el)) == [Item(el.key, el.value)] + ItemsOf(Unlinked(order, el));
  }

  lemma {:induction false} UnlinkedAbsent(order: seq<CacheItem>, el: CacheItem)
    requires forall i :: 0 <= i < |order| ==> order[i].key != el.key
    ensures Unlinked(order, el) == order && Excluding(ItemsOf(order), {el.key}) == ItemsOf(order)
  {
    if order != [] {
      UnlinkedAbsent(order[1..], el);
      var items := ItemsOf(order);
      assert items[0] == Item(order[0].key, order[0].value) && items[1..] == ItemsOf(order[1..]);
      assert items == [items[0]] + items[1..];
    }
  }

  class Cache {
    const cap: nat
    var order: seq<CacheItem> // front is most recent
    var entries: map<string, CacheItem>

    ghost predicate Valid()
      reads this
    {
      0 < cap && |order| <= cap && Linked()
    }

    // The list and the map agree.
    ghost predicate Linked()
      reads this
    {
      && DistinctKeys(order)
      && (forall i :: 0 <= i < |order| ==> order[i].key in entries && entries[order[i].key] == order[i])
      && (forall k :: k in entries ==> entries[k] in order && entries[k].key == k)
    }

    ghost function Contents(): Recency
      reads this, order
    {
      ItemsOf(order)
    }

    constructor (capacity: int)
      ensures Valid() && Contents() == [] && fresh(this)
      ensures cap == if capacity <= 0 then 10000 else capacity
    {
      cap := if capacity <= 0 then 10000 else capacity;
      order := [];
      entries := map[];
    }

    lemma FindEntry(key: string)
      requires Valid()
      ensures Find(Contents(), key) == if key in entries then Some(entries[key].value) else None
    {
      FindItem(Contents(), key);
      if Find(Contents(), key).Some? {
        var i :| 0 <= i < |order| && Contents()[i] == Item(key, Find(Contents(), key).value);
        assert order[i].key == key;
      } else {
        forall i | 0 <= i < |order| ensures order[i].key != key {
          assert Contents()[i] in Contents();
        }
      }
    }

    // Every listed item is in the map, and its key is its own.
    lemma Listed(el: CacheItem)
      requires Linked() && el in order
      ensures el.key in entries && entries[el.key] == el
    {
      var i :| 0 <= i < |order| && order[i] == el;
    }

    method MoveToFront(el: CacheItem)
      requires Valid() && el in order
      modifies this`order
      ensures Valid()
      ensures Contents() == [Item(el.key, el.value)] + Excluding(old(Contents()), {el.key})
      ensures forall x :: x in order <==> x in old(order)
    {
      var front := [el] + Unlinked(order, el);
      Fronted(order, el);
      forall j | 0 <= j < |front| ensures front[j].key in entries && entries[front[j].key] == front[j] {
        Listed(front[j]);
      }
      order := front;
    }

    method Get(key: string) returns (r: Option<Entry>)
      requires Valid()
      modifies this`order
      ensures Valid() && r == Find(old(Contents()), key)
      ensures Contents() == Touched(old(Contents()), key)
      ensures forall x :: x in order <==> x in old(order)
    {
      FindEntry(key);
      if key in entries {
        var el := entries[key];
        MoveToFront(el);
        return Some(el.value);
      }
      return None;
    }

    method Set(key: string, e: Entry)
      requires Valid()
      modifies this, order
      ensures Valid()
      ensures Contents() == Inserted(old(Contents()), cap, key, e)
      ensures forall x :: x in order ==> x in old(order) || fresh(x)
    {
      FindEntry(key);
      if key in entries {
        var el := entries[key];
        SetExisting(el, e);
        return;
      }
      var el := new CacheItem(key, e);
      PushFront(el);
    }

    // The hit branch of Set.
    method SetExisting(el: CacheItem, e: Entry)
      requires Valid() && el in order
      modifies this`order, el
      ensures Valid()
      ensures Contents() == Inserted(old(Contents()), cap, el.key, e)
      ensures forall x :: x in order <==> x in old(order)
    {
      ghost var before := Contents();
      ghost var n :| 0 <= n < |order| && order[n] == el;
      ExcludingShorter(before, n);
      el.value := e;
      ghost var after := Contents();
      forall i | 0 <= i < |order| ensures after[i].key == before[i].key && (after[i].key != el.key ==> after[i] == before[i]) {
        assert order[i] != el ==> i != n;
      }
      ExcludingAgree(after, before, {el.key});
      MoveToFront(el);
    }

    // The miss branch of Set: link the new item and drop the oldest beyond the cap.
    method PushFront(el: CacheItem)
      requires Valid() && el.key !in entries
      modifies this`order, this`entries
      ensures Valid()
      ensures Contents() == Inserted(old(Contents()), cap, el.key, el.value)
      ensures forall x :: x in order ==> x in old(order) || x == el
    {
      FindEntry(el.key);
      MissInserted(Contents(), cap, el.key, el.value);
      PushedItems(order, el, cap);
      Link(el);
      if |order| > cap {
        DropOldest();
      }
    }

    method Link(el: CacheItem)
      requires Linked() && el.key !in entries
      modifies this`order, this`entries
      ensures Linked() && order == [el] + old(order)
    {
      forall j | 0 <= j < |order| ensures order[j].key != el.key {
        Listed(order[j]);
      }
      order := [el] + order;
      entries := entries[el.key := el];
    }

    // InvalidatePath: one pass over the map, in any order.
    method InvalidatePath(path: string)
      requires Valid()
      modifies this`order, this`entries
      ensures Valid()
      ensures Contents() == Invalidated(old(Contents()), path)
      ensures forall x :: x in order ==> x in old(order)
    {
      var written := CanonicalPath(path);
      if written == "" {
        return;
      }
      var rest := entries.Keys;
      ghost var before, listed, stale := Contents(), order, StaleKeys(Contents(), path);
      ExcludingNothing(before);
      StaleAreListed(path);
      assert stale - rest == {};
      while rest != {}
        invariant Valid() && (forall x :: x in order ==> x in listed)
        invariant rest <= entries.Keys
        invariant Contents() == Excluding(before, stale - rest)
        decreases rest
      {
        var key :| key in rest;
        Visit(key, written, before, stale, rest);
        rest := rest - {key};
      }
      assert stale - {} == stale;
    }

    lemma StaleAreListed(path: string)
      requires Linked()
      ensures StaleKeys(Contents(), path) <= entries.Keys
    {
      forall i | 0 <= i < |Contents()| ensures Contents()[i].key in entries {
        assert Contents()[i].key == order[i].key;
      }
    }

    // One entry of that pass; `rest` are the keys not yet visited.
    method Visit(key: string, written: string, ghost before: Recency, ghost stale: set<string>, ghost rest: set<string>)
      requires Valid() && key in rest && rest <= entries.Keys
      requires DistinctItems(before) && Contents() == Excluding(before, stale - rest)
      requires exists path :: written == CanonicalPath(path) && stale == StaleKeys(before, path)
      modifies this`order, this`entries
      ensures Valid() && rest - {key} <= entries.Keys
      ensures Contents() == Excluding(before, stale - (rest - {key}))
      ensures forall x :: x in order ==> x in old(order)
    {
      ghost var path :| written == CanonicalPath(path) && stale == StaleKeys(before, path);
      var el := entries[key];
      StaleKey(path, before, stale - rest, el);
      if PathsRelated(CanonicalPath(el.value.path), written) {
        Unlink(el);
        ExcludingTwice(before, stale - rest, key);
        assert stale - (rest - {key}) == (stale - rest) + {key};
      } else {
        assert stale - (rest - {key}) == stale - rest;
      }
    }

    // Whether a listed item is stale can be read off the item.
    lemma StaleKey(path: string, before: Recency, gone: set<string>, el: CacheItem)
      requires Linked() && el in order && DistinctItems(before) && Contents() == Excluding(before, gone)
      ensures el.key in StaleKeys(before, path) <==> PathsRelated(CanonicalPath(el.value.path), CanonicalPath(path))
    {
      var i :| 0 <= i < |order| && order[i] == el;
      assert Contents()[i] in Contents();
      ExcludingItems(before, gone);
      var j :| 0 <= j < |before| && before[j] == Item(el.key, el.value);
    }

    method Unlink(el: CacheItem)
      requires Valid() && el in order
      modifies this`order, this`entries
      ensures Valid() && entries == old(entries) - {el.key}
      ensures Contents() == Excluding(old(Contents()), {el.key})
      ensures forall x :: x in order ==> x in old(order)
    {
      UnlinkedItems(order, el);
      Listed(el);
      ghost var before := order;
      order := Unlinked(order, el);
      entries := entries - {el.key};
      forall j | 0 <= j < |order| ensures order[j].key in entries && entries[order[j].key] == order[j] {
        var i :| 0 <= i < |before| && before[i] == order[j];
      }
    }

    method DropOldest()
      requires Linked() && order != []
      modifies this`order, this`entries
      ensures Linked() && order == old(order)[..|old(order)| - 1]
      ensures forall x :: x in order ==> x in old(order)
    {
      var oldest := order[|order| - 1];
      Listed(oldest);
      order := order[..|order| - 1];
      entries := entries - {oldest.key};
      forall k | k in entries ensures entries[k] in order {
        var i :| 0 <= i < |old(order)| && old(order)[i] == entries[k];
        assert order[i] == entries[k];
      }
    }
  }

  // The list after a push, and after the oldest was dropped.
  lemma PushedItems(order: seq<CacheItem>, el: CacheItem, cap: nat)
    requires |order| <= cap
    ensures var all := [el] + order;
            && (|all| <= cap ==> ItemsOf(all) == Take([Item(el.key, el.value)] + ItemsOf(order), cap))
            && (|all| > cap ==> ItemsOf(all[..|all| - 1]) == Take([Item(el.key, el.value)] + ItemsOf(order), cap))
  {
    var all, items := [el] + order, [Item(el.key, el.value)] + ItemsOf(order);
    assert ItemsOf(all) == items;
    if |all| > cap {
      assert |all| - 1 == cap;
      ItemsOfPrefix(all, cap);
    }
  }

  lemma ItemsOfPrefix(order: seq<CacheItem>, n: nat)
    requires n <= |order|
    ensures ItemsOf(order[..n]) == ItemsOf(order)[..n]
  {
    forall i | 0 <= i < n ensures ItemsOf(order[..n])[i] == ItemsOf(order)[i] {
      assert order[..n][i] == order[i];
    }
  }

  lemma MissInserted(c: Recency, cap: nat, key: string, e: Entry)
    requires Find(c, key).None?
    ensures Inserted(c, cap, key, e) == Take([Item(key, e)] + c, cap)
  {
    NoItem(c, key);
  }

  // Overwriting a value is invisible once its key is left out.
  lemma {:induction false} ExcludingAgree(a: Recency, b: Recency, gone: set<string>)
    requires |a| == |b|
    requires forall i :: 0 <= i < |a| ==> a[i].key == b[i].key && (a[i].key !in gone ==> a[i] == b[i])
    ensures Excluding(a, gone) == Excluding(b, gone)
  {
    if a != [] { ExcludingAgree(a[1..], b[1..], gone); }
  }

  lemma {:induction false} NoItem(c: Recency, key: string)
    requires Find(c, key).None?
    ensures Excluding(c, {key}) == c
  {
    if c != [] { NoItem(c[1..], key); }
  }

  lemma {:induction false} ExcludingTwice(c: Recency, gone: set<string>, key: string)
    ensures Excluding(Excluding(c, gone), {key}) == Excluding(c, gone + {key})
  {
    if c != [] { ExcludingTwice(c[1..], gone, key); }
  }

  // ---------------------------------------------------------------- runs of the cache

  datatype Op = GetOp(key: string) | SetOp(key: string, entry: Entry)

  function After(c: Recency, cap: nat, op: Op): Recency {
    match op
    case GetOp(k) => Touched(c, k)
    case SetOp(k, e) => Inserted(c, cap, k, e)
  }

  // The cache after the operations, from empty.
  function RunOps(cap: nat, ops: seq<Op>): Recency {
    if ops == [] then [] else After(RunOps(cap, ops[..|ops| - 1]), cap, ops[|ops| - 1])
  }

  // The keys the operations touch, in order: those of sets and of gets that hit.
  function TouchedKeys(cap: nat, ops: seq<Op>): seq<string> {
    if ops == [] then []
    else
      var n := |ops| - 1;
      var op := ops[n];
      TouchedKeys(cap, ops[..n])
      + if op.SetOp? || Find(RunOps(cap, ops[..n]), op.key).Some? then [op.key] else []
  }

  function Others(keys: seq<string>, k: string): seq<string> {
    if keys == [] then [] else if keys[0] == k then Others(keys[1..], k) else [keys[0]] + Others(keys[1..], k)
  }

  // The distinct keys of a list, the last mentioned first.
  function Recent(keys: seq<string>): seq<string> {
    if keys == [] then []
    else
      var n := |keys| - 1;
      [keys[n]] + Others(Recent(keys[..n]), keys[n])
  }

  // The value of the last set of `k`.
  function LastSet(ops: seq<Op>, k: string): Option<Entry> {
    if ops == [] then None
    else
      var op := ops[|ops| - 1];
      if op.SetOp? && op.key == k then Some(op.entry) else LastSet(ops[..|ops| - 1], k)
  }

  function KeysOf(c: Recency): seq<string> {
    seq(|c|, i requires 0 <= i < |c| => c[i].key)
  }

  lemma {:induction false} KeysOfExcluding(c: Recency, k: string)
    ensures KeysOf(Excluding(c, {k})) == Others(KeysOf(c), k)
  {
    if c != [] {
      KeysOfExcluding(c[1..], k);
      assert KeysOf(c)[1..] == KeysOf(c[1..]);
    }
  }

  lemma {:induction false} OthersShort(keys: seq<string>, k: string)
    ensures |Others(keys, k)| <= |keys| && (k !in keys ==> Others(keys, k) == keys)
    ensures k in keys ==> |Others(keys, k)| < |keys|
    ensures forall x :: x in Others(keys, k) <==> x in keys && x != k
  {
    if keys != [] {
      OthersShort(keys[1..], k);
      assert keys == [keys[0]] + keys[1..];
    }
  }

  // Leaving a key out of the first n changes nothing among the first n - 1.
  lemma {:induction false} OthersOfTake(keys: seq<string>, k: string, n: nat)
    requires n > 0 && NoDuplicates(keys)
    ensures Take(Others(Take(keys, n), k), n - 1) == Take(Others(keys, k), n - 1)
    decreases n
  {
    if |keys| > n {
      var tail := keys[1..];
      assert keys == [keys[0]] + tail;
      TakeCons(keys[0], tail, n);
      if keys[0] == k {
        OthersOfAbsentHead(k, tail, n);
      } else if n > 1 {
        OthersOfTake(tail, k, n - 1);
        OthersCons(keys[0], Take(tail, n - 1), k);
        OthersCons(keys[0], tail, k);
        TakeCons(keys[0], Others(Take(tail, n - 1), k), n - 1);
        TakeCons(keys[0], Others(tail, k), n - 1);
      }
    }
  }

  lemma OthersCons(x: string, keys: seq<string>, k: string)
    requires x != k
    ensures Others([x] + keys, k) == [x] + Others(keys, k)
  {
    assert ([x] + keys)[1..] == keys;
  }

  // Leaving out the first of distinct keys leaves the rest, cut short or not.
  lemma OthersOfAbsentHead(k: string, tail: seq<string>, n: nat)
    requires n > 0 && NoDuplicates([k] + tail)
    ensures Take(Others([k] + Take(tail, n - 1), k), n - 1) == Take(Others([k] + tail, k), n - 1)
  {
    forall i | 0 <= i < |tail| ensures tail[i] != k {
      assert ([k] + tail)[i + 1] == tail[i] && ([k] + tail)[0] == k;
    }
    var short := Take(tail, n - 1);
    assert ([k] + tail)[1..] == tail && ([k] + short)[1..] == short;
    OthersShort(tail, k);
    OthersShort(short, k);
  }

  lemma TakeCons(x: string, s: seq<string>, n: nat)
    requires n > 0
    ensures Take([x] + s, n) == [x] + Take(s, n - 1)
  {}

  lemma {:induction false} OthersDistinct(keys: seq<string>, k: string)
    requires NoDuplicates(keys)
    ensures NoDuplicates(Others(keys, k))
  {
    if keys != [] {
      OthersDistinct(keys[1..], k);
      OthersShort(keys[1..], k);
      var rest := Others(keys[1..], k);
      forall i | 0 <= i < |rest| ensures rest[i] != keys[0] {
        assert rest[i] in keys[1..];
      }
    }
  }

  // Recent lists each mentioned key once.
  lemma {:induction false} RecentDistinct(keys: seq<string>)
    ensures NoDuplicates(Recent(keys))
    ensures forall x :: x in Recent(keys) <==> x in keys
  {
    if keys != [] {
      var n := |keys| - 1;
      RecentDistinct(keys[..n]);
      OthersDistinct(Recent(keys[..n]), keys[n]);
      OthersShort(Recent(keys[..n]), keys[n]);
      var rest := Others(Recent(keys[..n]), keys[n]);
      forall i | 0 <= i < |rest| ensures rest[i] != keys[n] {
        assert rest[i] in rest;
      }
      assert keys == keys[..n] + [keys[n]];
    }
  }

  // Touching one more key, in terms of the recency list alone.
  lemma RecentStep(touched: seq<string>, k: string, cap: nat)
    requires cap > 0
    ensures Take([k] + Others(Take(Recent(touched), cap), k), cap) == Take(Recent(touched + [k]), cap)
  {
    assert (touched + [k])[..|touched|] == touched;
    RecentDistinct(touched);
    OthersOfTake(Recent(touched), k, cap);
    TakeCons(k, Others(Recent(touched), k), cap);
    TakeCons(k, Others(Take(Recent(touched), cap), k), cap);
  }

  lemma InsertedKeys(c: Recency, cap: nat, k: string, e: Entry)
    ensures KeysOf(Inserted(c, cap, k, e)) == Take([k] + Others(KeysOf(c), k), cap)
  {
    var all := [Item(k, e)] + Excluding(c, {k});
    KeysOfExcluding(c, k);
    assert KeysOf(all) == [k] + Others(KeysOf(c), k);
  }

  lemma HitKeys(c: Recency, cap: nat, k: string)
    requires Find(c, k).Some? && |c| <= cap
    ensures KeysOf(Touched(c, k)) == Take([k] + Others(KeysOf(c), k), cap)
  {
    FindItem(c, k);
    KeyListed(c, Item(k, Find(c, k).value));
    OthersShort(KeysOf(c), k);
    KeysOfExcluding(c, k);
    KeysOfCons(Item(k, Find(c, k).value), Excluding(c, {k}));
  }

  lemma KeyListed(c: Recency, item: Item)
    requires item in c
    ensures item.key in KeysOf(c)
  {
    var i :| 0 <= i < |c| && c[i] == item;
    assert KeysOf(c)[i] == item.key;
  }

  lemma KeysOfCons(item: Item, c: Recency)
    ensures KeysOf([item] + c) == [item.key] + KeysOf(c)
  {}

  // The LRU law: after any gets and sets, the cache holds exactly the last `cap` distinct
  // keys touched, most recent first.
  lemma {:induction false} HoldsMostRecent(cap: nat, ops: seq<Op>)
    requires cap > 0
    ensures KeysOf(RunOps(cap, ops)) == Take(Recent(TouchedKeys(cap, ops)), cap)
  {
    if ops != [] {
      var n := |ops| - 1;
      var c, touched, k := RunOps(cap, ops[..n]), TouchedKeys(cap, ops[..n]), ops[n].key;
      HoldsMostRecent(cap, ops[..n]);
      assert |c| == |KeysOf(c)| <= cap;
      RecentStep(touched, k, cap);
      match ops[n] {
        case SetOp(_, e) => InsertedKeys(c, cap, k, e);
        case GetOp(_) =>
          if Find(c, k).Some? {
            HitKeys(c, cap, k);
          } else {
            assert touched + [] == touched;
          }
      }
    }
  }

  // And each key it holds still has the value last set for it.
  lemma {:induction false} HoldsLastSet(cap: nat, ops: seq<Op>, k: string)
    requires cap > 0
    ensures Find(RunOps(cap, ops), k).Some? ==> Find(RunOps(cap, ops), k) == LastSet(ops, k)
  {
    if ops != [] {
      var n := |ops| - 1;
      var front, op := ops[..n], ops[n];
      HoldsLastSet(cap, front, k);
      match op {
        case GetOp(key) => TouchedFinds(RunOps(cap, front), key, k);
        case SetOp(key, e) => InsertedFinds(RunOps(cap, front), cap, key, e, k);
      }
    }
  }
}
