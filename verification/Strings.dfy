/** Splitting and joining strings on a separator, as Go's strings.Split and strings.Join. */
module Strings {
  // strings.Split(s, c): never empty.
  function Split(s: string, c: char): (parts: seq<string>)
    ensures |parts| >= 1
  {
    if s == "" then [""]
    else
      var rest := Split(s[1..], c);
      if s[0] == c then [""] + rest else [[s[0]] + rest[0]] + rest[1..]
  }

  function Join(parts: seq<string>, c: char): string {
    if parts == [] then ""
    else if |parts| == 1 then parts[0]
    else parts[0] + [c] + Join(parts[1..], c)
  }

  predicate Without(s: string, c: char) {
    forall i :: 0 <= i < |s| ==> s[i] != c
  }

  predicate AllWithout(parts: seq<string>, c: char) {
    forall i :: 0 <= i < |parts| ==> Without(parts[i], c)
  }

  lemma {:induction false} SplitWithout(s: string, c: char)
    requires Without(s, c)
    ensures Split(s, c) == [s]
  {
    if s != "" {
      SplitWithout(s[1..], c);
      assert [s[0]] + s[1..] == s;
    }
  }

  lemma {:induction false} SplitOne(s: string, c: char)
    ensures |Split(s, c)| == 1 <==> Without(s, c)
  {
    if s != "" {
      SplitOne(s[1..], c);
      assert s == [s[0]] + s[1..];
    }
  }

  lemma {:induction false} SplitFirst(a: string, b: string, c: char)
    requires Without(a, c)
    ensures Split(a + [c] + b, c) == [a] + Split(b, c)
  {
    var s := a + [c] + b;
    if a == "" {
      assert s[1..] == b;
    } else {
      SplitFirst(a[1..], b, c);
      assert s[1..] == a[1..] + [c] + b;
      assert [a[0]] + a[1..] == a;
    }
  }

  // Splitting undoes joining when no part holds the separator.
  lemma {:induction false} SplitJoin(parts: seq<string>, c: char)
    requires parts != [] && AllWithout(parts, c)
    ensures Split(Join(parts, c), c) == parts
  {
    if |parts| == 1 {
      SplitWithout(parts[0], c);
    } else {
      SplitFirst(parts[0], Join(parts[1..], c), c);
      SplitJoin(parts[1..], c);
    }
  }

  // Joining undoes splitting, always.
  lemma {:induction false} JoinSplit(s: string, c: char)
    ensures Join(Split(s, c), c) == s
    ensures AllWithout(Split(s, c), c)
  {
    if s != "" {
      JoinSplit(s[1..], c);
      var rest := Split(s[1..], c);
      if s[0] == c {
        JoinCons("", rest, c);
      } else {
        JoinGrow(s[0], rest, c);
      }
      assert [s[0]] + s[1..] == s;
    }
  }

  lemma JoinCons(part: string, rest: seq<string>, c: char)
    requires rest != []
    ensures Join([part] + rest, c) == part + [c] + Join(rest, c)
  {
    assert ([part] + rest)[1..] == rest;
  }

  lemma JoinGrow(x: char, parts: seq<string>, c: char)
    requires parts != []
    ensures Join([[x] + parts[0]] + parts[1..], c) == [x] + Join(parts, c)
  {
    var grown := [[x] + parts[0]] + parts[1..];
    assert grown[1..] == parts[1..];
    if |parts| > 1 {
      assert ([x] + parts[0]) + [c] + Join(parts[1..], c) == [x] + (parts[0] + [c] + Join(parts[1..], c));
    }
  }

  // One string's parts begin another's exactly when they are equal or the other goes on
  // with the separator.
  lemma {:induction false} SplitPrefix(a: string, b: string, c: char)
    ensures Split(a, c) <= Split(b, c) <==> a == b || a + [c] <= b
  {
    var x, y := Split(a, c), Split(b, c);
    if a == "" {
      if b != "" { assert b == [b[0]] + b[1..]; }
    } else if b == "" {
      assert x[0] != "" || |x| > 1;
    } else {
      SplitPrefix(a[1..], b[1..], c);
      var x', y' := Split(a[1..], c), Split(b[1..], c);
      assert a == [a[0]] + a[1..] && b == [b[0]] + b[1..];
      assert a + [c] == [a[0]] + (a[1..] + [c]);
      assert a + [c] <= b <==> a[0] == b[0] && a[1..] + [c] <= b[1..];
      if a[0] == b[0] == c {
        assert x[1..] == x' && y[1..] == y';
        assert x <= y <==> x' <= y';
      } else if a[0] == b[0] {
        assert x <= y <==> x' <= y' by {
          assert x[0][1..] == x'[0] && y[0][1..] == y'[0];
          assert x[1..] == x'[1..] && y[1..] == y'[1..];
          assert x <= y <==> x[0] == y[0] && x[1..] <= y[1..];
          assert x' <= y' <==> x'[0] == y'[0] && x'[1..] <= y'[1..];
        }
      } else if a[0] != c && b[0] != c {
        assert x[0][0] != y[0][0];
      }
    }
  }

  // strings.Cut: what comes before and after the first separator, if there is one.
  function Cut(s: string, c: char): (string, string, bool) {
    var parts := Split(s, c);
    if |parts| == 1 then (s, "", false) else (parts[0], Join(parts[1..], c), true)
  }

  // strings.ToLower and strings.EqualFold, on letters a to z.
  function Lower(s: string): string {
    seq(|s|, i requires 0 <= i < |s| => if 'A' <= s[i] <= 'Z' then ((s[i] as int) + 32) as char else s[i])
  }

  predicate EqualFold(a: string, b: string) {
    Lower(a) == Lower(b)
  }

  const LETTERS: string := "abcdefghijklmnopqrstuvwxyz"
  const CAPITALS: string := "ABCDEFGHIJKLMNOPQRSTUVWXYZ"

  // The lower case of a capital is the letter in its place, and nothing else changes.
  lemma LowerMeans(s: string, i: nat)
    requires i < |s|
    ensures |Lower(s)| == |s|
    ensures forall n :: 0 <= n < 26 && s[i] == CAPITALS[n] ==> Lower(s)[i] == LETTERS[n]
    ensures s[i] !in CAPITALS ==> Lower(s)[i] == s[i]
  {
    forall n | 0 <= n < 26 ensures CAPITALS[n] as int == 'A' as int + n && LETTERS[n] as int == 'a' as int + n {
      LettersInOrder(n);
    }
    if 'A' <= s[i] <= 'Z' {
      var n := s[i] as int - 'A' as int;
      assert CAPITALS[n] as int == 'A' as int + n;
      assert CAPITALS[n] in CAPITALS;
    }
  }

  lemma LettersInOrder(n: nat)
    requires n < 26
    ensures CAPITALS[n] as int == 'A' as int + n && LETTERS[n] as int == 'a' as int + n
  {}

  // The number that digits stand for.
  function NumberOf(digits: string): int {
    if digits == "" then 0 else 10 * NumberOf(digits[..|digits| - 1]) + (digits[|digits| - 1] as int - '0' as int)
  }

  // ---------------------------------------------------------------- order

  predicate StrLess(a: string, b: string) {
    b != "" && (a == "" || a[0] < b[0] || (a[0] == b[0] && StrLess(a[1..], b[1..])))
  }

  // The order is lexicographic: after what two strings begin alike with, one ends or has the
  // smaller character.
  lemma {:induction false} LessMeans(a: string, b: string)
    ensures StrLess(a, b) <==>
            exists n :: 0 <= n <= |a| && n < |b| && a[..n] == b[..n] && (n == |a| || a[n] < b[n])
  {
    if a == "" {
      assert b != "" ==> a[..0] == b[..0];
    } else if b != "" {
      LessMeans(a[1..], b[1..]);
      if a[0] < b[0] {
        assert a[..0] == b[..0];
      } else if a[0] == b[0] && StrLess(a[1..], b[1..]) {
        var n :| 0 <= n <= |a[1..]| && n < |b[1..]| && a[1..][..n] == b[1..][..n] && (n == |a[1..]| || a[1..][n] < b[1..][n]);
        assert a[..n + 1] == [a[0]] + a[1..][..n] && b[..n + 1] == [b[0]] + b[1..][..n];
      }
      if n :| 0 <= n <= |a| && n < |b| && a[..n] == b[..n] && (n == |a| || a[n] < b[n]) {
        if n > 0 {
          assert a[..n][0] == b[..n][0];
          assert a[1..][..n - 1] == a[..n][1..] && b[1..][..n - 1] == b[..n][1..];
        }
      }
    }
  }

  lemma {:induction false} LessTotal(a: string, b: string)
    ensures a == b || StrLess(a, b) || StrLess(b, a)
    ensures !(StrLess(a, b) && StrLess(b, a)) && !StrLess(a, a)
  {
    if a != "" && b != "" {
      LessTotal(a[1..], b[1..]);
      if a[0] == b[0] && a[1..] == b[1..] {
        assert a == [a[0]] + a[1..] == b;
      }
    }
    if a != "" { LessTotal(a[1..], a[1..]); }
  }

  lemma {:induction false} LessTransitive(a: string, b: string, c: string)
    requires StrLess(a, b) && StrLess(b, c)
    ensures StrLess(a, c)
  {
    if a != "" && a[0] == b[0] == c[0] {
      LessTransitive(a[1..], b[1..], c[1..]);
    }
  }

  ghost predicate Ascending(s: seq<string>) {
    forall i, j :: 0 <= i < j < |s| ==> StrLess(s[i], s[j])
  }

  function Insert(s: seq<string>, k: string): seq<string> {
    if s == [] then [k]
    else if StrLess(k, s[0]) then [k] + s
    else [s[0]] + Insert(s[1..], k)
  }

  // sort.Strings
  function Sorted(s: seq<string>): seq<string> {
    if s == [] then [] else Insert(Sorted(s[1..]), s[0])
  }

  function Elements(s: seq<string>): set<string> {
    set k | k in s
  }

  lemma {:induction false} InsertAscending(s: seq<string>, k: string)
    requires Ascending(s) && k !in s
    ensures Ascending(Insert(s, k)) && Elements(Insert(s, k)) == Elements(s) + {k}
    ensures forall x :: x in Insert(s, k) <==> x in s || x == k
  {
    if s != [] {
      LessTotal(k, s[0]);
      if StrLess(k, s[0]) {
        forall i | 0 <= i < |s| ensures StrLess(k, s[i]) {
          if i > 0 { LessTransitive(k, s[0], s[i]); }
        }
      } else {
        assert Ascending(s[1..]);
        InsertAscending(s[1..], k);
        var t := Insert(s[1..], k);
        assert s == [s[0]] + s[1..];
        forall i | 0 <= i < |t| ensures StrLess(s[0], t[i]) {
          assert t[i] in t;
        }
      }
    }
  }

  ghost predicate NoDuplicates(s: seq<string>) {
    forall i, j :: 0 <= i < j < |s| ==> s[i] != s[j]
  }

  lemma {:induction false} SortedAscending(s: seq<string>)
    requires NoDuplicates(s)
    ensures Ascending(Sorted(s)) && Elements(Sorted(s)) == Elements(s)
  {
    if s != [] {
      SortedAscending(s[1..]);
      assert s == [s[0]] + s[1..];
      assert s[0] !in Elements(s[1..]);
      InsertAscending(Sorted(s[1..]), s[0]);
    }
  }

  // There is one ascending listing of a set.
  lemma {:induction false} AscendingUnique(s: seq<string>, t: seq<string>)
    requires Ascending(s) && Ascending(t) && Elements(s) == Elements(t)
    ensures s == t
  {
    assert t != [] ==> t[0] in Elements(t);
    if s != [] {
      assert s[0] in Elements(t);
      assert t != [];
      assert t[0] in Elements(s);
      AscendingHead(s, t);
      assert Elements(s[1..]) == Elements(s) - {s[0]} by { DropHead(s); }
      assert Elements(t[1..]) == Elements(t) - {t[0]} by { DropHead(t); }
      AscendingUnique(s[1..], t[1..]);
    }
  }

  lemma DropHead(s: seq<string>)
    requires Ascending(s) && s != []
    ensures Elements(s[1..]) == Elements(s) - {s[0]} && Ascending(s[1..])
  {
    LessTotal(s[0], s[0]);
    assert s == [s[0]] + s[1..];
    forall i | 1 <= i < |s| ensures s[i] != s[0] {
      assert StrLess(s[0], s[i]);
    }
  }

  lemma AscendingHead(s: seq<string>, t: seq<string>)
    requires Ascending(s) && Ascending(t) && s != [] && t != []
    requires s[0] in t && t[0] in s
    ensures s[0] == t[0]
  {
    LessTotal(s[0], t[0]);
    var i :| 0 <= i < |t| && t[i] == s[0];
    var j :| 0 <= j < |s| && s[j] == t[0];
  }

  lemma AscendingNoDuplicates(s: seq<string>)
    requires Ascending(s)
    ensures NoDuplicates(s)
  {
    forall i, j | 0 <= i < j < |s| ensures s[i] != s[j] {
      LessTotal(s[i], s[i]);
    }
  }

  // The ascending listing of a finite set.
  ghost function Listing(s: set<string>): (r: seq<string>)
    ensures Ascending(r) && Elements(r) == s
    ensures NoDuplicates(r)
  {
    if s == {} then []
    else
      var k :| k in s;
      var rest := Listing(s - {k});
      InsertAscending(rest, k);
      AscendingNoDuplicates(Insert(rest, k));
      Insert(rest, k)
  }

  // sortedKeys and unionKeys: collect in map order, then sort.
  method SortedKeys(keys: set<string>) returns (out: seq<string>)
    ensures out == Listing(keys)
  {
    out := [];
    var rest := keys;
    while rest != {}
      invariant rest <= keys && NoDuplicates(out)
      invariant Elements(out) == keys - rest
      decreases rest
    {
      var k :| k in rest;
      assert k !in Elements(out);
      assert Elements(out + [k]) == Elements(out) + {k} by { assert (out + [k])[|out|] == k; }
      out := out + [k];
      rest := rest - {k};
    }
    SortedAscending(out);
    out := Sorted(out);
    AscendingUnique(out, Listing(keys));
  }
}
