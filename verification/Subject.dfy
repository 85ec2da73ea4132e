/**
  The repository a GitHub Actions token speaks for (internal/oidc/github.go): the scan of
  the subject for repo: segments, the two forms of a segment, and the rule that exactly one
  segment must count as naming the repository of the signed claims.
*/
module Subject {
  import opened Wrappers
  import opened Strings

  // ---------------------------------------------------------------- the scan

  // The part after each part that is "repo", in order.
  function Following(parts: seq<string>): seq<string> {
    if |parts| < 2 then []
    else (if parts[0] == "repo" then [parts[1]] else []) + Following(parts[1..])
  }

  const MARK: string := ":repo:"

  // strings.Index: the first position of `sep`.
  function IndexOf(s: string, sep: string): Option<nat> {
    if sep <= s then Some(0)
    else if s == "" then None
    else match IndexOf(s[1..], sep) case None => None case Some(i) => Some(i + 1)
  }

  // Up to the next colon.
  function SegmentValue(subject: string, start: nat): string
    requires start <= |subject|
  {
    match IndexOf(subject[start..], ":")
    case Some(end) => if start + end <= |subject| then subject[start..start + end] else subject[start..]
    case None => subject[start..]
  }

  // The values that follow every occurrence of ":repo:", overlapping ones included.
  ghost function Scan(s: string): seq<string> {
    if |s| < |MARK| then []
    else (if MARK <= s then [Split(s[|MARK|..], ':')[0]] else []) + Scan(s[1..])
  }

  lemma {:induction false} IndexOfFinds(s: string, sep: string)
    requires sep != ""
    ensures IndexOf(s, sep).Some? ==>
              IndexOf(s, sep).value + |sep| <= |s| && sep <= s[IndexOf(s, sep).value..]
  {
    if !(sep <= s) && s != "" {
      IndexOfFinds(s[1..], sep);
      var r := IndexOf(s[1..], sep);
      if r.Some? {
        assert s[r.value + 1..] == s[1..][r.value..];
      }
    }
  }

  // Up to the next colon is the first part.
  lemma {:induction false} FirstPart(u: string)
    ensures Split(u, ':')[0] == match IndexOf(u, ":") case Some(e) => (if e <= |u| then u[..e] else u) case None => u
  {
    if u != "" {
      assert ":" <= u <==> u[0] == ':';
      if u[0] != ':' {
        FirstPart(u[1..]);
        assert u == [u[0]] + u[1..];
        IndexOfFinds(u[1..], ":");
        var r := IndexOf(u[1..], ":");
        if r.Some? {
          assert u[..r.value + 1] == [u[0]] + u[1..][..r.value];
        }
      }
    }
  }

  lemma ValueIsFirstPart(subject: string, start: nat)
    requires start <= |subject|
    ensures SegmentValue(subject, start) == Split(subject[start..], ':')[0]
  {
    FirstPart(subject[start..]);
    IndexOfFinds(subject[start..], ":");
    var r := IndexOf(subject[start..], ":");
    if r.Some? {
      assert subject[start..start + r.value] == subject[start..][..r.value];
    }
  }

  // No occurrence starts inside a part.
  lemma {:induction false} ScanThroughPart(a: string, rest: string)
    requires Without(a, ':')
    ensures Scan(a + rest) == Scan(rest)
  {
    if a == "" {
      assert a + rest == rest;
    } else {
      ScanThroughPart(a[1..], rest);
      var s := a + rest;
      assert s[1..] == a[1..] + rest;
      assert s[0] == a[0] != MARK[0];
      if |s| < |MARK| {
        assert |rest| < |MARK|;
      }
    }
  }

  lemma {:induction false} FirstColon(s: string) returns (i: nat)
    requires !Without(s, ':')
    ensures i < |s| && s[i] == ':' && Without(s[..i], ':')
  {
    if s[0] == ':' {
      i := 0;
    } else {
      assert s == [s[0]] + s[1..];
      i := FirstColon(s[1..]);
      i := i + 1;
      assert s[..i] == [s[0]] + s[1..][..i - 1];
    }
  }

  // With a colon put before the subject, scanning it gives what follows each "repo" part.
  lemma {:induction false} ScanIsFollowing(s: string)
    ensures Scan(":" + s) == Following(Split(s, ':'))
    decreases |s|
  {
    if Without(s, ':') {
      SplitWithout(s, ':');
      assert (":" + s)[1..] == s;
      assert |s| > 4 ==> (":" + s)[5] == s[4];
      ScanThroughPart(s, "");
      assert s + "" == s;
    } else {
      var i := FirstColon(s);
      var a, b := s[..i], s[i + 1..];
      assert s == a + [':'] + b;
      SplitFirst(a, b, ':');
      ScanIsFollowing(b);
      ScanThroughPart(a, ":" + b);
      assert s == a + (":" + b);
      assert (":" + s)[1..] == s;
      MarkMeansRepo(a, b);
      if |":" + s| < |MARK| {
        assert |":" + b| < |MARK|;
      }
      assert ([a] + Split(b, ':'))[1..] == Split(b, ':');
    }
  }

  lemma MarkMeansRepo(a: string, b: string)
    requires Without(a, ':')
    ensures var t := ":" + (a + [':'] + b);
            && (MARK <= t <==> a == "repo")
            && (MARK <= t ==> t[|MARK|..] == b)
  {
    var t := ":" + (a + [':'] + b);
    assert t == ":" + a + ":" + b;
    if MARK <= t {
      assert t[1] == 'r' && t[2] == 'e' && t[3] == 'p' && t[4] == 'o' && t[5] == ':';
      assert |a| == 4;
      assert a[0] == t[1] && a[1] == t[2] && a[2] == t[3] && a[3] == t[4];
      assert a == "repo";
    }
  }

  predicate MarkAt(s: string, i: nat)
    requires i <= |s|
  {
    MARK <= s[i..]
  }

  // The scan from an offset on.
  ghost function ScanFrom(s: string, offset: nat): (r: seq<string>)
    requires offset <= |s|
    decreases |s| - offset
  {
    if |s| - offset < |MARK| then []
    else (if MarkAt(s, offset) then [SegmentValue(s, offset + |MARK|)] else []) + ScanFrom(s, offset + 1)
  }

  lemma {:induction false} ScanFromIsScan(s: string, offset: nat)
    requires offset <= |s|
    ensures ScanFrom(s, offset) == Scan(s[offset..])
    decreases |s| - offset
  {
    if |s| - offset >= |MARK| {
      ScanFromIsScan(s, offset + 1);
      assert s[offset..][1..] == s[offset + 1..];
      if MarkAt(s, offset) {
        assert s[offset..][|MARK|..] == s[offset + |MARK|..];
        ValueIsFirstPart(s, offset + |MARK|);
      }
    }
  }

  // What the scan of a subject yields: a segment at its start, and the ones further on.
  ghost function RepoSegments(subject: string): seq<string> {
    (if "repo:" <= subject then [SegmentValue(subject, 5)] else []) + ScanFrom(subject, 0)
  }

  // The scan finds exactly the part after each "repo" part of the colon-split subject, in
  // order: overlapping occurrences are all seen and nothing else is.
  lemma ScanFindsRepoParts(subject: string)
    ensures RepoSegments(subject) == Following(Split(subject, ':'))
  {
    ScanFromIsScan(subject, 0);
    var t := ":" + subject;
    ScanIsFollowing(subject);
    assert t[1..] == subject && subject[0..] == subject;
    assert "repo:" <= subject <==> MARK <= t;
    if "repo:" <= subject {
      assert t[|MARK|..] == subject[5..];
      ValueIsFirstPart(subject, 5);
    }
  }

  lemma {:induction false} ScanFromSkips(s: string, offset: nat, end: nat)
    requires offset <= end <= |s|
    requires forall k :: offset <= k < end ==> !MarkAt(s, k)
    ensures ScanFrom(s, offset) == ScanFrom(s, end)
    decreases end - offset
  {
    if offset < end {
      ScanFromSkips(s, offset + 1, end);
    }
  }

  lemma ScanHit(s: string, i: nat)
    requires i <= |s| && MarkAt(s, i)
    ensures i + |MARK| <= |s|
    ensures ScanFrom(s, i) == [SegmentValue(s, i + |MARK|)] + ScanFrom(s, i + 1)
  {}

  lemma {:induction false} IndexOfIsFirst(s: string, offset: nat)
    requires offset <= |s|
    ensures match IndexOf(s[offset..], MARK)
            case None => forall k :: offset <= k <= |s| ==> !MarkAt(s, k)
            case Some(n) => offset + n <= |s| && MarkAt(s, offset + n) && forall k :: offset <= k < offset + n ==> !MarkAt(s, k)
    decreases |s| - offset
  {
    if !MarkAt(s, offset) && offset < |s| {
      assert s[offset..][1..] == s[offset + 1..];
      IndexOfIsFirst(s, offset + 1);
    }
  }

  // The next position of ":repo:" at or after offset.
  method NextMark(subject: string, offset: nat) returns (i: Option<nat>)
    requires offset <= |subject|
    ensures i.None? ==> ScanFrom(subject, offset) == []
    ensures i.Some? ==>
              && offset <= i.value && i.value + |MARK| <= |subject|
              && ScanFrom(subject, offset) == [SegmentValue(subject, i.value + |MARK|)] + ScanFrom(subject, i.value + 1)
  {
    var n := IndexOf(subject[offset..], MARK);
    NextMarkScan(subject, offset);
    return if n.None? then None else Some(offset + n.value);
  }

  lemma NextMarkScan(subject: string, offset: nat)
    requires offset <= |subject|
    ensures match IndexOf(subject[offset..], MARK)
            case None => ScanFrom(subject, offset) == []
            case Some(n) =>
              && offset + n + |MARK| <= |subject|
              && ScanFrom(subject, offset) == [SegmentValue(subject, offset + n + |MARK|)] + ScanFrom(subject, offset + n + 1)
  {
    IndexOfIsFirst(subject, offset);
    match IndexOf(subject[offset..], MARK) {
      case None => ScanFromSkips(subject, offset, |subject|);
      case Some(n) =>
        ScanFromSkips(subject, offset, offset + n);
        ScanHit(subject, offset + n);
    }
  }

  // An overlapping search that moves on by one character after each hit.
  method SubjectRepoSegments(subject: string) returns (out: seq<string>)
    ensures out == RepoSegments(subject)
  {
    out := [];
    if "repo:" <= subject {
      out := out + [SegmentValue(subject, 5)];
    }
    var offset := 0;
    while offset < |subject|
      invariant 0 <= offset <= |subject|
      invariant out + ScanFrom(subject, offset) == RepoSegments(subject)
      decreases |subject| - offset
    {
      var i := NextMark(subject, offset);
      if i.None? {
        return;
      }
      var value := SegmentValue(subject, i.value + |MARK|);
      assert (out + [value]) + ScanFrom(subject, i.value + 1) == out + ([value] + ScanFrom(subject, i.value + 1));
      out := out + [value];
      offset := i.value + 1;
    }
  }

  // ---------------------------------------------------------------- where the parts stand

  function Shifted(places: seq<nat>): seq<nat> {
    seq(|places|, n requires 0 <= n < |places| => places[n] + 1)
  }

  // The places behind a "repo".
  function Places(parts: seq<string>): seq<nat> {
    if |parts| < 2 then [] else (if parts[0] == "repo" then [1] else []) + Shifted(Places(parts[1..]))
  }

  lemma ShiftedHas(places: seq<nat>, i: nat)
    ensures i in Shifted(places) <==> i > 0 && i - 1 in places
  {
    if i > 0 && i - 1 in places {
      var n :| 0 <= n < |places| && places[n] == i - 1;
      assert Shifted(places)[n] == i;
    }
  }

  lemma {:induction false} PlaceIsBehindRepo(parts: seq<string>, i: nat)
    ensures i in Places(parts) <==> 0 < i < |parts| && parts[i - 1] == "repo"
  {
    if |parts| >= 2 {
      var first: seq<nat> := if parts[0] == "repo" then [1] else [];
      ShiftedHas(Places(parts[1..]), i);
      assert i in first + Shifted(Places(parts[1..])) <==> i in first || i in Shifted(Places(parts[1..]));
      if i > 0 { PlaceIsBehindRepo(parts[1..], i - 1); }
    }
  }

  lemma {:induction false} FollowingAtPlaces(parts: seq<string>)
    ensures |Following(parts)| == |Places(parts)|
    ensures forall n :: 0 <= n < |Places(parts)| ==>
              Places(parts)[n] < |parts| && Following(parts)[n] == parts[Places(parts)[n]]
  {
    if |parts| >= 2 { FollowingAtPlaces(parts[1..]); }
  }

  lemma {:induction false} PlacesPositive(parts: seq<string>)
    ensures forall n :: 0 <= n < |Places(parts)| ==> 0 < Places(parts)[n]
  {
    if |parts| >= 2 { PlacesPositive(parts[1..]); }
  }

  lemma {:induction false} PlacesAscend(parts: seq<string>)
    ensures forall m, n :: 0 <= m < n < |Places(parts)| ==> Places(parts)[m] < Places(parts)[n]
  {
    if |parts| >= 2 {
      var rest := Places(parts[1..]);
      var first: seq<nat> := if parts[0] == "repo" then [1] else [];
      PlacesAscend(parts[1..]);
      PlacesPositive(parts[1..]);
      forall m, n | 0 <= m < n < |Places(parts)| ensures Places(parts)[m] < Places(parts)[n] {
        assert Places(parts)[n] == rest[n - |first|] + 1;
        if m >= |first| { assert Places(parts)[m] == rest[m - |first|] + 1; }
      }
    }
  }
}
