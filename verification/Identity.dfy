/**
  From verified claims to a repository identity (internal/oidc/github.go:69-170,201-266).
  A claim is a string or something else; the signature check is not part of the model.
*/
module Identity {
  import opened Wrappers
  import opened Strings
  import Subject

  // ---------------------------------------------------------------- numbers and names

  predicate Digit(c: char) {
    '0' <= c <= '9'
  }

  // A positive decimal number.
  predicate Positive(id: string) {
    && (forall i :: 0 <= i < |id| ==> Digit(id[i]))
    && (exists i :: 0 <= i < |id| && id[i] != '0')
  }

  method NumericId(id: string) returns (ok: bool)
    ensures ok <==> Positive(id)
  {
    if id == "" {
      return false;
    }
    var nonZero := false;
    for i := 0 to |id|
      invariant forall j :: 0 <= j < i ==> Digit(id[j])
      invariant nonZero <==> exists j :: 0 <= j < i && id[j] != '0'
    {
      if !Digit(id[i]) {
        return false;
      }
      if id[i] != '0' {
        nonZero := true;
      }
    }
    return nonZero;
  }

  // That is, digits that stand for more than zero.
  lemma {:induction false} PositiveMeans(id: string)
    ensures Positive(id) <==> (forall i :: 0 <= i < |id| ==> '0' <= id[i] <= '9') && NumberOf(id) > 0
    ensures (forall i :: 0 <= i < |id| ==> '0' <= id[i] <= '9') ==> NumberOf(id) >= 0
  {
    if id != "" {
      var n := |id| - 1;
      PositiveMeans(id[..n]);
      assert id == id[..n] + [id[n]];
      assert forall i :: 0 <= i < n ==> id[..n][i] == id[i];
    }
  }

  // strings.Count of one character
  function Count(s: string, c: char): nat {
    if s == "" then 0 else Count(s[1..], c) + if s[0] == c then 1 else 0
  }

  lemma {:induction false} CountSplit(s: string, c: char)
    ensures |Split(s, c)| == Count(s, c) + 1
  {
    if s != "" { CountSplit(s[1..], c); }
  }

  // splitRepository
  function SplitRepository(repository: string): Option<(string, string)> {
    if Count(repository, '/') != 1 then None
    else
      var (owner, name, _) := Cut(repository, '/');
      if owner == "" || name == "" then None else Some((owner, name))
  }

  lemma SplitRepositoryMeans(repository: string, owner: string, name: string)
    ensures SplitRepository(repository) == Some((owner, name)) <==>
            Split(repository, '/') == [owner, name] && owner != "" && name != ""
  {
    CountSplit(repository, '/');
    var parts := Split(repository, '/');
    if |parts| == 2 {
      assert Join(parts[1..], '/') == parts[1];
      assert parts == [parts[0], parts[1]];
    }
  }

  // ---------------------------------------------------------------- one segment

  datatype SubjectRepo = SubjectRepo(owner: string, ownerId: string, name: string, repoId: string, immutable: bool)

  // splitSubjectRepo
  function SplitSubjectRepo(segment: string): Option<SubjectRepo> {
    match SplitRepository(segment)
    case None => None
    case Some((ownerPart, namePart)) =>
      var ownerAts, nameAts := Count(ownerPart, '@'), Count(namePart, '@');
      if ownerAts == 0 && nameAts == 0 then Some(SubjectRepo(ownerPart, "", namePart, "", false))
      else if ownerAts != 1 || nameAts != 1 then None
      else
        var (owner, ownerId, _) := Cut(ownerPart, '@');
        var (name, repoId, _) := Cut(namePart, '@');
        if owner == "" || name == "" || !Positive(ownerId) || !Positive(repoId) then None
        else Some(SubjectRepo(owner, ownerId, name, repoId, true))
  }

  predicate PlainName(s: string) {
    s != "" && Without(s, '/') && Without(s, '@')
  }

  predicate WellFormed(r: SubjectRepo) {
    && PlainName(r.owner) && PlainName(r.name)
    && if r.immutable then Positive(r.ownerId) && Positive(r.repoId) else r.ownerId == "" && r.repoId == ""
  }

  function Text(name: string, id: string, immutable: bool): string {
    if immutable then name + "@" + id else name
  }

  function Rendered(r: SubjectRepo): string {
    Text(r.owner, r.ownerId, r.immutable) + "/" + Text(r.name, r.repoId, r.immutable)
  }

  lemma PositiveIsPlain(id: string)
    requires Positive(id)
    ensures PlainName(id)
  {}

  lemma SplitTwo(a: string, b: string, c: char)
    requires Without(a, c) && Without(b, c)
    ensures Split(a + [c] + b, c) == [a, b] && Count(a + [c] + b, c) == 1
    ensures Cut(a + [c] + b, c) == (a, b, true)
  {
    SplitFirst(a, b, c);
    SplitWithout(b, c);
    CountSplit(a + [c] + b, c);
    assert [a, b][1..] == [b];
  }

  lemma CountWithout(s: string, c: char)
    ensures Count(s, c) == 0 <==> Without(s, c)
  {
    CountSplit(s, c);
    SplitOne(s, c);
  }

  lemma TextPlain(name: string, id: string, immutable: bool)
    requires PlainName(name) && (immutable ==> Positive(id))
    ensures Without(Text(name, id, immutable), '/') && Text(name, id, immutable) != ""
  {
    if immutable { PositiveIsPlain(id); }
  }

  // Parsing undoes rendering, for both forms.
  lemma ParseRendered(r: SubjectRepo)
    requires WellFormed(r)
    ensures SplitSubjectRepo(Rendered(r)) == Some(r)
  {
    var o, n := Text(r.owner, r.ownerId, r.immutable), Text(r.name, r.repoId, r.immutable);
    TextPlain(r.owner, r.ownerId, r.immutable);
    TextPlain(r.name, r.repoId, r.immutable);
    SplitTwo(o, n, '/');
    SplitRepositoryMeans(Rendered(r), o, n);
    if r.immutable {
      PositiveIsPlain(r.ownerId);
      PositiveIsPlain(r.repoId);
      SplitTwo(r.owner, r.ownerId, '@');
      SplitTwo(r.name, r.repoId, '@');
    } else {
      CountWithout(o, '@');
      CountWithout(n, '@');
    }
  }

  // What Cut gives on a string with one separator.
  lemma CutOne(s: string, c: char)
    requires Count(s, c) == 1
    ensures var (a, b, _) := Cut(s, c); s == a + [c] + b && Without(a, c) && Without(b, c)
  {
    CountSplit(s, c);
    JoinSplit(s, c);
    var parts := Split(s, c);
    assert Join(parts[1..], c) == parts[1];
  }

  // Rendering undoes parsing, and only well-formed segments parse.
  lemma RenderedParse(segment: string)
    requires SplitSubjectRepo(segment).Some?
    ensures WellFormed(SplitSubjectRepo(segment).value) && Rendered(SplitSubjectRepo(segment).value) == segment
  {
    CutOne(segment, '/');
    var (ownerPart, namePart) := SplitRepository(segment).value;
    if Count(ownerPart, '@') == 0 {
      CountWithout(ownerPart, '@');
      CountWithout(namePart, '@');
    } else {
      CutOne(ownerPart, '@');
      CutOne(namePart, '@');
      var owner, name := Cut(ownerPart, '@').0, Cut(namePart, '@').0;
      assert forall k :: 0 <= k < |owner| ==> owner[k] == ownerPart[k];
      assert forall k :: 0 <= k < |name| ==> name[k] == namePart[k];
    }
  }

  // ---------------------------------------------------------------- the claims

  datatype Claim = Str(s: string) | Other

  type Claims = map<string, Claim>

  datatype Reason =
    | Missing | NotAString | IsEmpty | NotPositive | NotOwnerName | OwnerDisagrees | NoSegment
    | NamedTwice | NoImmutableIds | SubjectDisagrees | NoUsableSegment

  datatype IdentityError = IdentityError(reason: Reason, claim: string)

  datatype Id = Id(issuer: string, subject: string, repository: string, owner: string, name: string,
                   repositoryId: string, ownerId: string, immutableSubject: bool,
                   ref: string, eventName: string, workflow: string, runId: string)

  const ACTIONS_ISSUER: string := "https://token.actions.githubusercontent.com"

  // A claim that is a string, or the empty one.
  function Optional(claims: Claims, name: string): string {
    if name in claims && claims[name].Str? then claims[name].s else ""
  }

  predicate Present(claims: Claims, name: string) {
    Optional(claims, name) != ""
  }

  function RequiredClaim(claims: Claims, name: string): Result<string, IdentityError> {
    if name !in claims then Err(IdentityError(Missing, name))
    else if claims[name].Other? then Err(IdentityError(NotAString, name))
    else if claims[name].s == "" then Err(IdentityError(IsEmpty, name))
    else Ok(claims[name].s)
  }

  // A claim is usable exactly when it is a string that is not empty, and the error says which
  // of these fails.
  lemma RequiredMeans(claims: Claims, name: string)
    ensures Present(claims, name) <==> RequiredClaim(claims, name).Ok?
    ensures Present(claims, name) <==> name in claims && claims[name].Str? && claims[name].s != ""
    ensures Present(claims, name) ==> RequiredClaim(claims, name) == Ok(claims[name].s) && Optional(claims, name) == claims[name].s
    ensures name !in claims ==> RequiredClaim(claims, name) == Err(IdentityError(Missing, name))
    ensures name in claims && claims[name].Other? ==> RequiredClaim(claims, name) == Err(IdentityError(NotAString, name))
    ensures name in claims && claims[name] == Str("") ==> RequiredClaim(claims, name) == Err(IdentityError(IsEmpty, name))
  {}

  predicate FromGitHub(claims: Claims, issuers: seq<string>) {
    Optional(claims, "iss") in if issuers == [] then [ACTIONS_ISSUER] else issuers
  }

  // The claims agree with each other, leaving the subject aside.
  predicate ClaimsAgree(claims: Claims) {
    && Present(claims, "sub") && Present(claims, "repository") && Present(claims, "repository_owner")
    && Positive(Optional(claims, "repository_id")) && Positive(Optional(claims, "repository_owner_id"))
    && SplitRepository(Optional(claims, "repository")).Some?
    && EqualFold(SplitRepository(Optional(claims, "repository")).value.0, Optional(claims, "repository_owner"))
  }

  // The repository that the other claims speak of.
  datatype Target = Target(owner: string, name: string, ownerId: string, repoId: string)

  function TargetOf(claims: Claims): Target
    requires ClaimsAgree(claims)
  {
    var r := SplitRepository(Optional(claims, "repository")).value;
    Target(r.0, r.1, Optional(claims, "repository_owner_id"), Optional(claims, "repository_id"))
  }

  // ---------------------------------------------------------------- which segments count

  predicate Names(segment: string, t: Target) {
    match SplitSubjectRepo(segment)
    case None => false
    case Some(r) => EqualFold(r.owner, t.owner) && EqualFold(r.name, t.name)
  }

  // The ID and legacy rules.
  predicate Counts(segment: string, t: Target, requireImmutable: bool) {
    Names(segment, t)
    && var r := SplitSubjectRepo(segment).value;
       if r.immutable then r.ownerId == t.ownerId && r.repoId == t.repoId else !requireImmutable
  }

  predicate LegacyOnly(segment: string, t: Target, requireImmutable: bool) {
    Names(segment, t) && !SplitSubjectRepo(segment).value.immutable && requireImmutable
  }

  // The forms of the segments that count.
  function Matches(segments: seq<string>, t: Target, requireImmutable: bool): seq<bool> {
    if segments == [] then []
    else
      var n := |segments| - 1;
      Matches(segments[..n], t, requireImmutable)
      + if Counts(segments[n], t, requireImmutable) then [SplitSubjectRepo(segments[n]).value.immutable] else []
  }

  ghost predicate OneCounts(segments: seq<string>, t: Target, requireImmutable: bool, i: nat) {
    && i < |segments| && Counts(segments[i], t, requireImmutable)
    && forall j :: 0 <= j < |segments| && j != i ==> !Counts(segments[j], t, requireImmutable)
  }

  ghost predicate ExactlyOneCounts(segments: seq<string>, t: Target, requireImmutable: bool) {
    exists i: nat :: OneCounts(segments, t, requireImmutable, i)
  }

  ghost predicate NoneCounts(segments: seq<string>, t: Target, requireImmutable: bool) {
    forall j :: 0 <= j < |segments| ==> !Counts(segments[j], t, requireImmutable)
  }

  lemma {:induction false} MatchesNone(segments: seq<string>, t: Target, requireImmutable: bool)
    ensures Matches(segments, t, requireImmutable) == [] <==> NoneCounts(segments, t, requireImmutable)
  {
    if segments != [] {
      MatchesNone(segments[..|segments| - 1], t, requireImmutable);
    }
  }

  lemma {:induction false} MatchesOne(segments: seq<string>, t: Target, requireImmutable: bool, i: nat)
    requires OneCounts(segments, t, requireImmutable, i)
    ensures Matches(segments, t, requireImmutable) == [SplitSubjectRepo(segments[i]).value.immutable]
  {
    var n := |segments| - 1;
    if i == n {
      MatchesNone(segments[..n], t, requireImmutable);
    } else {
      MatchesOne(segments[..n], t, requireImmutable, i);
    }
  }

  lemma {:induction false} OneMatches(segments: seq<string>, t: Target, requireImmutable: bool) returns (i: nat)
    requires |Matches(segments, t, requireImmutable)| == 1
    ensures OneCounts(segments, t, requireImmutable, i)
  {
    var n := |segments| - 1;
    if Counts(segments[n], t, requireImmutable) {
      i := n;
      MatchesNone(segments[..n], t, requireImmutable);
      CountsOnce(segments, t, requireImmutable, n);
    } else {
      i := OneMatches(segments[..n], t, requireImmutable);
      CountsOnce(segments, t, requireImmutable, i);
    }
  }

  lemma CountsOnce(segments: seq<string>, t: Target, requireImmutable: bool, i: nat)
    requires i < |segments| && Counts(segments[i], t, requireImmutable)
    requires var n := |segments| - 1;
             if i == n then NoneCounts(segments[..n], t, requireImmutable)
             else OneCounts(segments[..n], t, requireImmutable, i) && !Counts(segments[n], t, requireImmutable)
    ensures OneCounts(segments, t, requireImmutable, i)
  {
    var n := |segments| - 1;
    forall j | 0 <= j < n && j != i ensures !Counts(segments[j], t, requireImmutable) {
      assert segments[..n][j] == segments[j];
    }
  }

  // The body of the match loop: whether the segment parses, matches in the legacy form that
  // is not enough, and counts.
  method Judge(segment: string, t: Target, requireImmutable: bool)
    returns (parseable: bool, legacy: bool, counted: Option<bool>)
    ensures parseable <==> SplitSubjectRepo(segment).Some?
    ensures legacy <==> LegacyOnly(segment, t, requireImmutable)
    ensures counted == if Counts(segment, t, requireImmutable) then Some(SplitSubjectRepo(segment).value.immutable) else None
  {
    parseable, legacy, counted := false, false, None;
    var parsed := SplitSubjectRepo(segment);
    if parsed.None? {
      return;
    }
    var r := parsed.value;
    parseable := true;
    if !EqualFold(r.owner, t.owner) || !EqualFold(r.name, t.name) {
      return;
    }
    if r.immutable {
      if r.ownerId != t.ownerId || r.repoId != t.repoId {
        return;
      }
    } else if requireImmutable {
      legacy := true;
      return;
    }
    counted := Some(r.immutable);
  }

  ghost predicate SomeParse(segments: seq<string>) {
    exists i :: 0 <= i < |segments| && SplitSubjectRepo(segments[i]).Some?
  }

  ghost predicate SomeLegacy(segments: seq<string>, t: Target, requireImmutable: bool) {
    exists i :: 0 <= i < |segments| && LegacyOnly(segments[i], t, requireImmutable)
  }

  lemma OneMore(segments: seq<string>, i: nat, t: Target, requireImmutable: bool)
    requires i < |segments|
    ensures SomeParse(segments[..i + 1]) <==> SomeParse(segments[..i]) || SplitSubjectRepo(segments[i]).Some?
    ensures SomeLegacy(segments[..i + 1], t, requireImmutable) <==>
            SomeLegacy(segments[..i], t, requireImmutable) || LegacyOnly(segments[i], t, requireImmutable)
  {
    var a, b := segments[..i], segments[..i + 1];
    assert b == a + [segments[i]];
    assert b[i] == segments[i];
    assert forall k :: 0 <= k < i ==> a[k] == b[k];
  }

  // The match loop.
  method MatchSegments(segments: seq<string>, t: Target, requireImmutable: bool)
    returns (matches: seq<bool>, sawParseable: bool, sawLegacyMatch: bool)
    ensures matches == Matches(segments, t, requireImmutable)
    ensures sawParseable <==> SomeParse(segments)
    ensures sawLegacyMatch <==> SomeLegacy(segments, t, requireImmutable)
  {
    matches, sawParseable, sawLegacyMatch := [], false, false;
    for i := 0 to |segments|
      invariant matches == Matches(segments[..i], t, requireImmutable)
      invariant sawParseable <==> SomeParse(segments[..i])
      invariant sawLegacyMatch <==> SomeLegacy(segments[..i], t, requireImmutable)
    {
      OneMore(segments, i, t, requireImmutable);
      MatchesOneMore(segments, i, t, requireImmutable);
      var parseable, legacy, counted := Judge(segments[i], t, requireImmutable);
      sawParseable := sawParseable || parseable;
      sawLegacyMatch := sawLegacyMatch || legacy;
      if counted.Some? {
        matches := matches + [counted.value];
      }
    }
    assert segments[..|segments|] == segments;
  }

  lemma MatchesOneMore(segments: seq<string>, i: nat, t: Target, requireImmutable: bool)
    requires i < |segments|
    ensures Matches(segments[..i + 1], t, requireImmutable) ==
            Matches(segments[..i], t, requireImmutable)
            + if Counts(segments[i], t, requireImmutable) then [SplitSubjectRepo(segments[i]).value.immutable] else []
  {
    assert segments[..i + 1][..i] == segments[..i];
  }

  // ---------------------------------------------------------------- the identity

  const REQUIRED: seq<string> := ["sub", "repository", "repository_owner", "repository_id", "repository_owner_id"]

  // The first required claim that is missing, not a string, or empty.
  predicate FirstAbsent(claims: Claims, i: nat) {
    i < |REQUIRED| && !Present(claims, REQUIRED[i]) && forall j :: 0 <= j < i ==> Present(claims, REQUIRED[j])
  }

  lemma AbsentDisagrees(claims: Claims, i: nat)
    requires FirstAbsent(claims, i)
    ensures !ClaimsAgree(claims)
  {}

  lemma FirstAbsentIs(claims: Claims, i: nat)
    requires FirstAbsent(claims, i)
    ensures i == if !Present(claims, REQUIRED[0]) then 0
                 else if !Present(claims, REQUIRED[1]) then 1
                 else if !Present(claims, REQUIRED[2]) then 2
                 else if !Present(claims, REQUIRED[3]) then 3
                 else 4
  {}

  // The checks on the claims other than the subject; claims are required in order.
  method CheckClaims(claims: Claims) returns (r: Result<Target, IdentityError>)
    ensures r.Ok? <==> ClaimsAgree(claims)
    ensures r.Ok? ==> r.value == TargetOf(claims)
    // the first that is absent
    ensures !Present(claims, "sub") ==> r == Err(RequiredClaim(claims, "sub").error)
    ensures Present(claims, "sub") && !Present(claims, "repository") ==> r == Err(RequiredClaim(claims, "repository").error)
    ensures Present(claims, "sub") && Present(claims, "repository") && !Present(claims, "repository_owner") ==>
              r == Err(RequiredClaim(claims, "repository_owner").error)
    ensures Present(claims, "sub") && Present(claims, "repository") && Present(claims, "repository_owner")
            && !Present(claims, "repository_id") ==>
              r == Err(RequiredClaim(claims, "repository_id").error)
    ensures Present(claims, "sub") && Present(claims, "repository") && Present(claims, "repository_owner")
            && Present(claims, "repository_id") && !Present(claims, "repository_owner_id") ==>
              r == Err(RequiredClaim(claims, "repository_owner_id").error)
    ensures Present(claims, "sub") && Present(claims, "repository") && Present(claims, "repository_owner")
            && Present(claims, "repository_id") && Present(claims, "repository_owner_id") && r.Err? ==>
              // the first that is wrong: the two numbers, the repository, the owner
              r.error == if !Positive(claims["repository_id"].s) then IdentityError(NotPositive, "repository_id")
                         else if !Positive(claims["repository_owner_id"].s) then IdentityError(NotPositive, "repository_owner_id")
                         else if SplitRepository(claims["repository"].s).None? then IdentityError(NotOwnerName, "repository")
                         else IdentityError(OwnerDisagrees, "repository_owner")
  {
    for i := 0 to |REQUIRED|
      invariant forall j :: 0 <= j < i ==> Present(claims, REQUIRED[j])
    {
      var claim := RequiredClaim(claims, REQUIRED[i]);
      if claim.Err? {
        assert FirstAbsent(claims, i);
        AbsentDisagrees(claims, i);
        FirstAbsentIs(claims, i);
        return Err(claim.error);
      }
    }
    assert Present(claims, REQUIRED[0]) && Present(claims, REQUIRED[1]) && Present(claims, REQUIRED[2]);
    assert Present(claims, REQUIRED[3]) && Present(claims, REQUIRED[4]);
    var repository, owner := Optional(claims, "repository"), Optional(claims, "repository_owner");
    var repositoryId, ownerId := Optional(claims, "repository_id"), Optional(claims, "repository_owner_id");
    var numeric := NumericId(repositoryId);
    if !numeric {
      return Err(IdentityError(NotPositive, "repository_id"));
    }
    numeric := NumericId(ownerId);
    if !numeric {
      return Err(IdentityError(NotPositive, "repository_owner_id"));
    }
    var split := SplitRepository(repository);
    if split.None? {
      return Err(IdentityError(NotOwnerName, "repository"));
    }
    var (claimOwner, claimName) := split.value;
    if !EqualFold(claimOwner, owner) {
      return Err(IdentityError(OwnerDisagrees, "repository_owner"));
    }
    return Ok(Target(claimOwner, claimName, ownerId, repositoryId));
  }

  // The verdict on the segments: the form of the one that counts, or why there is none.
  method Decide(segments: seq<string>, t: Target, requireImmutable: bool) returns (r: Result<bool, IdentityError>)
    ensures r.Ok? <==> ExactlyOneCounts(segments, t, requireImmutable)
    ensures forall i: nat :: OneCounts(segments, t, requireImmutable, i) ==>
              r == Ok(SplitSubjectRepo(segments[i]).value.immutable)
    ensures r.Err? ==> Explains(segments, t, requireImmutable, r.error)
  {
    if |segments| == 0 {
      return Err(IdentityError(NoSegment, "sub"));
    }
    var matches, sawParseable, sawLegacyMatch := MatchSegments(segments, t, requireImmutable);
    MatchesNone(segments, t, requireImmutable);
    forall i: nat | OneCounts(segments, t, requireImmutable, i)
      ensures matches == [SplitSubjectRepo(segments[i]).value.immutable]
    {
      MatchesOne(segments, t, requireImmutable, i);
    }
    if |matches| > 1 {
      return Err(IdentityError(NamedTwice, "sub"));
    } else if |matches| == 0 && sawLegacyMatch {
      return Err(IdentityError(NoImmutableIds, "sub"));
    } else if |matches| == 0 && sawParseable {
      return Err(IdentityError(SubjectDisagrees, "sub"));
    } else if |matches| == 0 {
      return Err(IdentityError(NoUsableSegment, "sub"));
    }
    ghost var one := OneMatches(segments, t, requireImmutable);
    return Ok(matches[0]);
  }

  // The error names the reason that holds.
  ghost predicate Explains(segments: seq<string>, t: Target, requireImmutable: bool, e: IdentityError) {
    && e.claim == "sub"
    && e.reason in {NamedTwice, NoSegment, NoImmutableIds, SubjectDisagrees, NoUsableSegment}
    && (e.reason == NamedTwice <==> !NoneCounts(segments, t, requireImmutable))
    && (e.reason == NoSegment <==> segments == [])
    && (e.reason == NoImmutableIds <==>
          NoneCounts(segments, t, requireImmutable) && SomeLegacy(segments, t, requireImmutable))
    && (e.reason == NoUsableSegment <==> segments != [] && !SomeParse(segments))
  }

  // ---------------------------------------------------------------- what the subject says

  // A segment in either form that names the target: both names up to case, and both ids in
  // the immutable form.
  ghost predicate Immutably(segment: string, t: Target) {
    exists owner, name :: PlainName(owner) && PlainName(name) && EqualFold(owner, t.owner) && EqualFold(name, t.name)
                          && segment == owner + "@" + t.ownerId + "/" + (name + "@" + t.repoId)
  }

  ghost predicate Plainly(segment: string, t: Target) {
    exists owner, name :: PlainName(owner) && PlainName(name) && EqualFold(owner, t.owner) && EqualFold(name, t.name)
                          && segment == owner + "/" + name
  }

  ghost predicate SpeaksFor(segment: string, t: Target, requireImmutable: bool) {
    Immutably(segment, t) || (!requireImmutable && Plainly(segment, t))
  }

  lemma ImmutableParses(segment: string, t: Target)
    requires Positive(t.ownerId) && Positive(t.repoId)
    ensures Immutably(segment, t) <==>
            Names(segment, t) && (var r := SplitSubjectRepo(segment).value;
                                  r.immutable && r.ownerId == t.ownerId && r.repoId == t.repoId)
  {
    if owner, name :| PlainName(owner) && PlainName(name) && EqualFold(owner, t.owner) && EqualFold(name, t.name)
                      && segment == owner + "@" + t.ownerId + "/" + (name + "@" + t.repoId) {
      var r := SubjectRepo(owner, t.ownerId, name, t.repoId, true);
      assert Rendered(r) == segment;
      ParseRendered(r);
    }
    if SplitSubjectRepo(segment).Some? {
      RenderedParse(segment);
    }
  }

  lemma PlainParses(segment: string, t: Target)
    ensures Plainly(segment, t) <==> Names(segment, t) && !SplitSubjectRepo(segment).value.immutable
  {
    if owner, name :| PlainName(owner) && PlainName(name) && EqualFold(owner, t.owner) && EqualFold(name, t.name)
                      && segment == owner + "/" + name {
      var r := SubjectRepo(owner, "", name, "", false);
      assert Rendered(r) == segment;
      ParseRendered(r);
    }
    if SplitSubjectRepo(segment).Some? {
      RenderedParse(segment);
    }
  }

  // A segment counts exactly when it speaks for the target.
  lemma CountsMeans(segment: string, t: Target, requireImmutable: bool)
    requires Positive(t.ownerId) && Positive(t.repoId)
    ensures Counts(segment, t, requireImmutable) <==> SpeaksFor(segment, t, requireImmutable)
    ensures LegacyOnly(segment, t, requireImmutable) <==> requireImmutable && Plainly(segment, t)
    ensures Counts(segment, t, requireImmutable) ==> (SplitSubjectRepo(segment).value.immutable <==> Immutably(segment, t))
  {
    ImmutableParses(segment, t);
    PlainParses(segment, t);
  }

  // Part `i` of the subject's colon-split stands behind a "repo" and speaks for the target.
  ghost predicate PartSpeaks(parts: seq<string>, i: nat, t: Target, requireImmutable: bool) {
    0 < i < |parts| && parts[i - 1] == "repo" && SpeaksFor(parts[i], t, requireImmutable)
  }

  ghost predicate OnePartSpeaks(parts: seq<string>, i: nat, t: Target, requireImmutable: bool) {
    PartSpeaks(parts, i, t, requireImmutable)
    && forall j: nat :: PartSpeaks(parts, j, t, requireImmutable) ==> j == i
  }

  lemma OneSegmentOnePart(parts: seq<string>, t: Target, requireImmutable: bool, n: nat)
    requires Positive(t.ownerId) && Positive(t.repoId)
    requires OneCounts(Subject.Following(parts), t, requireImmutable, n)
    ensures |Subject.Places(parts)| == |Subject.Following(parts)|
    ensures OnePartSpeaks(parts, Subject.Places(parts)[n], t, requireImmutable)
  {
    var segments, places := Subject.Following(parts), Subject.Places(parts);
    Subject.FollowingAtPlaces(parts);
    var i := places[n];
    Subject.PlaceIsBehindRepo(parts, i);
    CountsMeans(segments[n], t, requireImmutable);
    forall j: nat | PartSpeaks(parts, j, t, requireImmutable) ensures j == i {
      Subject.PlaceIsBehindRepo(parts, j);
      var m :| 0 <= m < |places| && places[m] == j;
      CountsMeans(segments[m], t, requireImmutable);
    }
  }

  lemma OnePartOneSegment(parts: seq<string>, t: Target, requireImmutable: bool, i: nat) returns (n: nat)
    requires Positive(t.ownerId) && Positive(t.repoId) && OnePartSpeaks(parts, i, t, requireImmutable)
    ensures OneCounts(Subject.Following(parts), t, requireImmutable, n)
  {
    var segments, places := Subject.Following(parts), Subject.Places(parts);
    Subject.FollowingAtPlaces(parts);
    Subject.PlacesAscend(parts);
    Subject.PlaceIsBehindRepo(parts, i);
    n :| 0 <= n < |places| && places[n] == i;
    CountsMeans(segments[n], t, requireImmutable);
    forall m | 0 <= m < |segments| && m != n ensures !Counts(segments[m], t, requireImmutable) {
      CountsMeans(segments[m], t, requireImmutable);
      Subject.PlaceIsBehindRepo(parts, places[m]);
      assert places[m] in places;
      assert places[m] != places[n];
      assert Counts(segments[m], t, requireImmutable) ==> PartSpeaks(parts, places[m], t, requireImmutable);
    }
  }

  // So exactly one segment counts when exactly one part of the subject speaks for the
  // claimed repository.
  lemma OnePartMeans(parts: seq<string>, t: Target, requireImmutable: bool)
    requires Positive(t.ownerId) && Positive(t.repoId)
    ensures ExactlyOneCounts(Subject.Following(parts), t, requireImmutable) <==>
            exists i: nat :: OnePartSpeaks(parts, i, t, requireImmutable)
  {
    if n: nat :| OneCounts(Subject.Following(parts), t, requireImmutable, n) {
      OneSegmentOnePart(parts, t, requireImmutable, n);
    }
    if i: nat :| OnePartSpeaks(parts, i, t, requireImmutable) {
      var n := OnePartOneSegment(parts, t, requireImmutable, i);
    }
  }

  // A part that stands behind a "repo".
  ghost predicate Behind(parts: seq<string>, i: nat) {
    0 < i < |parts| && parts[i - 1] == "repo"
  }

  ghost predicate Written(segment: string) {
    exists r :: WellFormed(r) && Rendered(r) == segment
  }

  lemma WrittenMeans(segment: string)
    ensures Written(segment) <==> SplitSubjectRepo(segment).Some?
  {
    if r :| WellFormed(r) && Rendered(r) == segment {
      ParseRendered(r);
    }
    if SplitSubjectRepo(segment).Some? {
      RenderedParse(segment);
    }
  }

  // Why no identity is given, in terms of the subject's parts.
  ghost predicate Blames(parts: seq<string>, t: Target, requireImmutable: bool, e: IdentityError) {
    && e.claim == "sub"
    && e.reason in {NamedTwice, NoSegment, NoImmutableIds, SubjectDisagrees, NoUsableSegment}
    && (e.reason == NamedTwice <==> exists i: nat :: PartSpeaks(parts, i, t, requireImmutable))
    && (e.reason == NoSegment <==> forall i: nat :: !Behind(parts, i))
    && (e.reason == NoImmutableIds <==>
          && (forall i: nat :: !PartSpeaks(parts, i, t, requireImmutable))
          && requireImmutable && exists i: nat :: Behind(parts, i) && Plainly(parts[i], t))
    && (e.reason == NoUsableSegment <==>
          (exists i: nat :: Behind(parts, i)) && forall i: nat :: Behind(parts, i) ==> !Written(parts[i]))
  }

  // The segment at n is the part at the n-th place, and every part behind a "repo" is one.
  lemma SegmentOfPart(parts: seq<string>, i: nat) returns (n: nat)
    requires Behind(parts, i)
    ensures n < |Subject.Following(parts)| && Subject.Following(parts)[n] == parts[i]
  {
    Subject.FollowingAtPlaces(parts);
    Subject.PlaceIsBehindRepo(parts, i);
    n :| 0 <= n < |Subject.Places(parts)| && Subject.Places(parts)[n] == i;
  }

  lemma PartOfSegment(parts: seq<string>, n: nat) returns (i: nat)
    requires n < |Subject.Following(parts)|
    ensures Behind(parts, i) && Subject.Following(parts)[n] == parts[i]
  {
    Subject.FollowingAtPlaces(parts);
    i := Subject.Places(parts)[n];
    Subject.PlaceIsBehindRepo(parts, i);
  }

  lemma SomeSpeaks(parts: seq<string>, t: Target, requireImmutable: bool)
    requires Positive(t.ownerId) && Positive(t.repoId)
    ensures NoneCounts(Subject.Following(parts), t, requireImmutable) <==>
            forall i: nat :: !PartSpeaks(parts, i, t, requireImmutable)
  {
    var segments := Subject.Following(parts);
    if i: nat :| PartSpeaks(parts, i, t, requireImmutable) {
      var n := SegmentOfPart(parts, i);
      CountsMeans(segments[n], t, requireImmutable);
    }
    if n :| 0 <= n < |segments| && Counts(segments[n], t, requireImmutable) {
      var i := PartOfSegment(parts, n);
      CountsMeans(segments[n], t, requireImmutable);
      assert PartSpeaks(parts, i, t, requireImmutable);
    }
  }

  lemma SomeBehind(parts: seq<string>)
    ensures Subject.Following(parts) == [] <==> forall i: nat :: !Behind(parts, i)
  {
    if i: nat :| Behind(parts, i) {
      var n := SegmentOfPart(parts, i);
    }
    if Subject.Following(parts) != [] {
      var i := PartOfSegment(parts, 0);
    }
  }

  lemma SomePlain(parts: seq<string>, t: Target, requireImmutable: bool)
    requires Positive(t.ownerId) && Positive(t.repoId)
    ensures SomeLegacy(Subject.Following(parts), t, requireImmutable) <==>
            requireImmutable && exists i: nat :: Behind(parts, i) && Plainly(parts[i], t)
  {
    var segments := Subject.Following(parts);
    if i: nat :| requireImmutable && Behind(parts, i) && Plainly(parts[i], t) {
      var n := SegmentOfPart(parts, i);
      CountsMeans(segments[n], t, requireImmutable);
    }
    if n :| 0 <= n < |segments| && LegacyOnly(segments[n], t, requireImmutable) {
      var i := PartOfSegment(parts, n);
      CountsMeans(segments[n], t, requireImmutable);
    }
  }

  lemma SomeWritten(parts: seq<string>)
    ensures SomeParse(Subject.Following(parts)) <==> exists i: nat :: Behind(parts, i) && Written(parts[i])
  {
    var segments := Subject.Following(parts);
    if i: nat :| Behind(parts, i) && Written(parts[i]) {
      var n := SegmentOfPart(parts, i);
      WrittenMeans(segments[n]);
    }
    if n :| 0 <= n < |segments| && SplitSubjectRepo(segments[n]).Some? {
      var i := PartOfSegment(parts, n);
      WrittenMeans(segments[n]);
    }
  }

  lemma ExplainsBlames(parts: seq<string>, t: Target, requireImmutable: bool, e: IdentityError)
    requires Positive(t.ownerId) && Positive(t.repoId)
    requires Explains(Subject.Following(parts), t, requireImmutable, e)
    ensures Blames(parts, t, requireImmutable, e)
  {
    SomeSpeaks(parts, t, requireImmutable);
    SomeBehind(parts);
    SomePlain(parts, t, requireImmutable);
    SomeWritten(parts);
  }

  function IdentityOf(claims: Claims, t: Target, immutableSubject: bool): Id {
    Id(Optional(claims, "iss"), Optional(claims, "sub"), t.owner + "/" + t.name, Optional(claims, "repository_owner"),
       t.name, t.repoId, t.ownerId, immutableSubject,
       Optional(claims, "ref"), Optional(claims, "event_name"), Optional(claims, "workflow"), Optional(claims, "run_id"))
  }

  // The fields of an identity are the signed claims.
  ghost predicate Tells(claims: Claims, id: Id) {
    && id.issuer == Optional(claims, "iss") && id.subject == Optional(claims, "sub")
    && id.repository == Optional(claims, "repository") && id.owner == Optional(claims, "repository_owner")
    && (exists owner :: Split(id.repository, '/') == [owner, id.name] && EqualFold(owner, id.owner))
    && id.repositoryId == Optional(claims, "repository_id") && id.ownerId == Optional(claims, "repository_owner_id")
    && id.ref == Optional(claims, "ref") && id.eventName == Optional(claims, "event_name")
    && id.workflow == Optional(claims, "workflow") && id.runId == Optional(claims, "run_id")
  }

  lemma IdentityTells(claims: Claims, immutableSubject: bool)
    requires ClaimsAgree(claims)
    ensures Tells(claims, IdentityOf(claims, TargetOf(claims), immutableSubject))
  {
    var repository, t := Optional(claims, "repository"), TargetOf(claims);
    SplitRepositoryMeans(repository, t.owner, t.name);
    JoinSplit(repository, '/');
    assert [t.owner, t.name][1..] == [t.name];
    assert Join([t.owner, t.name], '/') == t.owner + "/" + t.name;
  }

  // ParseGitHubIdentity: a GitHub issuer's token whose claims agree gets an identity exactly
  // when one part of its subject behind a "repo" speaks for the claimed repository, and
  // otherwise the error says why.
  method ParseGitHubIdentity(claims: Claims, issuers: seq<string>, requireImmutable: bool)
    returns (r: Result<Option<Id>, IdentityError>)
    ensures r == Ok(None) <==>
            (if "iss" in claims && claims["iss"].Str? then claims["iss"].s else "")
            !in if issuers == [] then ["https://token.actions.githubusercontent.com"] else issuers
    ensures FromGitHub(claims, issuers) && !ClaimsAgree(claims) ==> r.Err?
    ensures FromGitHub(claims, issuers) && ClaimsAgree(claims) ==>
              var parts, t := Split(claims["sub"].s, ':'), TargetOf(claims);
              && (r.Ok? <==> exists i: nat :: OnePartSpeaks(parts, i, t, requireImmutable))
              && (r.Err? ==> Blames(parts, t, requireImmutable, r.error))
    ensures r.Ok? && r.value.Some? ==>
              ClaimsAgree(claims) && Tells(claims, r.value.value)
              && exists i: nat :: OnePartSpeaks(Split(r.value.value.subject, ':'), i, TargetOf(claims), requireImmutable)
                   && (r.value.value.immutableSubject <==> Immutably(Split(r.value.value.subject, ':')[i], TargetOf(claims)))
  {
    var trusted := if |issuers| == 0 then [ACTIONS_ISSUER] else issuers;
    var issuer := Optional(claims, "iss");
    if issuer !in trusted {
      return Ok(None);
    }
    var checked := CheckClaims(claims);
    if checked.Err? {
      return Err(checked.error);
    }
    var t := checked.value;
    var subject := Optional(claims, "sub");
    var segments := Subject.SubjectRepoSegments(subject);
    Subject.ScanFindsRepoParts(subject);
    var verdict := Decide(segments, t, requireImmutable);
    OnePartMeans(Split(subject, ':'), t, requireImmutable);
    if verdict.Err? {
      ExplainsBlames(Split(subject, ':'), t, requireImmutable, verdict.error);
      return Err(verdict.error);
    }
    IdentityTells(claims, verdict.value);
    ghost var n: nat :| OneCounts(segments, t, requireImmutable, n);
    OneSegmentOnePart(Split(subject, ':'), t, requireImmutable, n);
    CountsMeans(segments[n], t, requireImmutable);
    Subject.FollowingAtPlaces(Split(subject, ':'));
    return Ok(Some(IdentityOf(claims, t, verdict.value)));
  }
}
