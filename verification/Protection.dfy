/**
  The three shapes of one branch-protection record: the YAML record and its normalization
  (internal/config/normalize.go), the desired document the differ sees
  (internal/config/schema.go), the PUT body and the projection of the GET body
  (internal/ghapi/branches.go).

  A Go pointer that may be nil is an Option.
*/
module Protection {
  import opened Wrappers
  import opened Diff

  // ---------------------------------------------------------------- the YAML record

  datatype StatusChecks = StatusChecks(strict: Option<bool>, contexts: Option<seq<string>>)

  datatype Reviews = Reviews(count: Option<int>, dismissStale: Option<bool>, codeOwners: Option<bool>,
                             lastPush: Option<bool>)

  datatype Restrictions = Restrictions(users: Option<seq<string>>, teams: Option<seq<string>>,
                                       apps: Option<seq<string>>)

  datatype BranchProtection = BranchProtection(
    pattern: string,
    statusChecks: Option<StatusChecks>,
    enforceAdmins: Option<bool>,
    reviews: Option<Reviews>,
    restrictions: Option<Restrictions>,
    linearHistory: Option<bool>,
    forcePushes: Option<bool>,
    deletions: Option<bool>,
    conversation: Option<bool>,
    blockCreations: Option<bool>,
    lockBranch: Option<bool>,
    forkSyncing: Option<bool>,
    signatures: Option<bool>)

  function OrFalse(b: Option<bool>): Option<bool> {
    Some(b.GetOr(false))
  }

  // The record with every default filled in.
  function Normalized(b: BranchProtection): BranchProtection {
    b.(enforceAdmins := OrFalse(b.enforceAdmins),
       linearHistory := OrFalse(b.linearHistory),
       forcePushes := OrFalse(b.forcePushes),
       deletions := OrFalse(b.deletions),
       conversation := OrFalse(b.conversation),
       blockCreations := OrFalse(b.blockCreations),
       lockBranch := OrFalse(b.lockBranch),
       forkSyncing := OrFalse(b.forkSyncing),
       statusChecks := if b.statusChecks.None? then None else
                         var c := b.statusChecks.value;
                         Some(StatusChecks(OrFalse(c.strict), Some(c.contexts.GetOr([])))),
       restrictions := if b.restrictions.None? then None else
                         var r := b.restrictions.value;
                         Some(Restrictions(Some(r.users.GetOr([])), Some(r.teams.GetOr([])), r.apps)))
  }

  // Every switch is stated.
  predicate Complete(b: BranchProtection) {
    forall f :: IsSwitch(f) ==> SwitchOf(b, f).Some?
  }

  // What an unstated value becomes; a stated one is kept.
  predicate Filled<T(==)>(before: Option<T>, after: Option<T>, default: T) {
    after == Some(if before.Some? then before.value else default)
  }

  lemma SwitchFilled(b: BranchProtection, f: Field)
    requires IsSwitch(f)
    ensures Filled(SwitchOf(b, f), SwitchOf(Normalized(b), f), false)
  {}

  lemma NormalizedTwice(b: BranchProtection)
    ensures Normalized(Normalized(b)) == Normalized(b)
  {}

  // Normalization turns every unstated switch, and the strict of stated status checks, off,
  // and makes unstated contexts, users and teams empty. It keeps what was stated, adds no
  // sub-object and no signatures, and doing it again changes nothing.
  lemma NormalizedMeans(b: BranchProtection)
    ensures var n := Normalized(b);
            && Complete(n) && Normalized(n) == n && n.pattern == b.pattern
            && n.reviews == b.reviews && n.signatures == b.signatures
            && (forall f :: IsSwitch(f) ==> Filled(SwitchOf(b, f), SwitchOf(n, f), false))
            && (n.statusChecks.Some? <==> b.statusChecks.Some?)
            && (b.statusChecks.Some? ==>
                  var c, c' := b.statusChecks.value, n.statusChecks.value;
                  Filled(c.strict, c'.strict, false) && Filled(c.contexts, c'.contexts, []))
            && (n.restrictions.Some? <==> b.restrictions.Some?)
            && (b.restrictions.Some? ==>
                  var r, r' := b.restrictions.value, n.restrictions.value;
                  Filled(r.users, r'.users, []) && Filled(r.teams, r'.teams, []) && r'.apps == r.apps)
  {
    NormalizedTwice(b);
    forall f | IsSwitch(f) ensures Filled(SwitchOf(b, f), SwitchOf(Normalized(b), f), false) {
      SwitchFilled(b, f);
    }
  }

  // normalize on element i of the slice, in place.
  method NormalizeBranch(bs: array<BranchProtection>, i: nat)
    requires i < bs.Length
    modifies bs
    ensures bs[i] == Normalized(old(bs[i]))
    ensures forall j :: 0 <= j < bs.Length && j != i ==> bs[j] == old(bs[j])
  {
    var b := bs[i];
    var fs := [b.enforceAdmins, b.linearHistory, b.forcePushes, b.deletions, b.conversation, b.blockCreations,
               b.lockBranch, b.forkSyncing];
    ghost var before := fs;
    for f := 0 to |fs|
      invariant |fs| == |before|
      invariant forall j :: 0 <= j < |fs| ==> fs[j] == if j < f then OrFalse(before[j]) else before[j]
    {
      if fs[f].None? {
        fs := fs[f := Some(false)];
      }
    }
    b := b.(enforceAdmins := fs[0], linearHistory := fs[1], forcePushes := fs[2], deletions := fs[3],
            conversation := fs[4], blockCreations := fs[5], lockBranch := fs[6], forkSyncing := fs[7]);
    if b.statusChecks.Some? {
      var c := b.statusChecks.value;
      if c.strict.None? { c := c.(strict := Some(false)); }
      if c.contexts.None? { c := c.(contexts := Some([])); }
      b := b.(statusChecks := Some(c));
    }
    if b.restrictions.Some? {
      var r := b.restrictions.value;
      if r.users.None? { r := r.(users := Some([])); }
      if r.teams.None? { r := r.(teams := Some([])); }
      b := b.(restrictions := Some(r));
    }
    bs[i] := b;
  }

  // The branches loop of Settings.Normalize.
  method NormalizeAll(bs: array<BranchProtection>)
    modifies bs
    ensures forall i :: 0 <= i < bs.Length ==> bs[i] == Normalized(old(bs[i]))
  {
    for i := 0 to bs.Length
      invariant forall j :: 0 <= j < i ==> bs[j] == Normalized(old(bs[j]))
      invariant forall j :: i <= j < bs.Length ==> bs[j] == old(bs[j])
    {
      NormalizeBranch(bs, i);
    }
  }

  // ---------------------------------------------------------------- top-level fields

  // The fields of both documents: eight switches, three sub-objects, the signatures.
  datatype Field =
    | EnforceAdmins | LinearHistory | ForcePushes | Deletions | Conversation | BlockCreations | LockBranch | ForkSyncing
    | ChecksField | ReviewsField | RestrictionsField | SignaturesField

  predicate IsSubObject(f: Field) {
    f.ChecksField? || f.ReviewsField? || f.RestrictionsField?
  }

  predicate IsSwitch(f: Field) {
    !IsSubObject(f) && !f.SignaturesField?
  }

  function NameOf(f: Field): string {
    match f
    case EnforceAdmins => "enforce_admins"
    case LinearHistory => "required_linear_history"
    case ForcePushes => "allow_force_pushes"
    case Deletions => "allow_deletions"
    case Conversation => "required_conversation_resolution"
    case BlockCreations => "block_creations"
    case LockBranch => "lock_branch"
    case ForkSyncing => "allow_fork_syncing"
    case ChecksField => "required_status_checks"
    case ReviewsField => "required_pull_request_reviews"
    case RestrictionsField => "restrictions"
    case SignaturesField => "required_signatures"
  }

  // Enough of a name to tell the fields apart.
  function Mark(s: string): (nat, char, char)
    requires |s| > 9
  {
    (|s|, s[0], s[9])
  }

  lemma NameLength(f: Field)
    ensures |NameOf(f)| > 9
  {}

  lemma NamesDistinct(f: Field, g: Field)
    requires NameOf(f) == NameOf(g)
    ensures f == g
  {
    NameLength(f);
    NameLength(g);
    assert Mark(NameOf(f)) == Mark(NameOf(g));
  }

  function SwitchOf(b: BranchProtection, f: Field): Option<bool>
    requires IsSwitch(f)
  {
    match f
    case EnforceAdmins => b.enforceAdmins
    case LinearHistory => b.linearHistory
    case ForcePushes => b.forcePushes
    case Deletions => b.deletions
    case Conversation => b.conversation
    case BlockCreations => b.blockCreations
    case LockBranch => b.lockBranch
    case ForkSyncing => b.forkSyncing
  }

  type Values = Field -> Option<Json>

  // The fields that have a value.
  function Given(values: Values): set<Field> {
    set f: Field | values(f).Some?
  }

  // The document with the given values, None being left out.
  function DocOf(values: Values): Doc {
    map k | k in (set f | f in Given(values) :: NameOf(f)) :: values(FieldNamed(k)).value
  }

  // The field of a name.
  function FieldNamed(k: string): (f: Field)
    requires exists g :: NameOf(g) == k
    ensures NameOf(f) == k
  {
    NamesAllDistinct();
    var f :| NameOf(f) == k;
    f
  }

  lemma DocGet(values: Values, f: Field)
    ensures Get(DocOf(values), NameOf(f)) == values(f)
  {
    var names := set g | g in Given(values) :: NameOf(g);
    if NameOf(f) in names {
      var g :| g in Given(values) && NameOf(g) == NameOf(f);
      NamesDistinct(f, g);
      NamesDistinct(f, FieldNamed(NameOf(f)));
    } else {
      assert f !in Given(values);
    }
  }

  lemma DocKey(values: Values, k: string) returns (f: Field)
    requires k in DocOf(values)
    ensures NameOf(f) == k && values(f).Some?
  {
    f :| f in Given(values) && NameOf(f) == k;
  }

  lemma NamesAllDistinct()
    ensures forall f, g :: NameOf(f) == NameOf(g) ==> f == g
  {
    forall f, g | NameOf(f) == NameOf(g) ensures f == g {
      NamesDistinct(f, g);
    }
  }

  ghost predicate OnlyFields(doc: Doc) {
    forall k :: k in doc ==> exists f :: NameOf(f) == k
  }

  lemma SameDocs(a: Doc, values: Values)
    requires OnlyFields(a)
    requires forall f :: Get(a, NameOf(f)) == values(f)
    ensures a == DocOf(values)
  {
    var b := DocOf(values);
    forall k ensures (k in a <==> k in b) && (k in a ==> a[k] == b[k]) {
      if k in a || k in b {
        var f: Field;
        if k in a {
          f :| NameOf(f) == k;
        } else {
          f := DocKey(values, k);
        }
        DocGet(values, f);
        assert Get(a, NameOf(f)) == Get(b, NameOf(f));
      }
    }
    assert a.Keys == b.Keys;
  }

  // ---------------------------------------------------------------- the desired document

  function Texts(ss: seq<string>): seq<Json> {
    seq(|ss|, i requires 0 <= i < |ss| => Text(ss[i]))
  }

  // A field that is left out when it has no value.
  function Omitting(k: string, v: Option<Json>): Doc {
    if v.Some? then map[k := v.value] else map[]
  }

  function Switch(b: Option<bool>): Option<Json> {
    if b.Some? then Some(Json.Bool(b.value)) else None
  }

  // A slice under omitempty: left out when nil or empty.
  function Names(ss: Option<seq<string>>): Option<Json> {
    if ss.Some? && ss.value != [] then Some(Json.List(Texts(ss.value))) else None
  }

  function ChecksDoc(c: StatusChecks): Json {
    Object(Omitting("strict", Switch(c.strict)) + Omitting("contexts", Names(c.contexts)))
  }

  function ReviewsDoc(r: Reviews): Json {
    Object(Omitting("required_approving_review_count", if r.count.Some? then Some(Number(r.count.value as real)) else None)
           + Omitting("dismiss_stale_reviews", Switch(r.dismissStale))
           + Omitting("require_code_owner_reviews", Switch(r.codeOwners))
           + Omitting("require_last_push_approval", Switch(r.lastPush)))
  }

  function RestrictionsDoc(r: Restrictions): Json {
    Object(Omitting("users", Names(r.users)) + Omitting("teams", Names(r.teams))
           + Omitting("apps", if r.apps.Some? then Some(Json.List(Texts(r.apps.value))) else None))
  }

  function OrNull(v: Option<Json>): Json {
    v.GetOr(Null)
  }

  function DesiredValue(b: BranchProtection, f: Field): Option<Json> {
    match f
    case EnforceAdmins => Some(OrNull(Switch(b.enforceAdmins)))
    case ChecksField => Some(if b.statusChecks.Some? then ChecksDoc(b.statusChecks.value) else Null)
    case ReviewsField => Some(if b.reviews.Some? then ReviewsDoc(b.reviews.value) else Null)
    case RestrictionsField => Some(if b.restrictions.Some? then RestrictionsDoc(b.restrictions.value) else Null)
    case SignaturesField => Switch(b.signatures)
    case _ => Switch(SwitchOf(b, f))
  }

  // ToMap of the record, without the pattern. Four fields are always present, null when
  // nil; the others are left out when nil.
  function DesiredDoc(b: BranchProtection): Doc {
    DocOf(f => DesiredValue(b, f))
  }

  // ---------------------------------------------------------------- what GET returns

  datatype LiveChecks = LiveChecks(strict: bool, contexts: Option<seq<string>>)

  datatype LiveReviews = LiveReviews(dismissStale: bool, codeOwners: bool, lastPush: bool, count: int)

  datatype LiveRestrictions = LiveRestrictions(users: seq<string>, teams: seq<string>, apps: seq<string>)

  // The enabled-wrappers are None when GitHub omits them.
  datatype Live = Live(
    enforceAdmins: Option<bool>,
    linearHistory: Option<bool>,
    forcePushes: Option<bool>,
    deletions: Option<bool>,
    conversation: Option<bool>,
    blockCreations: Option<bool>,
    lockBranch: Option<bool>,
    forkSyncing: Option<bool>,
    signatures: Option<bool>,
    statusChecks: Option<LiveChecks>,
    reviews: Option<LiveReviews>,
    restrictions: Option<LiveRestrictions>)

  function On(b: Option<bool>): Json {
    Json.Bool(b.GetOr(false))
  }

  function LiveChecksDoc(c: LiveChecks): Json {
    Object(map["strict" := Json.Bool(c.strict), "contexts" := Json.List(Texts(c.contexts.GetOr([])))])
  }

  function LiveReviewsDoc(r: LiveReviews): Json {
    Object(map["dismiss_stale_reviews" := Json.Bool(r.dismissStale),
               "require_code_owner_reviews" := Json.Bool(r.codeOwners),
               "require_last_push_approval" := Json.Bool(r.lastPush),
               "required_approving_review_count" := Number(r.count as real)])
  }

  function LiveRestrictionsDoc(r: LiveRestrictions): Json {
    Object(map["users" := Json.List(Texts(r.users)), "teams" := Json.List(Texts(r.teams)),
               "apps" := Json.List(Texts(r.apps))])
  }

  function LiveSwitch(p: Live, f: Field): Option<bool>
    requires IsSwitch(f)
  {
    match f
    case EnforceAdmins => p.enforceAdmins
    case LinearHistory => p.linearHistory
    case ForcePushes => p.forcePushes
    case Deletions => p.deletions
    case Conversation => p.conversation
    case BlockCreations => p.blockCreations
    case LockBranch => p.lockBranch
    case ForkSyncing => p.forkSyncing
  }

  function LiveValue(p: Live, f: Field): Option<Json> {
    match f
    case ChecksField => Some(if p.statusChecks.Some? then LiveChecksDoc(p.statusChecks.value) else Null)
    case ReviewsField => Some(if p.reviews.Some? then LiveReviewsDoc(p.reviews.value) else Null)
    case RestrictionsField => Some(if p.restrictions.Some? then LiveRestrictionsDoc(p.restrictions.value) else Null)
    case SignaturesField => Switch(p.signatures)
    case _ => Some(On(LiveSwitch(p, f)))
  }

  // The projection of a GET body onto the shape of the desired document.
  function Decoded(p: Live): Doc {
    DocOf(f => LiveValue(p, f))
  }

  method ToAny(ss: seq<string>) returns (out: seq<Json>)
    ensures out == Texts(ss)
  {
    out := [];
    for i := 0 to |ss|
      invariant out == Texts(ss)[..i]
    {
      out := out + [Text(ss[i])];
    }
  }

  method ChecksToMap(c: LiveChecks) returns (j: Json)
    ensures j == LiveChecksDoc(c)
  {
    var contexts := ToAny(c.contexts.GetOr([]));
    j := Object(map["strict" := Json.Bool(c.strict), "contexts" := Json.List(contexts)]);
  }

  method RestrictionsToMap(r: LiveRestrictions) returns (j: Json)
    ensures j == LiveRestrictionsDoc(r)
  {
    var users := ToAny(r.users);
    var teams := ToAny(r.teams);
    var apps := ToAny(r.apps);
    j := Object(map["users" := Json.List(users), "teams" := Json.List(teams), "apps" := Json.List(apps)]);
  }

  function BaseValue(p: Live, f: Field): Option<Json> {
    if IsSwitch(f) then Some(On(LiveSwitch(p, f))) else if IsSubObject(f) then Some(Null) else None
  }

  function Assigned(values: Values, f: Field, v: Option<Json>): Values {
    g => if g == f && v.Some? then v else values(g)
  }

  // Values that agree at every field make the same document.
  lemma SameValues(values: Values, values': Values)
    requires forall f :: values(f) == values'(f)
    ensures DocOf(values) == DocOf(values')
  {
    assert Given(values) == Given(values');
  }

  // One assignment to the map, if there is something to assign.
  method Store(doc: Doc, f: Field, v: Option<Json>, ghost values: Values) returns (out: Doc)
    requires doc == DocOf(values)
    ensures out == DocOf(Assigned(values, f, v))
  {
    out := doc;
    if v.Some? {
      out := doc[NameOf(f) := v.value];
      StoredDoc(values, f, v.value);
    } else {
      SameValues(values, Assigned(values, f, v));
    }
  }

  lemma StoredDoc(values: Values, f: Field, v: Json)
    ensures DocOf(values)[NameOf(f) := v] == DocOf(Assigned(values, f, Some(v)))
  {
    var a := DocOf(values)[NameOf(f) := v];
    forall k | k in a ensures exists g :: NameOf(g) == k {
      if k != NameOf(f) {
        var g := DocKey(values, k);
      }
    }
    forall g ensures Get(a, NameOf(g)) == Assigned(values, f, Some(v))(g) {
      DocGet(values, g);
      if NameOf(g) == NameOf(f) { NamesDistinct(g, f); }
    }
    SameDocs(a, Assigned(values, f, Some(v)));
  }

  // What GET reports of a part that it may leave out.
  function Part(p: Live, f: Field): Option<Json> {
    match f
    case ChecksField => if p.statusChecks.Some? then Some(LiveChecksDoc(p.statusChecks.value)) else None
    case ReviewsField => if p.reviews.Some? then Some(LiveReviewsDoc(p.reviews.value)) else None
    case RestrictionsField => if p.restrictions.Some? then Some(LiveRestrictionsDoc(p.restrictions.value)) else None
    case SignaturesField => Switch(p.signatures)
    case _ => None
  }

  // The switches and nulls, with the first `n` of the four parts assigned.
  function WithParts(p: Live, n: nat): Values
    requires n <= 4
  {
    var base: Values := f => BaseValue(p, f);
    if n == 0 then base
    else
      var f := if n == 1 then SignaturesField else if n == 2 then ChecksField
               else if n == 3 then ReviewsField else RestrictionsField;
      Assigned(WithParts(p, n - 1), f, Part(p, f))
  }

  lemma AllParts(p: Live)
    ensures DocOf(WithParts(p, 4)) == Decoded(p)
  {
    forall f ensures WithParts(p, 4)(f) == LiveValue(p, f) {
      assert WithParts(p, 1)(f) == if f == SignaturesField then LiveValue(p, f) else BaseValue(p, f);
      assert WithParts(p, 2)(f) == if f == ChecksField then LiveValue(p, f) else WithParts(p, 1)(f);
      assert WithParts(p, 3)(f) == if f == ReviewsField then LiveValue(p, f) else WithParts(p, 2)(f);
    }
    SameValues(WithParts(p, 4), f => LiveValue(p, f));
  }

  // An unprotected branch has no document; otherwise the switches, null for each
  // sub-object, and then one assignment for each part that GET reports.
  method DecodeProtection(p: Option<Live>) returns (out: Option<Doc>)
    ensures p.None? ==> out.None?
    ensures p.Some? ==> out == Some(Decoded(p.value))
  {
    if p.None? {
      return None;
    }
    var checks := ReportedChecks(p.value);
    var restrictions := ReportedRestrictions(p.value);
    var doc := Assemble(p.value, Switch(p.value.signatures), checks, Part(p.value, ReviewsField), restrictions);
    return Some(doc);
  }

  method ReportedChecks(v: Live) returns (j: Option<Json>)
    ensures j == Part(v, ChecksField)
  {
    j := None;
    if v.statusChecks.Some? {
      var doc := ChecksToMap(v.statusChecks.value);
      j := Some(doc);
    }
  }

  method ReportedRestrictions(v: Live) returns (j: Option<Json>)
    ensures j == Part(v, RestrictionsField)
  {
    j := None;
    if v.restrictions.Some? {
      var doc := RestrictionsToMap(v.restrictions.value);
      j := Some(doc);
    }
  }

  method Assemble(v: Live, signatures: Option<Json>, checks: Option<Json>, reviews: Option<Json>, restrictions: Option<Json>)
    returns (doc: Doc)
    requires signatures == Part(v, SignaturesField) && checks == Part(v, ChecksField)
    requires reviews == Part(v, ReviewsField) && restrictions == Part(v, RestrictionsField)
    ensures doc == Decoded(v)
  {
    doc := DocOf(WithParts(v, 0));
    doc := Store(doc, SignaturesField, signatures, WithParts(v, 0));
    doc := Store(doc, ChecksField, checks, WithParts(v, 1));
    doc := Store(doc, ReviewsField, reviews, WithParts(v, 2));
    doc := Store(doc, RestrictionsField, restrictions, WithParts(v, 3));
    AllParts(v);
  }

  // ---------------------------------------------------------------- what PUT sends

  datatype PutReviews = PutReviews(dismissStale: bool, codeOwners: bool, count: int, lastPush: Option<bool>)

  datatype PutBody = PutBody(
    enforceAdmins: bool,
    linearHistory: Option<bool>,
    forcePushes: Option<bool>,
    deletions: Option<bool>,
    conversation: Option<bool>,
    blockCreations: Option<bool>,
    lockBranch: Option<bool>,
    forkSyncing: Option<bool>,
    statusChecks: Option<LiveChecks>,
    reviews: Option<PutReviews>,
    restrictions: Option<LiveRestrictions>)

  function EncodeProtection(b: BranchProtection): PutBody {
    PutBody(
      b.enforceAdmins.GetOr(false),
      b.linearHistory, b.forcePushes, b.deletions, b.conversation, b.blockCreations, b.lockBranch, b.forkSyncing,
      match b.statusChecks {
        case None => None
        case Some(c) => Some(LiveChecks(c.strict.GetOr(false), Some(c.contexts.GetOr([]))))
      },
      match b.reviews {
        case None => None
        case Some(r) => Some(PutReviews(r.dismissStale.GetOr(false), r.codeOwners.GetOr(false), r.count.GetOr(0), r.lastPush))
      },
      match b.restrictions {
        case None => None
        case Some(r) => Some(LiveRestrictions(r.users.GetOr([]), r.teams.GetOr([]), r.apps.GetOr([])))
      })
  }

  // The PUT turns off, or sends as zero or empty, what a sub-object leaves unstated.
  lemma EncodedMeans(b: BranchProtection)
    ensures var e := EncodeProtection(b);
            && (b.enforceAdmins.None? ==> !e.enforceAdmins)
            && (b.statusChecks.Some? <==> e.statusChecks.Some?)
            && (b.reviews.Some? <==> e.reviews.Some?)
            && (b.restrictions.Some? <==> e.restrictions.Some?)
            && (b.statusChecks == Some(StatusChecks(None, None)) ==> e.statusChecks == Some(LiveChecks(false, Some([]))))
            && (b.restrictions == Some(Restrictions(None, None, None)) ==> e.restrictions == Some(LiveRestrictions([], [], [])))
    ensures b.reviews.Some? ==>
              var r, sent := b.reviews.value, EncodeProtection(b).reviews.value;
              && sent.dismissStale == (r.dismissStale == Some(true)) && sent.codeOwners == (r.codeOwners == Some(true))
              && sent.count == (if r.count.Some? then r.count.value else 0) && sent.lastPush == r.lastPush
  {}

  // ---------------------------------------------------------------- the remote

  // A protected branch: the last PUT body and the signatures switch, None while GET does
  // not report it.
  datatype Protected = Protected(body: PutBody, signatures: Option<bool>)

  function ReadBack(p: Protected): Live {
    var b := p.body;
    Live(Some(b.enforceAdmins), b.linearHistory, b.forcePushes, b.deletions, b.conversation, b.blockCreations,
         b.lockBranch, b.forkSyncing, p.signatures, b.statusChecks,
         match b.reviews {
           case None => None
           case Some(r) => Some(LiveReviews(r.dismissStale, r.codeOwners, r.lastPush.GetOr(false), r.count))
         },
         b.restrictions)
  }

  // GET shows the last PUT back, an unstated last-push switch as off, and the signatures
  // beside it.
  lemma ReadBackMeans(p: Protected)
    ensures var l := ReadBack(p);
            && l.signatures == p.signatures && l.statusChecks == p.body.statusChecks && l.restrictions == p.body.restrictions
            && l.enforceAdmins == Some(p.body.enforceAdmins)
            && (l.reviews.Some? <==> p.body.reviews.Some?)
            && (l.reviews.Some? ==>
                  var shown, sent := l.reviews.value, p.body.reviews.value;
                  && shown.dismissStale == sent.dismissStale && shown.codeOwners == sent.codeOwners
                  && shown.count == sent.count && shown.lastPush == (sent.lastPush == Some(true)))
  {}

  function LiveDoc(p: Option<Protected>): Option<Doc> {
    if p.Some? then Some(Decoded(ReadBack(p.value))) else None
  }

  // ---------------------------------------------------------------- when the documents agree

  ghost predicate FieldCovered(cur: Option<Json>, des: Option<Json>) {
    des.Some? ==> cur.Some? && Covers(cur.value, des.value)
  }

  lemma DocsCover(cur: Values, des: Values)
    ensures Covers(Object(DocOf(cur)), Object(DocOf(des))) <==> forall f :: FieldCovered(cur(f), des(f))
  {
    var c, d := DocOf(cur), DocOf(des);
    if forall f :: FieldCovered(cur(f), des(f)) {
      forall k | k in d ensures k in c && Covers(c[k], d[k]) {
        var f := DocKey(des, k);
        DocGet(cur, f);
        DocGet(des, f);
        assert FieldCovered(cur(f), des(f));
      }
    }
    if Covers(Object(c), Object(d)) {
      forall f ensures FieldCovered(cur(f), des(f)) {
        DocGet(cur, f);
        DocGet(des, f);
        assert NameOf(f) in d ==> NameOf(f) in Object(d).fields;
      }
    }
  }

  lemma ChecksAgree(c: StatusChecks)
    ensures Covers(LiveChecksDoc(LiveChecks(c.strict.GetOr(false), Some(c.contexts.GetOr([])))), ChecksDoc(c))
  {}

  lemma ReviewsAgree(r: Reviews)
    ensures Covers(LiveReviewsDoc(LiveReviews(r.dismissStale.GetOr(false), r.codeOwners.GetOr(false),
                                              r.lastPush.GetOr(false), r.count.GetOr(0))), ReviewsDoc(r))
  {
    var live := LiveReviewsDoc(LiveReviews(r.dismissStale.GetOr(false), r.codeOwners.GetOr(false),
                                           r.lastPush.GetOr(false), r.count.GetOr(0))).fields;
    var count := Omitting("required_approving_review_count", if r.count.Some? then Some(Number(r.count.value as real)) else None);
    assert Covers(Object(live), Object(count));
    CoversMore(live, count, "dismiss_stale_reviews", Switch(r.dismissStale));
    var two := count + Omitting("dismiss_stale_reviews", Switch(r.dismissStale));
    CoversMore(live, two, "require_code_owner_reviews", Switch(r.codeOwners));
    CoversMore(live, two + Omitting("require_code_owner_reviews", Switch(r.codeOwners)),
               "require_last_push_approval", Switch(r.lastPush));
  }

  // One more field that agrees.
  lemma CoversMore(cur: Doc, des: Doc, k: string, v: Option<Json>)
    requires Covers(Object(cur), Object(des))
    requires v.Some? ==> k in cur && cur[k] == v.value && !v.value.Object?
    ensures Covers(Object(cur), Object(des + Omitting(k, v)))
  {
    forall x | x in des + Omitting(k, v) ensures x in cur && Covers(cur[x], (des + Omitting(k, v))[x]) {
      assert x in Object(des).fields || x == k;
    }
  }

  lemma RestrictionsAgree(r: Restrictions)
    ensures Covers(LiveRestrictionsDoc(LiveRestrictions(r.users.GetOr([]), r.teams.GetOr([]), r.apps.GetOr([]))),
                   RestrictionsDoc(r))
  {}

  function AfterPut(b: BranchProtection, signatures: Option<bool>): Live {
    ReadBack(Protected(EncodeProtection(b), signatures))
  }

  // What GET returns after the PUT of `b` covers field f of what `b` asks for; the admins
  // switch only if the record states it, the signatures only if they were written too.
  lemma PutCovers(b: BranchProtection, signatures: Option<bool>, f: Field)
    ensures FieldCovered(LiveValue(AfterPut(b, signatures), f), DesiredValue(b, f)) <==>
            (f == EnforceAdmins ==> b.enforceAdmins.Some?)
            && (f == SignaturesField && b.signatures.Some? ==> signatures == b.signatures)
  {
    if IsSubObject(f) {
      PutCoversSubObject(b, signatures, f);
    }
  }

  lemma PutCoversSubObject(b: BranchProtection, signatures: Option<bool>, f: Field)
    requires IsSubObject(f)
    ensures FieldCovered(LiveValue(AfterPut(b, signatures), f), DesiredValue(b, f))
    ensures LiveValue(AfterPut(b, signatures), f) == Some(Null) <==> DesiredValue(b, f) == Some(Null)
  {
    if f == ChecksField && b.statusChecks.Some? { ChecksAgree(b.statusChecks.value); }
    if f == ReviewsField && b.reviews.Some? { ReviewsAgree(b.reviews.value); }
    if f == RestrictionsField && b.restrictions.Some? { RestrictionsAgree(b.restrictions.value); }
  }

  // So the whole documents agree after a PUT, and the signatures' own write, exactly when
  // the admins switch is stated.
  lemma AfterPutCovers(b: BranchProtection, signatures: Option<bool>)
    requires b.signatures.Some? ==> signatures == b.signatures
    ensures Covers(Object(Decoded(AfterPut(b, signatures))), Object(DesiredDoc(b))) <==> b.enforceAdmins.Some?
  {
    var cur: Values, des: Values := f => LiveValue(AfterPut(b, signatures), f), f => DesiredValue(b, f);
    DocsCover(cur, des);
    forall f ensures FieldCovered(cur(f), des(f)) <==> (f == EnforceAdmins ==> b.enforceAdmins.Some?) {
      PutCovers(b, signatures, f);
    }
    assert FieldCovered(cur(EnforceAdmins), des(EnforceAdmins)) <==> b.enforceAdmins.Some?;
  }

  // Without the admins switch stated, no live document covers the desired one: it asks for
  // null where GET shows a boolean.
  lemma UnstatedNeverCovered(b: BranchProtection, p: Live)
    requires b.enforceAdmins.None?
    ensures !Covers(Object(Decoded(p)), Object(DesiredDoc(b)))
  {
    var cur: Values, des: Values := f => LiveValue(p, f), f => DesiredValue(b, f);
    DocsCover(cur, des);
    assert !FieldCovered(cur(EnforceAdmins), des(EnforceAdmins));
  }

  lemma DesiredKey(b: BranchProtection, f: Field)
    ensures Get(DesiredDoc(b), NameOf(f)) == DesiredValue(b, f)
  {
    DocGet(g => DesiredValue(b, g), f);
  }

  // The desired document, key by key: four parts are always present, and null when nil.
  lemma DesiredAdmins(b: BranchProtection)
    ensures Get(DesiredDoc(b), "enforce_admins") ==
            Some(if b.enforceAdmins.Some? then Json.Bool(b.enforceAdmins.value) else Null)
  {
    DesiredKey(b, EnforceAdmins);
  }

  lemma DesiredParts(b: BranchProtection)
    ensures var d := DesiredDoc(b);
            && (Get(d, "required_status_checks") == Some(Null) <==> b.statusChecks.None?)
            && (Get(d, "required_pull_request_reviews") == Some(Null) <==> b.reviews.None?)
            && (Get(d, "restrictions") == Some(Null) <==> b.restrictions.None?)
  {
    DesiredKey(b, ChecksField);
    DesiredKey(b, ReviewsField);
    DesiredKey(b, RestrictionsField);
  }

  // The other switches are left out when nil.
  lemma DesiredHistory(b: BranchProtection)
    ensures var d := DesiredDoc(b);
            && Get(d, "required_linear_history") == Switch(b.linearHistory)
            && Get(d, "allow_force_pushes") == Switch(b.forcePushes)
            && Get(d, "allow_deletions") == Switch(b.deletions)
            && Get(d, "required_conversation_resolution") == Switch(b.conversation)
  {
    DesiredKey(b, LinearHistory);
    DesiredKey(b, ForcePushes);
    DesiredKey(b, Deletions);
    DesiredKey(b, Conversation);
  }

  lemma DesiredLocks(b: BranchProtection)
    ensures var d := DesiredDoc(b);
            && Get(d, "block_creations") == Switch(b.blockCreations)
            && Get(d, "lock_branch") == Switch(b.lockBranch)
            && Get(d, "allow_fork_syncing") == Switch(b.forkSyncing)
            && Get(d, "required_signatures") == Switch(b.signatures)
  {
    DesiredKey(b, BlockCreations);
    DesiredKey(b, LockBranch);
    DesiredKey(b, ForkSyncing);
    DesiredKey(b, SignaturesField);
  }

  // The projection of a GET body, key by key: a switch is on exactly when GET reports it on,
  // a part is null exactly when GET leaves it out, and the signatures are shown as reported.
  lemma DecodedKeys(p: Live, f: Field)
    ensures IsSwitch(f) ==> Get(Decoded(p), NameOf(f)) == Some(Json.Bool(LiveSwitch(p, f) == Some(true)))
    ensures f == SignaturesField ==> Get(Decoded(p), NameOf(f)) == Switch(p.signatures)
    ensures f == ChecksField ==> (Get(Decoded(p), NameOf(f)) == Some(Null) <==> p.statusChecks.None?)
    ensures f == ReviewsField ==> (Get(Decoded(p), NameOf(f)) == Some(Null) <==> p.reviews.None?)
    ensures f == RestrictionsField ==> (Get(Decoded(p), NameOf(f)) == Some(Null) <==> p.restrictions.None?)
  {
    DocGet(g => LiveValue(p, g), f);
  }
}
