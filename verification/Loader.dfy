/**
  Loading a repository's settings (internal/config/loader.go), layering them
  (internal/config/resolver.go) and narrowing them to what a push touched
  (internal/config/selective.go).

  A section is one field of Settings and its value is not looked into. Fetching a file and
  decoding and validating it are parameters: each file arrives with what came of that.
*/
module Loader {
  import opened Wrappers
  import opened Strings

  datatype Section =
    | Repo | Topics | Teams | Rulesets | Branches | Environments | Webhooks | Autolinks
    | Actions | Security | Pages | Secrets | Variables | DeployKeys | CustomProperties | Collaborators

  const SECTIONS: seq<Section> := [
    Repo, Topics, Teams, Rulesets, Branches, Environments, Webhooks, Autolinks,
    Actions, Security, Pages, Secrets, Variables, DeployKeys, CustomProperties, Collaborators]

  function SectionNumber(section: Section): (n: nat)
    ensures n < |SECTIONS| && SECTIONS[n] == section
  {
    match section
    case Repo => 0 case Topics => 1 case Teams => 2 case Rulesets => 3 case Branches => 4 case Environments => 5
    case Webhooks => 6 case Autolinks => 7 case Actions => 8 case Security => 9 case Pages => 10 case Secrets => 11
    case Variables => 12 case DeployKeys => 13 case CustomProperties => 14 case Collaborators => 15
  }

  // The sections each file sets: the switch of mergeFile.
  function SectionsOf(name: string): (r: Option<seq<Section>>)
    ensures r.Some? ==> forall i :: 0 <= i < |r.value| ==> FileOf(r.value[i]) == name
  {
    match name
    case "repo.yml" => Some([Repo, Topics])
    case "teams.yml" => Some([Teams])
    case "rulesets.yml" => Some([Rulesets])
    case "branches.yml" => Some([Branches])
    case "environments.yml" => Some([Environments])
    case "webhooks.yml" => Some([Webhooks])
    case "autolinks.yml" => Some([Autolinks])
    case "actions.yml" => Some([Actions])
    case "security.yml" => Some([Security])
    case "pages.yml" => Some([Pages])
    case "secrets.yml" => Some([Secrets])
    case "variables.yml" => Some([Variables])
    case "deploy-keys.yml" => Some([DeployKeys])
    case "custom-properties.yml" => Some([CustomProperties])
    case "collaborators.yml" => Some([Collaborators])
    case _ => None
  }

  // fileToKeys
  function FileToKeys(name: string): Option<seq<string>> {
    match name
    case "repo.yml" => Some(["repo", "topics"])
    case "teams.yml" => Some(["teams"])
    case "rulesets.yml" => Some(["rulesets"])
    case "branches.yml" => Some(["branches"])
    case "environments.yml" => Some(["environments"])
    case "webhooks.yml" => Some(["webhooks"])
    case "autolinks.yml" => Some(["autolinks"])
    case "actions.yml" => Some(["actions"])
    case "security.yml" => Some(["security"])
    case "pages.yml" => Some(["pages"])
    case "secrets.yml" => Some(["secrets"])
    case "variables.yml" => Some(["variables"])
    case "deploy-keys.yml" => Some(["deployKeys"])
    case "custom-properties.yml" => Some(["customProperties"])
    case "collaborators.yml" => Some(["collaborators"])
    case _ => None
  }

  // The key under which Filter keeps a section and Resolve records it.
  function KeyOf(section: Section): string {
    match section
    case Repo => "repo"
    case Topics => "topics"
    case Teams => "teams"
    case Rulesets => "rulesets"
    case Branches => "branches"
    case Environments => "environments"
    case Webhooks => "webhooks"
    case Autolinks => "autolinks"
    case Actions => "actions"
    case Security => "security"
    case Pages => "pages"
    case Secrets => "secrets"
    case Variables => "variables"
    case DeployKeys => "deployKeys"
    case CustomProperties => "customProperties"
    case Collaborators => "collaborators"
  }

  // The one file that sets a section.
  function FileOf(section: Section): string {
    match section
    case Repo => "repo.yml"
    case Topics => "repo.yml"
    case Teams => "teams.yml"
    case Rulesets => "rulesets.yml"
    case Branches => "branches.yml"
    case Environments => "environments.yml"
    case Webhooks => "webhooks.yml"
    case Autolinks => "autolinks.yml"
    case Actions => "actions.yml"
    case Security => "security.yml"
    case Pages => "pages.yml"
    case Secrets => "secrets.yml"
    case Variables => "variables.yml"
    case DeployKeys => "deploy-keys.yml"
    case CustomProperties => "custom-properties.yml"
    case Collaborators => "collaborators.yml"
  }

  const FILE_NAMES: seq<string> := [
    "repo.yml", "teams.yml", "rulesets.yml", "branches.yml", "environments.yml", "webhooks.yml",
    "autolinks.yml", "actions.yml", "security.yml", "pages.yml", "secrets.yml", "variables.yml",
    "deploy-keys.yml", "custom-properties.yml", "collaborators.yml"]

  const SETTINGS_DIR: string := ".github/settings/"

  // A nil field is an absent key.
  type Settings<V> = map<Section, V>

  function At<V>(s: Settings<V>, section: Section): Option<V> {
    if section in s then Some(s[section]) else None
  }

  // ---------------------------------------------------------------- the tables agree

  // Enough of a name to tell the names in the tables apart.
  function Mark(s: string): (nat, char) {
    (|s|, if s == "" then ' ' else s[0])
  }

  lemma OwnFile(section: Section)
    ensures SectionsOf(FileOf(section)).Some? && section in SectionsOf(FileOf(section)).value
  {}

  // One file sets a section.
  lemma SectionsOfFile(section: Section, name: string)
    requires SectionsOf(name).Some?
    ensures section in SectionsOf(name).value <==> name == FileOf(section)
  {
    OwnFile(section);
    if section in SectionsOf(name).value {
      var i :| 0 <= i < |SectionsOf(name).value| && SectionsOf(name).value[i] == section;
    }
  }

  lemma MarkTellsKeys(a: Section, b: Section)
    ensures Mark(KeyOf(a)) == Mark(KeyOf(b)) ==> a == b
  {}

  lemma SameFiles(name: string)
    ensures FileToKeys(name).Some? <==> SectionsOf(name).Some?
    ensures SectionsOf(name).Some? ==> |FileToKeys(name).value| == |SectionsOf(name).value|
  {}

  lemma FileKeys(name: string, i: nat)
    requires SectionsOf(name).Some? && FileToKeys(name).Some?
    requires i < |SectionsOf(name).value| == |FileToKeys(name).value|
    ensures FileToKeys(name).value[i] == KeyOf(SectionsOf(name).value[i])
  {}

  // A file affects the key of exactly the sections it sets.
  lemma KeyAffected(section: Section, name: string)
    requires FileToKeys(name).Some?
    ensures KeyOf(section) in FileToKeys(name).value <==> name == FileOf(section)
  {
    SameFiles(name);
    SectionsOfFile(section, name);
    var secs := SectionsOf(name).value;
    forall i | 0 <= i < |secs|
      ensures FileToKeys(name).value[i] == KeyOf(secs[i]) && (secs[i] != section ==> KeyOf(secs[i]) != KeyOf(section))
    {
      FileKeys(name, i);
      MarkTellsKeys(secs[i], section);
    }
    if section in secs {
      var i :| 0 <= i < |secs| && secs[i] == section;
      assert FileToKeys(name).value[i] == KeyOf(section);
    }
  }

  function FileNumber(section: Section): (n: nat)
    ensures n < |FILE_NAMES|
  {
    match section
    case Repo => 0 case Topics => 0 case Teams => 1 case Rulesets => 2 case Branches => 3
    case Environments => 4 case Webhooks => 5 case Autolinks => 6 case Actions => 7 case Security => 8
    case Pages => 9 case Secrets => 10 case Variables => 11 case DeployKeys => 12
    case CustomProperties => 13 case Collaborators => 14
  }

  // The files that are read set every section, and each is known to both tables.
  lemma EveryFileIsRead(section: Section)
    ensures FILE_NAMES[FileNumber(section)] == FileOf(section)
    ensures FileToKeys(FileOf(section)).Some?
  {
    OwnFile(section);
    SameFiles(FileOf(section));
  }

  // ---------------------------------------------------------------- one file

  // What strict decoding and the file's validator make of its content. An envelope holds a
  // section for each field that was not nil.
  datatype Parsed<V> = Empty | Invalid(issues: seq<string>) | Envelope(sections: Settings<V>)

  datatype Fetched<V> = NotFound | Failed(error: string) | Content(parsed: Parsed<V>)

  datatype Arrival<V> = Arrival(name: string, fetched: Fetched<V>)

  datatype LoadError = LoadError(file: string, issues: seq<string>)

  function UnknownFile(name: string): LoadError {
    LoadError(name, ["unknown settings file " + name + " - see .github/settings/ for the recognised names"])
  }

  function ErrorIn<V>(a: Arrival<V>): Option<LoadError> {
    match a.fetched
    case NotFound => None
    case Failed(e) => Some(LoadError(a.name, [e]))
    case Content(p) =>
      if SectionsOf(a.name).None? then Some(UnknownFile(a.name))
      else if p.Invalid? then Some(LoadError(a.name, p.issues))
      else None
  }

  function Chosen<V>(secs: seq<Section>, sections: Settings<V>): Settings<V> {
    map section | section in secs && section in sections :: sections[section]
  }

  // The fields that a file sets.
  function Contribution<V>(a: Arrival<V>): Settings<V> {
    if a.fetched.Content? && a.fetched.parsed.Envelope? && SectionsOf(a.name).Some?
    then Chosen(SectionsOf(a.name).value, a.fetched.parsed.sections)
    else map[]
  }

  // mergeFile; the settings are returned instead of updated in place.
  method MergeFile<V>(settings: Settings<V>, name: string, parsed: Parsed<V>) returns (out: Settings<V>, err: Option<LoadError>)
    ensures out == settings + Contribution(Arrival(name, Content(parsed)))
    ensures err == ErrorIn(Arrival(name, Content(parsed)))
  {
    out := settings;
    var targets := SectionsOf(name);
    if targets.None? {
      return out, Some(UnknownFile(name));
    }
    match parsed {
      case Empty => return out, None;
      case Invalid(issues) => return out, Some(LoadError(name, issues));
      case Envelope(sections) =>
        out := Apply(settings, targets.value, sections);
        return out, None;
    }
  }

  method Apply<V>(settings: Settings<V>, secs: seq<Section>, sections: Settings<V>) returns (out: Settings<V>)
    ensures out == settings + Chosen(secs, sections)
  {
    out := settings;
    for i := 0 to |secs|
      invariant out == settings + Chosen(secs[..i], sections)
    {
      assert forall section :: section in secs[..i + 1] <==> section in secs[..i] || section == secs[i];
      if secs[i] in sections {
        out := out[secs[i] := sections[secs[i]]];
      }
    }
    assert secs[..|secs|] == secs;
  }

  // ---------------------------------------------------------------- a directory

  ghost predicate DistinctFiles<V>(order: seq<Arrival<V>>) {
    forall i, j :: 0 <= i < j < |order| ==> order[i].name != order[j].name
  }

  function ErrorList<V>(a: Arrival<V>): seq<LoadError> {
    match ErrorIn(a) case None => [] case Some(e) => [e]
  }

  function Errors<V>(order: seq<Arrival<V>>): seq<LoadError> {
    if order == [] then []
    else Errors(order[..|order| - 1]) + ErrorList(order[|order| - 1])
  }

  function Merged<V>(order: seq<Arrival<V>>): Settings<V> {
    if order == [] then map[] else Merged(order[..|order| - 1]) + Contribution(order[|order| - 1])
  }

  function Normalized<V>(s: Settings<V>, norm: (Section, V) -> V): Settings<V> {
    map section | section in s :: norm(section, s[section])
  }

  // loadSettingsDir: the files in the order they arrive on the channel. `norm` is what
  // Normalize does to each section.
  method LoadSettingsDir<V>(order: seq<Arrival<V>>, norm: (Section, V) -> V) returns (r: Result<Settings<V>, seq<LoadError>>)
    ensures r == if Errors(order) == [] then Ok(Normalized(Merged(order), norm)) else Err(Errors(order))
  {
    var settings: Settings<V> := map[];
    var loadErrs: seq<LoadError> := [];
    for i := 0 to |order|
      invariant settings == Merged(order[..i]) && loadErrs == Errors(order[..i])
    {
      var a := order[i];
      assert order[..i + 1][..i] == order[..i];
      match a.fetched {
        case NotFound => continue;
        case Failed(e) => loadErrs := loadErrs + [LoadError(a.name, [e])];
        case Content(parsed) =>
          var err;
          settings, err := MergeFile(settings, a.name, parsed);
          if err.Some? {
            loadErrs := loadErrs + [err.value];
          }
      }
    }
    assert order[..|order|] == order;
    if |loadErrs| > 0 {
      return Err(loadErrs);
    }
    return Ok(Normalized(settings, norm));
  }

  lemma ContributionIsOwn<V>(a: Arrival<V>, section: Section)
    ensures section in Contribution(a) ==> a.name == FileOf(section)
  {
    if SectionsOf(a.name).Some? {
      SectionsOfFile(section, a.name);
    }
  }

  // What the last file to arrive does to one section.
  lemma MergedLast<V>(order: seq<Arrival<V>>, section: Section, file: string)
    requires order != [] && file == FileOf(section)
    ensures var n := |order| - 1;
            && At(Merged(order), section) == At(Merged(order[..n]) + Contribution(order[n]), section)
            && (order[n].name != file ==> At(Merged(order), section) == At(Merged(order[..n]), section))
  {
    ContributionIsOwn(order[|order| - 1], section);
  }

  lemma WithoutItsFile<V>(order: seq<Arrival<V>>, section: Section)
    requires forall i :: 0 <= i < |order| ==> order[i].name != FileOf(section)
    ensures At(Merged(order), section) == None
  {
    WithoutFile(order, section, FileOf(section));
  }

  lemma {:induction false} WithoutFile<V>(order: seq<Arrival<V>>, section: Section, file: string)
    requires file == FileOf(section) && forall i :: 0 <= i < |order| ==> order[i].name != file
    ensures At(Merged(order), section) == None
  {
    if order != [] {
      WithoutFile(order[..|order| - 1], section, file);
      MergedLast(order, section, file);
    }
  }

  // A section ends up as what its own file says, wherever that file arrived.
  lemma FromItsFile<V>(order: seq<Arrival<V>>, section: Section, i: nat)
    requires DistinctFiles(order) && i < |order| && order[i].name == FileOf(section)
    ensures At(Merged(order), section) == At(Contribution(order[i]), section)
  {
    FromFile(order, section, FileOf(section), i);
  }

  lemma {:induction false} FromFile<V>(order: seq<Arrival<V>>, section: Section, file: string, i: nat)
    requires file == FileOf(section) && DistinctFiles(order) && i < |order| && order[i].name == file
    ensures At(Merged(order), section) == At(Contribution(order[i]), section)
  {
    var n := |order| - 1;
    MergedLast(order, section, file);
    if i == n {
      WithoutFile(order[..n], section, file);
    } else {
      assert order[n].name != order[i].name;
      FromFile(order[..n], section, file, i);
    }
  }

  lemma {:induction false} ErrorsConcat<V>(a: seq<Arrival<V>>, b: seq<Arrival<V>>)
    ensures Errors(a + b) == Errors(a) + Errors(b)
  {
    if b == [] {
      assert a + b == a;
    } else {
      var n := |b| - 1;
      assert (a + b)[..|a + b| - 1] == a + b[..n];
      ErrorsConcat(a, b[..n]);
    }
  }

  lemma {:induction false} ErrorsOfPermutation<V>(a: seq<Arrival<V>>, b: seq<Arrival<V>>)
    requires multiset(a) == multiset(b)
    ensures multiset(Errors(a)) == multiset(Errors(b))
  {
    if a == [] {
      assert |multiset(b)| == 0;
    } else {
      var n := |a| - 1;
      assert a[n] in multiset(a);
      var i :| 0 <= i < |b| && b[i] == a[n];
      assert a == a[..n] + [a[n]];
      assert b == b[..i] + ([a[n]] + b[i + 1..]);
      assert multiset(a[..n]) == multiset(a) - multiset{a[n]};
      assert multiset(b[..i] + b[i + 1..]) == multiset(b) - multiset{a[n]};
      ErrorsOfPermutation(a[..n], b[..i] + b[i + 1..]);
      ErrorsConcat(a[..n], [a[n]]);
      ErrorsConcat(b[..i], [a[n]] + b[i + 1..]);
      ErrorsConcat([a[n]], b[i + 1..]);
      ErrorsConcat(b[..i], b[i + 1..]);
    }
  }

  lemma SameMembers<V>(a: seq<Arrival<V>>, b: seq<Arrival<V>>, i: nat) returns (j: nat)
    requires multiset(a) == multiset(b) && i < |a|
    ensures j < |b| && b[j] == a[i]
  {
    assert a[i] in multiset(b);
    j :| 0 <= j < |b| && b[j] == a[i];
  }

  // Loading is confluent: whatever order the files arrive in, the settings are the same
  // and so is the multiset of errors.
  lemma LoadIgnoresOrder<V>(a: seq<Arrival<V>>, b: seq<Arrival<V>>)
    requires multiset(a) == multiset(b) && DistinctFiles(a) && DistinctFiles(b)
    ensures Merged(a) == Merged(b) && multiset(Errors(a)) == multiset(Errors(b))
    ensures Errors(a) == [] <==> Errors(b) == []
  {
    ErrorsOfPermutation(a, b);
    assert |Errors(a)| == |multiset(Errors(a))| && |Errors(b)| == |multiset(Errors(b))|;
    forall section ensures At(Merged(a), section) == At(Merged(b), section) {
      if i :| 0 <= i < |a| && a[i].name == FileOf(section) {
        var j := SameMembers(a, b, i);
        FromItsFile(a, section, i);
        FromItsFile(b, section, j);
      } else {
        forall j | 0 <= j < |b| ensures b[j].name != FileOf(section) {
          var i := SameMembers(b, a, j);
        }
        WithoutItsFile(a, section);
        WithoutItsFile(b, section);
      }
    }
    SameSettings(Merged(a), Merged(b));
  }

  lemma SameSettings<V>(a: Settings<V>, b: Settings<V>)
    requires forall section :: At(a, section) == At(b, section)
    ensures a == b
  {
    forall section ensures (section in a <==> section in b) && (section in a ==> a[section] == b[section]) {
      assert At(a, section) == At(b, section);
    }
  }

  // ---------------------------------------------------------------- what a load comes to

  // Some section is set by a file of this name.
  ghost predicate Known(name: string) {
    exists section :: FileOf(section) == name
  }

  lemma KnownMeans(name: string)
    ensures Known(name) <==> SectionsOf(name).Some?
  {
    if section :| FileOf(section) == name {
      OwnFile(section);
    }
    if SectionsOf(name).Some? {
      assert SectionsOf(name).value != [];
      assert FileOf(SectionsOf(name).value[0]) == name;
    }
  }

  // The fetch failed, or what came is invalid or has a name that no section knows.
  ghost predicate Spoils<V>(a: Arrival<V>) {
    a.fetched.Failed? || (a.fetched.Content? && (a.fetched.parsed.Invalid? || !Known(a.name)))
  }

  lemma ErrorMeans<V>(a: Arrival<V>)
    ensures ErrorIn(a).Some? <==> Spoils(a)
    ensures Spoils(a) ==> ErrorIn(a).value.file == a.name
    ensures a.fetched.Failed? ==> ErrorIn(a).value.issues == [a.fetched.error]
    ensures a.fetched.Content? && a.fetched.parsed.Invalid? && Known(a.name) ==>
              ErrorIn(a).value.issues == a.fetched.parsed.issues
    ensures a.fetched.Content? && !Known(a.name) ==>
              ErrorIn(a).value.issues ==
              ["unknown settings file " + a.name + " - see .github/settings/ for the recognised names"]
  {
    KnownMeans(a.name);
  }

  // A load fails exactly when some file spoils it.
  lemma {:induction false} LoadFails<V>(order: seq<Arrival<V>>)
    ensures Errors(order) == [] <==> forall i :: 0 <= i < |order| ==> !Spoils(order[i])
  {
    if order != [] {
      var n := |order| - 1;
      LoadFails(order[..n]);
      ErrorMeans(order[n]);
      assert forall i :: 0 <= i < n ==> order[..n][i] == order[i];
    }
  }

  // Each such file has its error reported,
  lemma {:induction false} SpoilingIsReported<V>(order: seq<Arrival<V>>, i: nat)
    requires i < |order| && Spoils(order[i])
    ensures ErrorIn(order[i]).Some? && ErrorIn(order[i]).value in Errors(order)
  {
    var n := |order| - 1;
    ErrorMeans(order[i]);
    if i < n { SpoilingIsReported(order[..n], i); }
  }

  // and nothing else is reported.
  lemma {:induction false} ReportedSpoils<V>(order: seq<Arrival<V>>, e: LoadError) returns (i: nat)
    requires e in Errors(order)
    ensures i < |order| && Spoils(order[i]) && ErrorIn(order[i]) == Some(e)
  {
    var n := |order| - 1;
    ErrorMeans(order[n]);
    if ErrorIn(order[n]) == Some(e) {
      i := n;
    } else {
      i := ReportedSpoils(order[..n], e);
    }
  }

  // What a file that arrived says of a section.
  function Says<V>(a: Arrival<V>, section: Section): Option<V> {
    match a.fetched
    case Content(Envelope(sections)) => At(sections, section)
    case _ => None
  }

  // After a load each section is the normalized value that its own file gave it, and is
  // nil when that file did not arrive, was empty, or did not set it.
  lemma LoadedSection<V>(order: seq<Arrival<V>>, norm: (Section, V) -> V, section: Section, i: nat)
    requires DistinctFiles(order) && i < |order| && order[i].name == FileOf(section)
    ensures At(Normalized(Merged(order), norm), section) ==
            match Says(order[i], section) case Some(v) => Some(norm(section, v)) case None => None
  {
    FromItsFile(order, section, i);
    ContributionSays(order[i], section);
  }

  lemma ContributionSays<V>(a: Arrival<V>, section: Section)
    requires a.name == FileOf(section)
    ensures At(Contribution(a), section) == Says(a, section)
  {
    OwnFile(section);
  }

  lemma UnloadedSection<V>(order: seq<Arrival<V>>, norm: (Section, V) -> V, section: Section)
    requires forall i :: 0 <= i < |order| ==> order[i].name != FileOf(section)
    ensures At(Normalized(Merged(order), norm), section) == None
  {
    WithoutItsFile(order, section);
  }

  // ---------------------------------------------------------------- a map of files

  ghost function Arrivals<V>(files: map<string, Parsed<V>>, names: set<string>): set<Arrival<V>>
    requires names <= files.Keys
  {
    set name | name in names :: Arrival(name, Content(files[name]))
  }

  // An order in which some of the files of the map could have arrived.
  ghost predicate Lists<V>(files: map<string, Parsed<V>>, names: set<string>, order: seq<Arrival<V>>)
    requires names <= files.Keys
  {
    multiset(order) == multiset(Arrivals(files, names))
  }

  lemma ListsOneMore<V>(files: map<string, Parsed<V>>, left: set<string>, order: seq<Arrival<V>>, name: string)
    requires name in left && left <= files.Keys && Lists(files, files.Keys - left, order)
    ensures Lists(files, files.Keys - (left - {name}), order + [Arrival(name, Content(files[name]))])
  {
    var a := Arrival(name, Content(files[name]));
    assert files.Keys - (left - {name}) == files.Keys - left + {name};
    assert Arrivals(files, files.Keys - (left - {name})) == Arrivals(files, files.Keys - left) + {a};
    assert a !in Arrivals(files, files.Keys - left);
  }

  lemma ArrivesNext<V>(order: seq<Arrival<V>>, a: Arrival<V>)
    ensures Merged(order + [a]) == Merged(order) + Contribution(a)
    ensures Errors(order + [a]) == Errors(order) + ErrorList(a)
  {
    assert (order + [a])[..|order|] == order;
  }

  lemma ListsDistinct<V>(files: map<string, Parsed<V>>, order: seq<Arrival<V>>)
    requires Lists(files, files.Keys, order)
    ensures DistinctFiles(order)
  {
    forall i, j | 0 <= i < j < |order| ensures order[i].name != order[j].name {
      assert order[i] in multiset(order) && order[j] in multiset(order);
      assert order == order[..j] + order[j..];
      assert order[i] in multiset(order[..j]) && order[j] in multiset(order[j..]);
    }
  }

  // What came of one order of the files is what comes of any.
  ghost predicate IsLoad<V>(r: Result<Settings<V>, seq<LoadError>>, order: seq<Arrival<V>>, norm: (Section, V) -> V) {
    match r
    case Ok(settings) => Errors(order) == [] && settings == Normalized(Merged(order), norm)
    case Err(errs) => errs != [] && multiset(errs) == multiset(Errors(order))
  }

  // The loop, with the names in `left` still to come, has come to what some order of the
  // files it has seen comes to.
  ghost predicate LoadedSoFar<V>(files: map<string, Parsed<V>>, left: set<string>, order: seq<Arrival<V>>,
                                 settings: Settings<V>, errs: seq<LoadError>)
  {
    left <= files.Keys && Lists(files, files.Keys - left, order) && settings == Merged(order) && errs == Errors(order)
  }

  lemma LoadsOneMore<V>(files: map<string, Parsed<V>>, left: set<string>, order: seq<Arrival<V>>,
                        settings: Settings<V>, errs: seq<LoadError>, name: string)
    requires name in left && name in files && LoadedSoFar(files, left, order, settings, errs)
    ensures var a := Arrival(name, Content(files[name]));
            LoadedSoFar(files, left - {name}, order + [a], settings + Contribution(a), errs + ErrorList(a))
  {
    ArrivesNext(order, Arrival(name, Content(files[name])));
    ListsOneMore(files, left, order, name);
  }

  lemma LoadOfAnyOrder<V>(files: map<string, Parsed<V>>, r: Result<Settings<V>, seq<LoadError>>, order: seq<Arrival<V>>,
                          norm: (Section, V) -> V)
    requires LoadedSoFar(files, {}, order, Merged(order), Errors(order)) && IsLoad(r, order, norm)
    ensures forall other :: Lists(files, files.Keys, other) ==> IsLoad(r, other, norm)
  {
    assert files.Keys - {} == files.Keys;
    forall other | Lists(files, files.Keys, other) ensures IsLoad(r, other, norm) {
      ListsDistinct(files, order);
      ListsDistinct(files, other);
      LoadIgnoresOrder(order, other);
    }
  }

  // LoadFromMap, which ranges over the map in any order. It comes to what the same files
  // come to in whatever order they arrive: the same settings, and the same errors.
  method LoadFromMap<V>(files: map<string, Parsed<V>>, norm: (Section, V) -> V)
    returns (r: Result<Settings<V>, seq<LoadError>>)
    ensures forall order :: Lists(files, files.Keys, order) ==>
              match r
              case Ok(settings) => Errors(order) == [] && settings == Normalized(Merged(order), norm)
              case Err(errs) => errs != [] && multiset(errs) == multiset(Errors(order))
  {
    var settings: Settings<V> := map[];
    var errs: seq<LoadError> := [];
    var left := files.Keys;
    ghost var order: seq<Arrival<V>> := [];
    while left != {}
      invariant LoadedSoFar(files, left, order, settings, errs)
    {
      var name :| name in left;
      LoadsOneMore(files, left, order, settings, errs, name);
      var err;
      settings, err := MergeFile(settings, name, files[name]);
      if err.Some? {
        errs := errs + [err.value];
      }
      left, order := left - {name}, order + [Arrival(name, Content(files[name]))];
    }
    r := if |errs| > 0 then Err(errs) else Ok(Normalized(settings, norm));
    LoadOfAnyOrder(files, r, order, norm);
    forall other | Lists(files, files.Keys, other)
      ensures match r
              case Ok(settings) => Errors(other) == [] && settings == Normalized(Merged(other), norm)
              case Err(errs) => errs != [] && multiset(errs) == multiset(Errors(other))
    {
      assert IsLoad(r, other, norm);
    }
  }

  // ---------------------------------------------------------------- layers

  datatype Layer<V> = Layer(source: string, settings: Option<Settings<V>>)

  // What the layers come to, section by section: a later layer replaces what it sets.
  function Resolved<V>(layers: seq<Layer<V>>): Settings<V> {
    if layers == [] then map[]
    else Resolved(layers[..|layers| - 1]) + layers[|layers| - 1].settings.GetOr(map[])
  }

  predicate Sets<V>(layer: Layer<V>, section: Section) {
    layer.settings.Some? && section in layer.settings.value
  }

  // The last layer that sets a section.
  function LastSource<V>(layers: seq<Layer<V>>, section: Section): Option<string> {
    if layers == [] then None
    else if Sets(layers[|layers| - 1], section) then Some(layers[|layers| - 1].source)
    else LastSource(layers[..|layers| - 1], section)
  }

  // Both switches name every field of Settings.
  lemma EverySectionListed<V>(sections: Settings<V>)
    ensures Chosen(SECTIONS, sections) == sections
  {
    forall section ensures section in SECTIONS {
      assert SECTIONS[SectionNumber(section)] == section;
    }
  }

  // Merge, which is resolving two layers.
  method Merge<V>(base: Option<Settings<V>>, over: Option<Settings<V>>) returns (out: Settings<V>)
    ensures forall source, source' :: out == Resolved([Layer(source, base), Layer(source', over)])
  {
    out := base.GetOr(map[]);
    forall source, source' ensures Resolved([Layer(source, base), Layer(source', over)]) == out + over.GetOr(map[]) {
      var layers := [Layer(source, base), Layer(source', over)];
      assert layers[..1] == [layers[0]] && layers[..1][..0] == [];
      assert Resolved(layers[..1]) == base.GetOr(map[]);
    }
    if over.Some? {
      EverySectionListed(over.value);
      out := Apply(out, SECTIONS, over.value);
    }
  }

  // Resolve; provenance is kept by section.
  method Resolve<V>(layers: seq<Layer<V>>) returns (out: Settings<V>, prov: map<Section, string>)
    ensures out == Resolved(layers)
    ensures forall section :: At(prov, section) == LastSource(layers, section)
  {
    out, prov := map[], map[];
    for i := 0 to |layers|
      invariant out == Resolved(layers[..i])
      invariant forall section :: At(prov, section) == LastSource(layers[..i], section)
    {
      var layer := layers[i];
      assert layers[..i + 1][..i] == layers[..i];
      if layer.settings.None? {
        continue;
      }
      var sources := map section | section in layer.settings.value :: layer.source;
      EverySectionListed(layer.settings.value);
      EverySectionListed(sources);
      out := Apply(out, SECTIONS, layer.settings.value);
      prov := Apply(prov, SECTIONS, sources);
    }
    assert layers[..|layers|] == layers;
  }

  // The last layer that sets a section wins, and provenance names it.
  lemma {:induction false} LastLayerWins<V>(layers: seq<Layer<V>>, section: Section, i: nat)
    requires i < |layers| && Sets(layers[i], section)
    requires forall j :: i < j < |layers| ==> !Sets(layers[j], section)
    ensures At(Resolved(layers), section) == At(layers[i].settings.value, section)
    ensures LastSource(layers, section) == Some(layers[i].source)
  {
    if i < |layers| - 1 {
      LastLayerWins(layers[..|layers| - 1], section, i);
    }
  }

  // A section that no layer sets stays nil.
  lemma {:induction false} UnsetStaysNil<V>(layers: seq<Layer<V>>, section: Section)
    requires forall j :: 0 <= j < |layers| ==> !Sets(layers[j], section)
    ensures At(Resolved(layers), section) == None && LastSource(layers, section) == None
  {
    if layers != [] {
      UnsetStaysNil(layers[..|layers| - 1], section);
    }
  }

  // ---------------------------------------------------------------- selective reconcile

  function Relative(path: string): string {
    if SETTINGS_DIR <= path then path[|SETTINGS_DIR|..] else path
  }

  // A changed path names a settings file bare or under the settings directory, and in no
  // other way.
  lemma PathNamesFile(path: string, name: string)
    requires SectionsOf(name).Some?
    ensures Relative(path) == name <==> path == name || path == ".github/settings/" + name
  {
    NoLeadingDot(name);
    assert SETTINGS_DIR[0] == '.';
    if SETTINGS_DIR <= path {
      assert path == SETTINGS_DIR + path[|SETTINGS_DIR|..];
    }
    assert (SETTINGS_DIR + name)[|SETTINGS_DIR|..] == name;
  }

  lemma NoLeadingDot(name: string)
    requires SectionsOf(name).Some?
    ensures name != "" && name[0] != '.'
  {}

  // The table is fileToKeys; it is passed along so that proofs do not look into it.
  type KeyTable = string -> Option<seq<string>>

  function KeysFor(table: KeyTable, path: string): seq<string> {
    table(Relative(path)).GetOr([])
  }

  ghost predicate AllKnown(table: KeyTable, changed: seq<string>) {
    forall i :: 0 <= i < |changed| ==> table(Relative(changed[i])).Some?
  }

  function KeysTouched(table: KeyTable, changed: seq<string>): set<string> {
    if changed == [] then {}
    else KeysTouched(table, changed[..|changed| - 1]) + Elements(KeysFor(table, changed[|changed| - 1]))
  }

  // The keys a list of changed paths affects; None is everything.
  ghost function Affected(table: KeyTable, changed: seq<string>): Option<set<string>> {
    if !AllKnown(table, changed) || KeysTouched(table, changed) == {} then None else Some(KeysTouched(table, changed))
  }

  lemma {:induction false} TouchedMeans(table: KeyTable, changed: seq<string>, k: string)
    ensures k in KeysTouched(table, changed) <==> exists i :: 0 <= i < |changed| && k in KeysFor(table, changed[i])
  {
    if changed != [] {
      TouchedMeans(table, changed[..|changed| - 1], k);
    }
  }

  method AffectedKeys(table: KeyTable, changed: seq<string>) returns (r: Option<set<string>>)
    ensures r == Affected(table, changed)
  {
    if |changed| == 0 {
      return None;
    }
    var keys: set<string> := {};
    for i := 0 to |changed|
      invariant AllKnown(table, changed[..i])
      invariant keys == KeysTouched(table, changed[..i])
    {
      assert changed[..i + 1][..i] == changed[..i];
      var mapped := table(Relative(changed[i]));
      if mapped.None? {
        return None;
      }
      keys := keys + Elements(mapped.value);
    }
    assert changed[..|changed|] == changed;
    if |keys| == 0 {
      return None;
    }
    return Some(keys);
  }

  // fileToKeys names at least one key for each file, so a list of settings files that is
  // not empty never means everything.
  lemma KnownFilesNarrow(changed: seq<string>)
    ensures Affected(FileToKeys, changed).Some? <==> changed != [] && AllKnown(FileToKeys, changed)
  {
    if changed != [] && AllKnown(FileToKeys, changed) {
      var keys := KeysFor(FileToKeys, changed[0]);
      assert keys != [];
      assert keys[0] in keys;
      TouchedMeans(FileToKeys, changed, keys[0]);
    }
  }

  function Filter<V>(s: Settings<V>, keys: Option<set<string>>): Settings<V> {
    match keys
    case None => s
    case Some(ks) => map section | section in s && KeyOf(section) in ks :: s[section]
  }

  // A section is kept exactly when its file was changed, or everything is.
  lemma KeptMeansTouched<V>(s: Settings<V>, changed: seq<string>, section: Section)
    requires Affected(FileToKeys, changed).Some?
    ensures At(Filter(s, Affected(FileToKeys, changed)), section) ==
            if exists i :: 0 <= i < |changed| && Relative(changed[i]) == FileOf(section) then At(s, section) else None
  {
    TouchedMeans(FileToKeys, changed, KeyOf(section));
    forall i | 0 <= i < |changed|
      ensures KeyOf(section) in KeysFor(FileToKeys, changed[i]) <==> Relative(changed[i]) == FileOf(section)
    {
      KeyAffected(section, Relative(changed[i]));
    }
  }

  // Two sets of files agree on a file: it arrived alike in both, or in neither.
  ghost predicate SameFile<V>(a: seq<Arrival<V>>, b: seq<Arrival<V>>, name: string) {
    && (forall i :: 0 <= i < |a| && a[i].name == name ==> a[i] in b)
    && (forall i :: 0 <= i < |b| && b[i].name == name ==> b[i] in a)
  }

  lemma SameFileSameSection<V>(a: seq<Arrival<V>>, b: seq<Arrival<V>>, section: Section)
    requires DistinctFiles(a) && DistinctFiles(b) && SameFile(a, b, FileOf(section))
    ensures At(Merged(a), section) == At(Merged(b), section)
  {
    if i :| 0 <= i < |a| && a[i].name == FileOf(section) {
      var j :| 0 <= j < |b| && b[j] == a[i];
      FromItsFile(a, section, i);
      FromItsFile(b, section, j);
    } else {
      WithoutItsFile(a, section);
      WithoutItsFile(b, section);
    }
  }

  ghost function Desired<V>(admin: seq<Layer<V>>, files: seq<Arrival<V>>, norm: (Section, V) -> V): Settings<V> {
    Resolved(admin + [Layer("repo", Some(Normalized(Merged(files), norm)))])
  }

  lemma SameFileSameDesired<V>(a: seq<Arrival<V>>, b: seq<Arrival<V>>, admin: seq<Layer<V>>, norm: (Section, V) -> V,
                               section: Section)
    requires DistinctFiles(a) && DistinctFiles(b) && SameFile(a, b, FileOf(section))
    ensures At(Desired(admin, a, norm), section) == At(Desired(admin, b, norm), section)
  {
    var x, y := Layer("repo", Some(Normalized(Merged(a), norm))), Layer("repo", Some(Normalized(Merged(b), norm)));
    assert (admin + [x])[..|admin|] == admin && (admin + [y])[..|admin|] == admin;
    SameFileSameSection(a, b, section);
  }

  // Selective reconcile misses nothing: if two successful loads differ only in the changed
  // files, every section whose resolved value differs under the same admin layers is kept
  // by the filter.
  lemma SelectiveMissesNothing<V>(before: seq<Arrival<V>>, after: seq<Arrival<V>>, changed: seq<string>,
                                  admin: seq<Layer<V>>, norm: (Section, V) -> V, section: Section)
    requires DistinctFiles(before) && DistinctFiles(after) && Errors(before) == [] && Errors(after) == []
    requires forall name :: (forall i :: 0 <= i < |changed| ==> Relative(changed[i]) != name) ==> SameFile(before, after, name)
    requires At(Desired(admin, before, norm), section) != At(Desired(admin, after, norm), section)
    ensures At(Filter(Desired(admin, after, norm), Affected(FileToKeys, changed)), section) == At(Desired(admin, after, norm), section)
    ensures Affected(FileToKeys, changed).Some? ==> KeyOf(section) in Affected(FileToKeys, changed).value
  {
    if forall i :: 0 <= i < |changed| ==> Relative(changed[i]) != FileOf(section) {
      SameFileSameDesired(before, after, admin, norm, section);
    } else if Affected(FileToKeys, changed).Some? {
      var i :| 0 <= i < |changed| && Relative(changed[i]) == FileOf(section);
      KeptMeansTouched(Desired(admin, after, norm), changed, section);
      KeyAffected(section, Relative(changed[i]));
      TouchedMeans(FileToKeys, changed, KeyOf(section));
    }
  }
}
