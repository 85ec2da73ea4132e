/**
  The cache of org admin layers (internal/config/admin_cache.go): which repository governs
  a target, and one call of For on the mutable cache.
*/
module AdminCache {
  import opened Wrappers
  import opened Strings

  const TTL: int := 300_000_000_000

  // ---------------------------------------------------------------- who governs a target

  datatype Repo = Repo(owner: string, name: string)
  {
    function Text(): string {
      owner + "/" + name
    }
  }

  predicate SameRepo(a: Repo, b: Repo) {
    EqualFold(a.owner, b.owner) && EqualFold(a.name, b.name)
  }

  predicate Mentions(s: string, chars: string) {
    exists i :: 0 <= i < |s| && s[i] in chars
  }

  predicate BadSegment(part: string) {
    part == "" || part == "." || part == ".." || Mentions(part, " \\?%#\t\r\n")
  }

  predicate ValidRef(ref: string) {
    ref != ""
    && |Split(ref, '/')| <= 2
    && forall i :: 0 <= i < |Split(ref, '/')| ==> !BadSegment(Split(ref, '/')[i])
  }

  // ValidateAdminRepoRef; None is no error.
  method ValidateAdminRepoRef(ref: string) returns (err: Option<string>)
    ensures err.None? <==> ref == "" || ValidRef(ref)
  {
    if ref == "" {
      return None;
    }
    var parts := Split(ref, '/');
    if |parts| > 2 {
      return Some("ORG_ADMIN_REPO must be name or owner/name");
    }
    for i := 0 to |parts|
      invariant forall j :: 0 <= j < i ==> !BadSegment(parts[j])
    {
      if BadSegment(parts[i]) {
        return Some("ORG_ADMIN_REPO contains an invalid repository path segment");
      }
    }
    return None;
  }

  predicate PlainSegment(part: string) {
    && part != "" && part != "." && part != ".."
    && forall i :: 0 <= i < |part| ==>
         var c := part[i];
         c != '/' && c != ' ' && c != '\\' && c != '?' && c != '%' && c != '#' && c != '\t' && c != '\r' && c != '\n'
  }

  lemma PlainMeans(part: string)
    requires Without(part, '/')
    ensures PlainSegment(part) <==> !BadSegment(part)
  {
    var chars := " \\?%#\t\r\n";
    assert chars[0] == ' ' && chars[1] == '\\' && chars[2] == '?' && chars[3] == '%' && chars[4] == '#'
        && chars[5] == '\t' && chars[6] == '\r' && chars[7] == '\n';
  }

  // A reference is valid exactly when it is one plain segment, or two with a slash between.
  lemma ValidMeans(ref: string)
    ensures ValidRef(ref) <==>
            PlainSegment(ref) || exists owner, name :: PlainSegment(owner) && PlainSegment(name) && ref == owner + "/" + name
  {
    var parts := Split(ref, '/');
    JoinSplit(ref, '/');
    forall i | 0 <= i < |parts| ensures PlainSegment(parts[i]) <==> !BadSegment(parts[i]) {
      PlainMeans(parts[i]);
    }
    if ValidRef(ref) {
      if |parts| == 2 {
        assert parts[1..] == [parts[1]];
        assert ref == parts[0] + "/" + parts[1];
      } else {
        assert parts == [ref];
      }
    }
    if PlainSegment(ref) {
      SplitWithout(ref, '/');
    }
    if owner, name :| PlainSegment(owner) && PlainSegment(name) && ref == owner + "/" + name {
      SplitFirst(owner, name, '/');
      SplitWithout(name, '/');
    }
  }

  function AdminRepoFor(ref: string, target: Repo): Option<Repo> {
    var (owner, name, hasOwner) := Cut(ref, '/');
    var admin := if hasOwner then Repo(owner, name) else Repo(target.owner, ref);
    if admin.owner == "" || admin.name == "" then None
    else if SameRepo(admin, target) then None
    else Some(admin)
  }

  // A valid reference governs every target but the one it names itself (and targets without
  // an owner): a pinned reference is the same repository for all of them, a bare one is that
  // name under the target's owner.
  lemma WhoGoverns(ref: string, target: Repo)
    requires ValidRef(ref)
    ensures AdminRepoFor(ref, target).Some? ==> !SameRepo(AdminRepoFor(ref, target).value, target)
    ensures !Without(ref, '/') ==>
              var parts := Split(ref, '/');
              && |parts| == 2 && Repo(parts[0], parts[1]).Text() == ref
              && AdminRepoFor(ref, target) ==
                 if SameRepo(Repo(parts[0], parts[1]), target) then None else Some(Repo(parts[0], parts[1]))
    ensures Without(ref, '/') ==>
              AdminRepoFor(ref, target) ==
              if target.owner == "" || EqualFold(ref, target.name) then None else Some(Repo(target.owner, ref))
  {
    JoinSplit(ref, '/');
    SplitOne(ref, '/');
  }

  // ---------------------------------------------------------------- one call on the cache

  class AdminEntry<L> {
    const fetched: int
    var once: bool
    var layer: Option<L>
    var err: Option<string>

    constructor (fetched: int)
      ensures this.fetched == fetched && !once && layer.None? && err.None?
    {
      this.fetched, once, layer, err := fetched, false, None, None;
    }
  }

  // A cached layer; None is an org without one.
  datatype Cached<L> = Cached(fetched: int, layer: Option<L>)

  predicate Usable<L>(c: map<string, Cached<L>>, key: string, now: int) {
    key in c && now - c[key].fetched <= TTL
  }

  class Cache<L> {
    const ref: string // trimmed
    var entries: map<string, AdminEntry<L>>

    // Between calls every entry holds a layer that was loaded.
    ghost predicate Valid()
      reads this, entries.Values
    {
      forall k :: k in entries ==> entries[k].once && entries[k].err.None?
    }

    ghost function Contents(): map<string, Cached<L>>
      reads this, entries.Values
    {
      map k | k in entries :: Cached(entries[k].fetched, entries[k].layer)
    }

    constructor (ref: string)
      ensures Valid() && Contents() == map[] && this.ref == ref
    {
      this.ref, entries := ref, map[];
    }

    // `clock` is read before the age check and, for a new entry, again after it; `load` is
    // what LoadAdmin would report.
    method For(target: Repo, clock: (int, int), load: Result<Option<L>, string>)
      returns (r: Result<Option<L>, string>, loads: nat)
      requires Valid()
      modifies this, entries.Values
      ensures Valid()
      ensures ref != "" && !ValidRef(ref) ==> r.Err? && loads == 0 && Contents() == old(Contents())
      ensures ref == "" || (ValidRef(ref) && AdminRepoFor(ref, target).None?) ==>
                r == Ok(None) && loads == 0 && Contents() == old(Contents())
      ensures ValidRef(ref) && AdminRepoFor(ref, target).Some? ==>
                var admin := AdminRepoFor(ref, target).value;
                var key := admin.owner + "/" + admin.name;
                if key in old(Contents()) && clock.0 - old(Contents())[key].fetched <= 300_000_000_000 // five minutes
                then r == Ok(old(Contents())[key].layer) && loads == 0 && Contents() == old(Contents())
                else r == load && loads == 1
                     && Contents() == if load.Ok? then old(Contents())[key := Cached(clock.1, load.value)]
                                      else old(Contents()) - {key}
    {
      loads := 0;
      if ref == "" {
        return Ok(None), loads;
      }
      var invalid := ValidateAdminRepoRef(ref);
      if invalid.Some? {
        return Err(invalid.value), loads;
      }
      var adminRepo := AdminRepoFor(ref, target);
      if adminRepo.None? {
        return Ok(None), loads;
      }
      r, loads := ForKey(adminRepo.value.Text(), clock, load);
    }

    method ForKey(key: string, clock: (int, int), load: Result<Option<L>, string>)
      returns (r: Result<Option<L>, string>, loads: nat)
      requires Valid()
      modifies this, entries.Values
      ensures Valid()
      ensures Usable(old(Contents()), key, clock.0) ==>
                r == Ok(old(Contents())[key].layer) && loads == 0 && Contents() == old(Contents())
      ensures !Usable(old(Contents()), key, clock.0) ==>
                r == load && loads == 1
                && Contents() == if load.Ok? then old(Contents())[key := Cached(clock.1, load.value)]
                                 else old(Contents()) - {key}
    {
      var entry := Lookup(key, clock);
      loads := Once(key, entry, load);
      r := if entry.err.Some? then Err(entry.err.value) else Ok(entry.layer);
    }

    // The locked section: the entry of the key, a new one when there is none young enough.
    method Lookup(key: string, clock: (int, int)) returns (entry: AdminEntry<L>)
      requires Valid()
      modifies this`entries
      ensures Usable(old(Contents()), key, clock.0) ==> entries == old(entries) && entry == entries[key]
      ensures !Usable(old(Contents()), key, clock.0) ==>
                && fresh(entry) && entries == old(entries)[key := entry]
                && entry.fetched == clock.1 && !entry.once && entry.layer.None? && entry.err.None?
    {
      if key !in entries || clock.0 - entries[key].fetched > TTL {
        entry := new AdminEntry(clock.1);
        entries := entries[key := entry];
      } else {
        entry := entries[key];
      }
    }

    // The once of an entry: load, and drop the entry on failure if it is still the key's.
    method Once(key: string, entry: AdminEntry<L>, load: Result<Option<L>, string>) returns (loads: nat)
      requires key in entries && entries[key] == entry
      requires !entry.once ==> entry.layer.None? && entry.err.None?
      modifies this`entries, entry
      ensures entry.once
      ensures old(entry.once) ==>
                loads == 0 && entries == old(entries) && entry.layer == old(entry.layer) && entry.err == old(entry.err)
      ensures !old(entry.once) ==>
                && loads == 1
                && (load.Ok? ==> entries == old(entries) && entry.layer == load.value && entry.err.None?)
                && (load.Err? ==> entries == old(entries) - {key} && entry.layer.None? && entry.err == Some(load.error))
    {
      loads := 0;
      if !entry.once {
        loads := 1;
        match load {
          case Ok(layer) => entry.layer := layer;
          case Err(e) =>
            entry.err := Some(e);
            if key in entries && entries[key] == entry {
              entries := entries - {key};
            }
        }
        entry.once := true;
      }
    }
  }
}
