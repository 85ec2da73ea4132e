/**
  The per-repository mutexes of internal/ghclient/repo_lock.go: a map from case-folded
  repository names to mutexes that only grows. A mutex is known by its number.
*/
module RepoLock {
  import opened Strings

  function Key(owner: string, name: string): string {
    Lower(owner + "/" + name)
  }

  lemma LowerConcat(a: string, b: string)
    ensures Lower(a + b) == Lower(a) + Lower(b)
  {}

  lemma LowerWithout(s: string)
    requires Without(s, '/')
    ensures Without(Lower(s), '/')
  {}

  // Two repositories share a key exactly when they are the same one up to case.
  lemma KeyMeansRepo(owner: string, name: string, owner': string, name': string)
    requires Without(owner, '/') && Without(owner', '/') && Without(name, '/') && Without(name', '/')
    ensures Key(owner, name) == Key(owner', name') <==> EqualFold(owner, owner') && EqualFold(name, name')
  {
    KeyParts(owner, name);
    KeyParts(owner', name');
  }

  lemma KeyParts(owner: string, name: string)
    requires Without(owner, '/') && Without(name, '/')
    ensures Key(owner, name) == Lower(owner) + "/" + Lower(name)
    ensures Split(Key(owner, name), '/') == [Lower(owner), Lower(name)]
  {
    LowerConcat(owner + "/", name);
    LowerConcat(owner, "/");
    assert Lower("/") == "/";
    LowerWithout(owner);
    LowerWithout(name);
    SplitFirst(Lower(owner), Lower(name), '/');
    SplitWithout(Lower(name), '/');
  }

  // Different keys have different mutexes.
  ghost predicate Separate(locks: map<string, nat>, made: nat) {
    && (forall k :: k in locks ==> locks[k] < made)
    && (forall k, l :: k in locks && l in locks && locks[k] == locks[l] ==> k == l)
  }

  // The mutexes after one was looked up: `made` of them existed.
  function WithLock(locks: map<string, nat>, made: nat, key: string): map<string, nat> {
    if key in locks then locks else locks[key := made]
  }

  class Locks {
    var locks: map<string, nat>
    var made: nat

    ghost predicate Valid()
      reads this
    {
      Separate(locks, made)
    }

    constructor ()
      ensures Valid() && locks == map[] && made == 0
    {
      locks, made := map[], 0;
    }

    // The part of With under r.mu: the mutex of the repository, made on first use. A
    // repository keeps its mutex, and only the same repository up to case gets it again.
    method For(owner: string, name: string) returns (m: nat)
      requires Valid()
      modifies this
      ensures Valid()
      ensures locks == WithLock(old(locks), old(made), Key(owner, name))
      ensures made == if Key(owner, name) in old(locks) then old(made) else old(made) + 1
      ensures m < made && locks[Key(owner, name)] == m
      ensures forall k :: k in locks && k != Key(owner, name) ==> locks[k] != m
    {
      var key := Lower(owner + "/" + name);
      if key !in locks {
        locks := locks[key := made];
        made := made + 1;
      }
      m := locks[key];
    }
  }
}
