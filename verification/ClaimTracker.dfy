/** The in-memory symbol lock table. */
module ClaimTracker {
  import opened Common
  import opened SymbolDiff

  type Id = nat

  datatype Claim = Claim(session: Id, agent: string, name: Name, kind: string)

  datatype Key = Key(repo: Id, path: Path, name: Name)

  datatype AcquireOutcome = Fresh | ReAcquired | Locked(session: Id, agent: string)

  datatype ReleasedLock = ReleasedLock(path: Path, name: Name, kind: string, agent: string)

  /** Who holds what: the abstract lock table. */
  type Holders = map<Key, Id>

  /** The locks `s` holds in `repo`. */
  ghost function HeldBy(locks: Holders, repo: Id, s: Id): set<Key> {
    set k | k in locks && k.repo == repo && locks[k] == s
  }

  function Acquired(locks: Holders, key: Key, s: Id): Holders {
    if key in locks then locks else locks[key := s]
  }

  function Released(locks: Holders, key: Key, s: Id): Holders {
    if key in locks && locks[key] == s then locks - {key} else locks
  }

  ghost function AllReleased(locks: Holders, repo: Id, s: Id): Holders {
    locks - HeldBy(locks, repo, s)
  }

  type Claims = map<(Id, Path), seq<Claim>>

  function Find(claims: seq<Claim>, name: Name): (r: Option<nat>)
    ensures r.Some? ==> r.value < |claims| && claims[r.value].name == name
    ensures r.None? ==> forall i | 0 <= i < |claims| :: claims[i].name != name
  {
    if claims == [] then None
    else if claims[|claims| - 1].name == name then Some(|claims| - 1)
    else Find(claims[..|claims| - 1], name)
  }

  /** The claims that `retain` keeps when it drops all of the session's own. */
  function Others(claims: seq<Claim>, s: Id): (r: seq<Claim>)
    ensures forall c :: c in r <==> c in claims && c.session != s
    ensures UniqueNames(claims) ==> UniqueNames(r)
  {
    if claims == [] then []
    else
      var k := |claims| - 1;
      var rest := Others(claims[..k], s);
      assert claims == claims[..k] + [claims[k]];
      if claims[k].session == s then rest
      else
        Extends(claims[..k], claims[k], rest);
        rest + [claims[k]]
  }

  /** The claims that `retain` keeps when it drops one name of the session. */
  function Except(claims: seq<Claim>, s: Id, name: Name): (r: seq<Claim>)
    ensures forall c :: c in r <==> c in claims && !(c.session == s && c.name == name)
    ensures UniqueNames(claims) ==> UniqueNames(r)
  {
    if claims == [] then []
    else
      var k := |claims| - 1;
      var rest := Except(claims[..k], s, name);
      assert claims == claims[..k] + [claims[k]];
      if claims[k].session == s && claims[k].name == name then rest
      else
        Extends(claims[..k], claims[k], rest);
        rest + [claims[k]]
  }

  lemma Extends(claims: seq<Claim>, c: Claim, rest: seq<Claim>)
    requires forall d | d in rest :: d in claims
    requires UniqueNames(claims) ==> UniqueNames(rest)
    ensures UniqueNames(claims + [c]) ==> UniqueNames(rest + [c])
  {
    if UniqueNames(claims + [c]) {
      forall i, j | 0 <= i < j < |claims| ensures claims[i].name != claims[j].name {
        assert (claims + [c])[i] == claims[i] && (claims + [c])[j] == claims[j];
      }
      forall i | 0 <= i < |rest| ensures rest[i].name != c.name {
        assert rest[i] in claims;
        var j :| 0 <= j < |claims| && claims[j] == rest[i];
        assert (claims + [c])[j] == claims[j] && (claims + [c])[|claims|] == c;
      }
    }
  }

  ghost predicate UniqueNames(claims: seq<Claim>) {
    forall i, j | 0 <= i < j < |claims| :: claims[i].name != claims[j].name
  }

  function ListAt(claims: Claims, fk: (Id, Path)): seq<Claim> {
    if fk in claims then claims[fk] else []
  }

  /** One file's claim list says exactly what the abstract table says of that file. */
  ghost predicate FileRepresents(list: seq<Claim>, locks: Holders, fk: (Id, Path)) {
    && UniqueNames(list)
    && (forall c | c in list :: Key(fk.0, fk.1, c.name) in locks && locks[Key(fk.0, fk.1, c.name)] == c.session)
    && (forall k | k in locks && (k.repo, k.path) == fk :: exists c :: c in list && c.name == k.name)
  }

  ghost predicate Represents(claims: Claims, locks: Holders) {
    forall fk :: FileRepresents(ListAt(claims, fk), locks, fk)
  }

  ghost predicate SameElsewhere(a: Holders, b: Holders, fk: (Id, Path)) {
    forall k: Key | (k.repo, k.path) != fk :: (k in a <==> k in b) && (k in a ==> a[k] == b[k])
  }

  lemma UpdateFile(claims: Claims, after: Claims, locks: Holders, locksAfter: Holders, fk: (Id, Path))
    requires Represents(claims, locks)
    requires forall other | other != fk :: ListAt(after, other) == ListAt(claims, other)
    requires SameElsewhere(locks, locksAfter, fk)
    requires FileRepresents(ListAt(after, fk), locksAfter, fk)
    ensures Represents(after, locksAfter)
  {
    forall other ensures FileRepresents(ListAt(after, other), locksAfter, other) {
      if other != fk {
        assert FileRepresents(ListAt(claims, other), locks, other);
      }
    }
  }

  lemma ClaimAdded(list: seq<Claim>, locks: Holders, fk: (Id, Path), claim: Claim)
    requires FileRepresents(list, locks, fk)
    requires forall c | c in list :: c.name != claim.name
    ensures Key(fk.0, fk.1, claim.name) !in locks
    ensures FileRepresents(list + [claim], locks[Key(fk.0, fk.1, claim.name) := claim.session], fk)
  {
    var key := Key(fk.0, fk.1, claim.name);
    var longer := list + [claim];
    forall i, j | 0 <= i < j < |longer| ensures longer[i].name != longer[j].name {
      if j == |list| { assert list[i] in list; }
    }
    forall k | k in locks[key := claim.session] && (k.repo, k.path) == fk
      ensures exists c :: c in longer && c.name == k.name
    {
      if k == key {
        assert claim in longer;
      } else {
        var c :| c in list && c.name == k.name;
        assert c in longer;
      }
    }
  }

  lemma ClaimRenewed(list: seq<Claim>, locks: Holders, fk: (Id, Path), i: nat, claim: Claim)
    requires FileRepresents(list, locks, fk)
    requires i < |list| && claim.name == list[i].name && claim.session == list[i].session
    ensures FileRepresents(list[i := claim], locks, fk)
  {
    var renewed := list[i := claim];
    assert list[i] in list;
    forall c | c in renewed
      ensures Key(fk.0, fk.1, c.name) in locks && locks[Key(fk.0, fk.1, c.name)] == c.session
    {
      if c != claim { assert c in list; }
    }
    forall k | k in locks && (k.repo, k.path) == fk ensures exists c :: c in renewed && c.name == k.name {
      var c :| c in list && c.name == k.name;
      var j :| 0 <= j < |list| && list[j] == c;
      assert renewed[j] in renewed && renewed[j].name == k.name;
    }
  }

  lemma ClaimsDropped(list: seq<Claim>, kept: seq<Claim>, locks: Holders, fk: (Id, Path), dropped: set<Key>)
    requires FileRepresents(list, locks, fk)
    requires UniqueNames(kept)
    requires forall c :: c in kept <==> c in list && Key(fk.0, fk.1, c.name) !in dropped
    ensures FileRepresents(kept, locks - dropped, fk)
  {
    forall k | k in locks - dropped && (k.repo, k.path) == fk ensures exists c :: c in kept && c.name == k.name {
      var c :| c in list && c.name == k.name;
      assert k == Key(fk.0, fk.1, c.name);
    }
  }

  /** The locks `s` holds on one file. */
  ghost function HeldIn(locks: Holders, repo: Id, path: Path, s: Id): set<Key> {
    set k | k in locks && k.repo == repo && k.path == path && locks[k] == s
  }

  ghost function KeysOf(released: seq<ReleasedLock>, repo: Id): set<Key> {
    set r | r in released :: Key(repo, r.path, r.name)
  }

  ghost predicate DistinctLocks(released: seq<ReleasedLock>) {
    forall i, j | 0 <= i < j < |released| :: (released[i].path, released[i].name) != (released[j].path, released[j].name)
  }

  function Mine(claims: seq<Claim>, path: Path, s: Id): (r: seq<ReleasedLock>)
    ensures forall c | c in claims && c.session == s :: ReleasedLock(path, c.name, c.kind, c.agent) in r
    ensures forall lock | lock in r ::
              exists c :: c in claims && c.session == s && lock == ReleasedLock(path, c.name, c.kind, c.agent)
    ensures UniqueNames(claims) ==> DistinctLocks(r)
  {
    if claims == [] then []
    else
      var k := |claims| - 1;
      var c := claims[k];
      var rest := Mine(claims[..k], path, s);
      assert claims == claims[..k] + [c];
      if c.session != s then rest
      else
        (assert UniqueNames(claims) ==> forall lock | lock in rest :: lock.name != c.name by {
           forall lock | UniqueNames(claims) && lock in rest ensures lock.name != c.name {
             var d :| d in claims[..k] && d.session == s && lock == ReleasedLock(path, d.name, d.kind, d.agent);
             var i :| 0 <= i < k && claims[..k][i] == d;
             assert claims[i] == d;
           }
         }
         rest + [ReleasedLock(path, c.name, c.kind, c.agent)])
  }

  lemma ExceptDrops(list: seq<Claim>, locks: Holders, fk: (Id, Path), s: Id, name: Name)
    requires FileRepresents(list, locks, fk)
    ensures FileRepresents(Except(list, s, name), Released(locks, Key(fk.0, fk.1, name), s), fk)
  {
    var key := Key(fk.0, fk.1, name);
    var dropped := if key in locks && locks[key] == s then {key} else {};
    ClaimsDropped(list, Except(list, s, name), locks, fk, dropped);
    assert Released(locks, key, s) == locks - dropped;
  }

  lemma HeldInClaims(list: seq<Claim>, locks: Holders, fk: (Id, Path), s: Id)
    requires FileRepresents(list, locks, fk)
    ensures (set c | c in list && c.session == s :: Key(fk.0, fk.1, c.name)) == HeldIn(locks, fk.0, fk.1, s)
  {
    forall k | k in HeldIn(locks, fk.0, fk.1, s)
      ensures exists c :: c in list && c.session == s && Key(fk.0, fk.1, c.name) == k
    {
      var c :| c in list && c.name == k.name;
      assert Key(fk.0, fk.1, c.name) == k;
    }
  }

  lemma MineKeys(claims: seq<Claim>, repo: Id, path: Path, s: Id)
    ensures KeysOf(Mine(claims, path, s), repo) == set c | c in claims && c.session == s :: Key(repo, path, c.name)
  {
    var mine := Mine(claims, path, s);
    forall c | c in claims && c.session == s ensures Key(repo, path, c.name) in KeysOf(mine, repo) {
      assert ReleasedLock(path, c.name, c.kind, c.agent) in mine;
    }
  }

  lemma ReleasedAre(locks: Holders, repo: Id, s: Id, released: seq<ReleasedLock>)
    requires KeysOf(released, repo) == HeldBy(locks, repo, s)
    ensures forall k: Key | k.repo == repo :: k in locks && locks[k] == s <==>
              exists i :: 0 <= i < |released| && released[i].path == k.path && released[i].name == k.name
  {
    forall k: Key | k.repo == repo
      ensures k in locks && locks[k] == s <==>
                exists i :: 0 <= i < |released| && released[i].path == k.path && released[i].name == k.name
    {
      if i :| 0 <= i < |released| && released[i].path == k.path && released[i].name == k.name {
        assert released[i] in released && k == Key(repo, released[i].path, released[i].name);
      }
      if k in HeldBy(locks, repo, s) {
        var r :| r in released && k == Key(repo, r.path, r.name);
        var i :| 0 <= i < |released| && released[i] == r;
        assert released[i].path == k.path && released[i].name == k.name;
      }
    }
  }

  lemma JoinReleased(a: seq<ReleasedLock>, b: seq<ReleasedLock>, repo: Id)
    requires DistinctLocks(a) && DistinctLocks(b)
    requires forall r, q | r in a && q in b :: r.path != q.path
    ensures DistinctLocks(a + b)
    ensures KeysOf(a + b, repo) == KeysOf(a, repo) + KeysOf(b, repo)
  {
    forall i, j | 0 <= i < j < |a + b|
      ensures ((a + b)[i].path, (a + b)[i].name) != ((a + b)[j].path, (a + b)[j].name)
    {
      if i < |a| <= j {
        assert a[i] in a && b[j - |a|] in b;
      }
    }
  }

  class LocalClaimTracker {
    var claims: Claims
    ghost var locks: Holders

    ghost predicate Valid()
      reads this
    {
      Represents(claims, locks)
    }

    constructor ()
      ensures Valid() && locks == map[]
    {
      claims, locks := map[], map[];
    }

    /** Exclusive per name: refused exactly when another session holds it, and then
        nothing changes hands. */
    method AcquireLock(repo: Id, path: Path, claim: Claim) returns (r: AcquireOutcome)
      requires Valid()
      modifies this
      ensures Valid()
      ensures locks == Acquired(old(locks), Key(repo, path, claim.name), claim.session)
      ensures r.Fresh? ==> locks == old(locks)[Key(repo, path, claim.name) := claim.session]
      ensures !r.Fresh? ==> locks == old(locks)
      ensures r.Fresh? <==> Key(repo, path, claim.name) !in old(locks)
      ensures r.ReAcquired? <==> Key(repo, path, claim.name) in old(locks) && old(locks)[Key(repo, path, claim.name)] == claim.session
      ensures r.Locked? ==> r.session == locks[Key(repo, path, claim.name)] && r.session != claim.session
    {
      var fk := (repo, path);
      var list := ListAt(claims, fk);
      assert FileRepresents(list, locks, fk);
      var at := Find(list, claim.name);
      match at {
        case None =>
          ClaimAdded(list, locks, fk, claim);
          claims := claims[fk := list + [claim]];
          locks := locks[Key(repo, path, claim.name) := claim.session];
          UpdateFile(old(claims), claims, old(locks), locks, fk);
          r := Fresh;
        case Some(i) =>
          var existing := list[i];
          assert existing in list;
          if existing.session != claim.session {
            return Locked(existing.session, existing.agent);
          }
          var renewed := existing.(kind := claim.kind, agent := claim.agent);
          ClaimRenewed(list, locks, fk, i, renewed);
          claims := claims[fk := list[i := renewed]];
          UpdateFile(old(claims), claims, old(locks), locks, fk);
          r := ReAcquired;
      }
    }

    /** Drops one name; only ever the caller's own claim. */
    method ReleaseLock(repo: Id, path: Path, s: Id, name: Name)
      requires Valid()
      modifies this
      ensures Valid()
      ensures locks == Released(old(locks), Key(repo, path, name), s)
      ensures forall k: Key :: k in locks <==> k in old(locks) && !(k == Key(repo, path, name) && old(locks)[k] == s)
      ensures forall k | k in locks :: locks[k] == old(locks)[k]
    {
      var fk := (repo, path);
      if fk !in claims {
        assert FileRepresents(ListAt(claims, fk), locks, fk);
        return;
      }
      var list := claims[fk];
      assert FileRepresents(ListAt(claims, fk), locks, fk);
      var kept := Except(list, s, name);
      ExceptDrops(list, locks, fk, s, name);
      claims := if kept == [] then claims - {fk} else claims[fk := kept];
      locks := Released(locks, Key(repo, path, name), s);
      UpdateFile(old(claims), claims, old(locks), locks, fk);
    }

    /** Drops a session's claims on one file, and reports each dropped lock once. */
    method ReleaseFile(repo: Id, path: Path, s: Id) returns (mine: seq<ReleasedLock>)
      requires Valid()
      requires (repo, path) in claims
      modifies this
      ensures Valid()
      ensures locks == old(locks) - HeldIn(old(locks), repo, path, s)
      ensures KeysOf(mine, repo) == HeldIn(old(locks), repo, path, s)
      ensures DistinctLocks(mine)
      ensures forall r | r in mine :: r.path == path
      ensures claims.Keys == old(claims).Keys || claims.Keys == old(claims).Keys - {(repo, path)}
    {
      var fk := (repo, path);
      var list := claims[fk];
      assert FileRepresents(ListAt(claims, fk), locks, fk);
      mine := Mine(list, path, s);
      MineKeys(list, repo, path, s);
      ghost var dropped := HeldIn(locks, repo, path, s);
      HeldInClaims(list, locks, fk, s);
      var others := Others(list, s);
      ClaimsDropped(list, others, locks, fk, dropped);
      locks := locks - dropped;
      claims := if others == [] then claims - {fk} else claims[fk := others];
      UpdateFile(old(claims), claims, old(locks), locks, fk);
    }

    /** Drops every claim of a session in a repository, file by file, and reports each
        dropped lock once. */
    method ReleaseLocks(repo: Id, s: Id) returns (released: seq<ReleasedLock>)
      requires Valid()
      modifies this
      ensures Valid()
      ensures locks == AllReleased(old(locks), repo, s)
      ensures KeysOf(released, repo) == HeldBy(old(locks), repo, s)
      ensures DistinctLocks(released)
      ensures forall k: Key :: k in locks <==> k in old(locks) && !(k.repo == repo && old(locks)[k] == s)
      ensures forall k | k in locks :: locks[k] == old(locks)[k]
      ensures forall k: Key | k.repo == repo :: k in old(locks) && old(locks)[k] == s <==>
                exists i :: 0 <= i < |released| && released[i].path == k.path && released[i].name == k.name
    {
      released := [];
      var left := claims.Keys;
      ghost var given: set<Key> := {};
      forall k | k in HeldBy(locks, repo, s) ensures (repo, k.path) in left {
        assert FileRepresents(ListAt(claims, (repo, k.path)), locks, (repo, k.path));
      }
      while left != {}
        invariant Valid()
        invariant left <= claims.Keys
        invariant given <= HeldBy(old(locks), repo, s)
        invariant locks == old(locks) - given
        invariant forall k | k in HeldBy(old(locks), repo, s) - given :: (repo, k.path) in left
        invariant KeysOf(released, repo) == given
        invariant forall r | r in released :: (repo, r.path) !in left
        invariant DistinctLocks(released)
        decreases |left|
      {
        var fk :| fk in left;
        left := left - {fk};
        if fk.0 == repo {
          ghost var these := HeldIn(locks, repo, fk.1, s);
          var mine := ReleaseFile(repo, fk.1, s);
          JoinReleased(released, mine, repo);
          released := released + mine;
          given := given + these;
        }
      }
      ReleasedAre(old(locks), repo, s, released);
    }
  }
}
