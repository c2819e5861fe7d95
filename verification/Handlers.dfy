/** The file-read, file-write, submit and merge handlers, as the server runs them. */
module Handlers {
  import opened Common
  import opened SymbolDiff
  import opened ClaimTracker
  import StaleOverlay
  import Protocol = WriteProtocol

  type Entry = StaleOverlay.Entry

  /** A session workspace: the tree of its base commit, its overlay, when it last read each
      path, its changeset and its agent. */
  datatype Workspace = Workspace(base: Path -> Option<Bytes>, overlay: map<Path, Entry>,
                                 lastRead: map<Path, nat>, changeset: Id, agent: string)

  datatype Event =
    | LockReleased(session: Id, agent: string, path: Path, symbols: seq<Name>)
    | FileWritten(session: Id, path: Path, operation: string)
    | Submitted(session: Id, changeset: Id)
    | Merged(session: Id, changeset: Id)

  datatype Warning = Warning(name: Name, lockedBy: Id, agent: string)

  datatype WriteReply =
    | NoWorkspace
    | Stale(competitor: StaleOverlay.Competitor)
    | SymbolsLocked(warnings: seq<Warning>)
    | WorkspaceGone
    | WriteFailed
    | Written(changes: seq<SymbolChange>)

  datatype SubmitReply = NothingToSubmit | SubmitError | Accepted(released: nat)

  datatype MergeOutcome = FastMerge | RebaseMerge | Conflicts | MergeError

  datatype MergeReply = UnknownChangeset | NotApproved | MergeFailed | Conflicting | MergedReply(released: nat)

  /** What can go wrong outside the model during a file write. */
  datatype Faults = Faults(workspaceGone: bool, writeFails: bool, storeFails: bool)

  /** The same during a submit; `headFails` is the read of the head after everything else. */
  datatype SubmitFaults = SubmitFaults(storeFailsAt: Option<nat>, reindexFails: bool, statusFails: bool, headFails: bool)

  ghost function NameKeys(repo: Id, path: Path, names: set<Name>): set<Key> {
    set n | n in names :: Key(repo, path, n)
  }

  /** The symbols a write of `content` changes against the workspace's base. */
  ghost function Changes(parser: Parser, ws: Workspace, path: Path, content: Bytes): set<Name> {
    match ws.base(path)
    case None => ChangedNames(parser, path, [], content, true)
    case Some(bytes) => ChangedNames(parser, path, bytes, content, false)
  }

  /** With the same base, a session's workspace and the protocol's world agree on what a write
      changes. */
  lemma SameBaseSameChanges(w: Protocol.World, s: Id, ws: Workspace, path: Path, content: Bytes)
    requires ws.base(path) == w.base(s, path)
    ensures Changes(w.parser, ws, path, content) == w.Changes(s, path, content)
  {
  }

  /** Over a base that parses, as the content does, with usable spans, a write changes the names
      that are new, gone, or have another text. */
  lemma ChangesOverBase(parser: Parser, ws: Workspace, path: Path, content: Bytes, base: Bytes, was: seq<Symbol>, now: seq<Symbol>)
    requires ws.base(path) == Some(base) && base != [] && parser.supports(path)
    requires parser.parse(path, base) == Some(was) && parser.parse(path, content) == Some(now)
    requires forall k: nat | k < |was| :: was[k].span.startByte <= was[k].span.endByte <= |base|
    requires forall k: nat | k < |now| :: now[k].span.startByte <= now[k].span.endByte <= |content|
    ensures forall n :: n in Changes(parser, ws, path, content) <==> NameChanges(was, base, now, content, n)
  {
    forall n ensures n in Changes(parser, ws, path, content) <==> NameChanges(was, base, now, content, n) {
      ChangedNamesAre(parser, path, base, content, false, n);
      NameChangesIff(Version(was, base), Version(now, content), n);
    }
  }

  /** Without a base, over an empty one, or over one that does not parse, every name of the
      content. */
  lemma ChangesOverNothing(parser: Parser, ws: Workspace, path: Path, content: Bytes, now: seq<Symbol>)
    requires parser.supports(path) && parser.parse(path, content) == Some(now)
    requires ws.base(path) in {None, Some([])} || parser.parse(path, ws.base(path).value).None?
    ensures forall n :: n in Changes(parser, ws, path, content) <==> exists i: nat :: i < |now| && now[i].name == n
  {
    forall n ensures n in Changes(parser, ws, path, content) <==> exists i: nat :: i < |now| && now[i].name == n {
      var base := ws.base(path);
      ChangedNamesAre(parser, path, if base.Some? then base.value else [], content, base.None?, n);
    }
  }

  /** And nothing in a file that the parser does not know, or cannot parse. */
  lemma ChangesUnparsed(parser: Parser, ws: Workspace, path: Path, content: Bytes)
    requires !parser.supports(path) || parser.parse(path, content).None?
    ensures Changes(parser, ws, path, content) == {}
  {
    forall n ensures n !in Changes(parser, ws, path, content) {
      var base := ws.base(path);
      ChangedNamesAre(parser, path, if base.Some? then base.value else [], content, base.None?, n);
    }
  }

  ghost function DetailKeys(details: seq<Detail>, repo: Id, path: Path): set<Key> {
    set d | d in details :: Key(repo, path, d.name)
  }

  ghost function AcquiredKeys(acquired: seq<Name>, repo: Id, path: Path): set<Key> {
    set n | n in acquired :: Key(repo, path, n)
  }

  function UnlockEvents(s: Id, agent: string, path: Path, names: seq<Name>): (events: seq<Event>)
    ensures |events| == |names|
    ensures forall i | 0 <= i < |names| :: events[i] == LockReleased(s, agent, path, [names[i]])
  {
    seq(|names|, i requires 0 <= i < |names| => LockReleased(s, agent, path, [names[i]]))
  }

  /** Undoing exactly the fresh claims restores the table. */
  lemma UndoRestores(locks: Holders, keys: set<Key>, s: Id)
    ensures Protocol.ClaimAll(locks, keys, s) - (keys - locks.Keys) == locks
  {
  }

  /** Claiming the names of a file: refused over another session's lock on one of them, and
      otherwise theirs and the session's own from before are what the session holds. */
  lemma ClaimingNames(locks: Holders, repo: Id, path: Path, names: set<Name>, s: Id)
    ensures var keys := NameKeys(repo, path, names);
            && (Protocol.Free(locks, keys, s) <==>
                  !exists k :: k in locks && k.repo == repo && k.path == path && k.name in names && locks[k] != s)
            && (forall k: Key | Protocol.Free(locks, keys, s) ::
                  k in Protocol.ClaimAll(locks, keys, s) && Protocol.ClaimAll(locks, keys, s)[k] == s <==>
                  (k in locks && locks[k] == s) || (k.repo == repo && k.path == path && k.name in names))
            && (forall k | k in locks :: k in Protocol.ClaimAll(locks, keys, s) && Protocol.ClaimAll(locks, keys, s)[k] == locks[k])
  {
    forall k: Key | k.repo == repo && k.path == path && k.name in names ensures k in NameKeys(repo, path, names) {
      assert k == Key(repo, path, k.name);
    }
  }

  lemma ClaimOneMore(locks: Holders, keys: set<Key>, key: Key, s: Id)
    ensures Acquired(Protocol.ClaimAll(locks, keys, s), key, s) == Protocol.ClaimAll(locks, keys + {key}, s)
    ensures Protocol.Free(locks, keys + {key}, s) <==> Protocol.Free(locks, keys, s) && (key in locks ==> locks[key] == s)
  {
  }

  lemma FreshName(acquired: seq<Name>, repo: Id, path: Path, name: Name)
    requires NoDuplicates(acquired) && Key(repo, path, name) !in AcquiredKeys(acquired, repo, path)
    ensures NoDuplicates(acquired + [name])
    ensures AcquiredKeys(acquired + [name], repo, path) == AcquiredKeys(acquired, repo, path) + {Key(repo, path, name)}
  {
    forall i | 0 <= i < |acquired| ensures acquired[i] != name {
      assert acquired[i] in acquired;
    }
  }

  lemma OneMoreDetail(details: seq<Detail>, i: nat, repo: Id, path: Path)
    requires i < |details|
    ensures DetailKeys(details[..i + 1], repo, path) == DetailKeys(details[..i], repo, path) + {Key(repo, path, details[i].name)}
  {
    assert details[..i + 1] == details[..i] + [details[i]];
  }

  /** What the acquire loop has done once it has tried `keys`: `held` became `now`, with the
      fresh claims in `acquired` and a warning for each refusal. */
  ghost predicate Tried(held: Holders, now: Holders, keys: set<Key>, s: Id, repo: Id, path: Path,
                        acquired: seq<Name>, refused: seq<Warning>)
  {
    && now == Protocol.ClaimAll(held, keys, s)
    && NoDuplicates(acquired) && AcquiredKeys(acquired, repo, path) == keys - held.Keys
    && (refused == [] <==> Protocol.Free(held, keys, s))
    && (forall r | r in refused :: Key(repo, path, r.name) in held && held[Key(repo, path, r.name)] == r.lockedBy != s)
  }

  lemma TriedFresh(held: Holders, now: Holders, keys: set<Key>, s: Id, repo: Id, path: Path,
                   acquired: seq<Name>, refused: seq<Warning>, name: Name)
    requires Tried(held, now, keys, s, repo, path, acquired, refused) && Key(repo, path, name) !in now
    ensures Tried(held, Acquired(now, Key(repo, path, name), s), keys + {Key(repo, path, name)}, s, repo, path,
                  acquired + [name], refused)
  {
    ClaimOneMore(held, keys, Key(repo, path, name), s);
    FreshName(acquired, repo, path, name);
  }

  lemma TriedHeld(held: Holders, now: Holders, keys: set<Key>, s: Id, repo: Id, path: Path,
                  acquired: seq<Name>, refused: seq<Warning>, name: Name)
    requires Tried(held, now, keys, s, repo, path, acquired, refused)
    requires Key(repo, path, name) in now && now[Key(repo, path, name)] == s
    ensures Tried(held, Acquired(now, Key(repo, path, name), s), keys + {Key(repo, path, name)}, s, repo, path,
                  acquired, refused)
  {
    ClaimOneMore(held, keys, Key(repo, path, name), s);
  }

  lemma TriedRefused(held: Holders, now: Holders, keys: set<Key>, s: Id, repo: Id, path: Path,
                     acquired: seq<Name>, refused: seq<Warning>, w: Warning)
    requires Tried(held, now, keys, s, repo, path, acquired, refused)
    requires Key(repo, path, w.name) in now && now[Key(repo, path, w.name)] == w.lockedBy != s
    ensures Tried(held, Acquired(now, Key(repo, path, w.name), s), keys + {Key(repo, path, w.name)}, s, repo, path,
                  acquired, refused + [w])
  {
    ClaimOneMore(held, keys, Key(repo, path, w.name), s);
  }

  lemma DetailKeysAreChanges(details: seq<Detail>, repo: Id, path: Path, names: set<Name>)
    requires DetailNames(details) == names
    ensures DetailKeys(details, repo, path) == NameKeys(repo, path, names)
  {
    forall d | d in details ensures Key(repo, path, d.name) in NameKeys(repo, path, names) {
      assert d.name in DetailNames(details);
    }
  }

  function EntryAt(ws: Workspace, path: Path): Option<Entry> {
    if path in ws.overlay then Some(ws.overlay[path]) else None
  }

  function EntryFor(ws: Workspace, path: Path, content: Bytes): Entry {
    if ws.base(path).None? then StaleOverlay.AddedFile(content) else StaleOverlay.ModifiedFile(content)
  }

  function OperationFor(ws: Workspace, path: Path): string {
    if ws.base(path).None? then "add" else "modify"
  }

  /** The staleness check; a failing competitor query counts as no competitors. */
  function StaleFor(ws: Workspace, s: Id, path: Path, competitors: Option<seq<StaleOverlay.Competitor>>)
    : Option<StaleOverlay.Competitor>
  {
    StaleOverlay.IsStale(s, if path in ws.lastRead then Some(ws.lastRead[path]) else None,
                         if competitors.Some? then competitors.value else [])
  }

  /** The check refuses on a submitted, verifying or approved changeset of another session that
      was updated after the session's last read of the path, or ever if there was none. */
  lemma StaleForIff(ws: Workspace, s: Id, path: Path, competitors: Option<seq<StaleOverlay.Competitor>>)
    ensures StaleFor(ws, s, path, competitors).Some? <==>
              && competitors.Some?
              && exists c | c in competitors.value ::
                   && c.session != Some(s) && c.state in {"submitted", "verifying", "approved"}
                   && (path in ws.lastRead ==> c.updatedAt > ws.lastRead[path])
  {
    if competitors.Some? {
      StaleOverlay.IsStaleIff(s, if path in ws.lastRead then Some(ws.lastRead[path]) else None, competitors.value);
    }
  }

  // ---- Announcing a release ----

  ghost function Announced(events: seq<Event>, repo: Id): set<Key> {
    set e, n | e in events && e.LockReleased? && n in e.symbols :: Key(repo, e.path, n)
  }

  /** The events announce exactly `keys`: one event per file, every lock in one event. */
  ghost predicate Partitions(events: seq<Event>, repo: Id, s: Id, keys: set<Key>) {
    && (forall e | e in events :: e.LockReleased? && e.session == s && e.symbols != [] && NoDuplicates(e.symbols))
    && (forall i, j | 0 <= i < j < |events| :: events[i].path != events[j].path)
    && Announced(events, repo) == keys
  }

  /** Every one of the locks is named in exactly one place, and nothing else is. */
  lemma EachNamedOnce(events: seq<Event>, repo: Id, s: Id, keys: set<Key>, key: Key)
    requires Partitions(events, repo, s, keys) && key.repo == repo
    ensures key in keys <==> exists i, j :: 0 <= i < |events| && Names(events[i], key.path, j, key.name)
    ensures forall i, j, i', j' | 0 <= i < |events| && 0 <= i' < |events|
              && Names(events[i], key.path, j, key.name) && Names(events[i'], key.path, j', key.name) :: i == i' && j == j'
    ensures forall e | e in events :: e.LockReleased? && e.session == s
  {
    if key in keys {
      var e, n :| e in events && e.LockReleased? && n in e.symbols && key == Key(repo, e.path, n);
      var i :| 0 <= i < |events| && events[i] == e;
      var j :| 0 <= j < |e.symbols| && e.symbols[j] == n;
      assert Names(events[i], key.path, j, key.name);
    }
    if i, j :| 0 <= i < |events| && Names(events[i], key.path, j, key.name) {
      assert events[i] in events;
      IsAnnounced(events, repo, events[i], key.name);
    }
    forall i, j, i', j' | 0 <= i < |events| && 0 <= i' < |events|
      && Names(events[i], key.path, j, key.name) && Names(events[i'], key.path, j', key.name) ensures i == i' && j == j'
    {
      assert events[i] in events;
    }
  }

  ghost predicate Names(e: Event, path: Path, j: int, name: Name) {
    e.LockReleased? && e.path == path && 0 <= j < |e.symbols| && e.symbols[j] == name
  }

  lemma IsAnnounced(events: seq<Event>, repo: Id, e: Event, n: Name)
    requires e in events && e.LockReleased? && n in e.symbols
    ensures Key(repo, e.path, n) in Announced(events, repo)
  {
  }

  type ByFile = map<Path, seq<Name>>

  ghost predicate InGroup(byFile: ByFile, p: Path, n: Name) {
    p in byFile && n in byFile[p]
  }

  ghost predicate IsReleased(released: seq<ReleasedLock>, p: Path, n: Name) {
    exists r :: r in released && r.path == p && r.name == n
  }

  ghost predicate Groups(byFile: ByFile, released: seq<ReleasedLock>) {
    && (forall p | p in byFile :: byFile[p] != [] && NoDuplicates(byFile[p]))
    && (forall p, n :: InGroup(byFile, p, n) <==> IsReleased(released, p, n))
  }

  function AddToGroup(byFile: ByFile, r: ReleasedLock): ByFile {
    byFile[r.path := (if r.path in byFile then byFile[r.path] else []) + [r.name]]
  }

  lemma GroupOne(byFile: ByFile, released: seq<ReleasedLock>, r: ReleasedLock)
    requires Groups(byFile, released) && DistinctLocks(released + [r])
    ensures Groups(AddToGroup(byFile, r), released + [r])
  {
    assert !IsReleased(released, r.path, r.name) by {
      forall q | q in released ensures (q.path, q.name) != (r.path, r.name) {
        var j :| 0 <= j < |released| && released[j] == q;
        assert (released + [r])[j] == q && (released + [r])[|released|] == r;
      }
    }
    assert !InGroup(byFile, r.path, r.name);
    var after := AddToGroup(byFile, r);
    forall p, n ensures InGroup(after, p, n) <==> IsReleased(released + [r], p, n) {
      assert InGroup(after, p, n) <==> InGroup(byFile, p, n) || (p == r.path && n == r.name);
      if IsReleased(released, p, n) {
        var q :| q in released && q.path == p && q.name == n;
        assert q in released + [r];
      }
      if p == r.path && n == r.name { assert r in released + [r]; }
    }
  }

  method GroupByFile(released: seq<ReleasedLock>) returns (byFile: ByFile)
    requires DistinctLocks(released)
    ensures Groups(byFile, released)
  {
    byFile := map[];
    for i := 0 to |released|
      invariant Groups(byFile, released[..i])
    {
      assert released[..i + 1] == released[..i] + [released[i]];
      GroupOne(byFile, released[..i], released[i]);
      byFile := AddToGroup(byFile, released[i]);
    }
    assert released[..|released|] == released;
  }

  /** The submit gets as far as its status update. */
  predicate Submits(workspaces: map<Id, Workspace>, s: Id, faults: SubmitFaults) {
    && s in workspaces && workspaces[s].overlay != map[]
    && (faults.storeFailsAt.None? || |workspaces[s].overlay| <= faults.storeFailsAt.value)
    && !faults.reindexFails && !faults.statusFails
  }

  predicate Approved(states: map<Id, string>, changeset: Id) {
    changeset in states && states[changeset] == "approved"
  }

  /** From `before` to `after` came the submit, then one event per file that together name each
      of `keys` exactly once, then the merge, and nothing else. */
  ghost predicate Announces(before: seq<Event>, after: seq<Event>, repo: Id, s: Id, changeset: Id, keys: set<Key>) {
    && |after| >= |before| + 2 && before + [Submitted(s, changeset)] <= after
    && after[|after| - 1] == Merged(s, changeset)
    && Partitions(after[|before| + 1..|after| - 1], repo, s, keys)
  }

  lemma NothingAnnounced(events: seq<Event>, repo: Id, s: Id)
    requires Partitions(events, repo, s, {})
    ensures events == []
  {
    if events != [] { IsAnnounced(events, repo, events[0], events[0].symbols[0]); }
  }

  lemma AnnouncedOnce(before: seq<Event>, submitted: seq<Event>, after: seq<Event>, repo: Id, s: Id, changeset: Id, keys: set<Key>)
    requires |submitted| > |before| && before + [Submitted(s, changeset)] <= submitted
    requires Partitions(submitted[|before| + 1..], repo, s, keys)
    requires submitted <= after && |after| > |submitted| && after[|after| - 1] == Merged(s, changeset)
    requires Partitions(after[|submitted|..|after| - 1], repo, s, {})
    ensures Announces(before, after, repo, s, changeset, keys)
  {
    NothingAnnounced(after[|submitted|..|after| - 1], repo, s);
    assert |after| == |submitted| + 1;
    assert after[|before| + 1..|after| - 1] == submitted[|before| + 1..];
  }

  lemma NothingLeft(locks: Holders, repo: Id, s: Id)
    ensures HeldBy(AllReleased(locks, repo, s), repo, s) == {}
    ensures AllReleased(AllReleased(locks, repo, s), repo, s) == AllReleased(locks, repo, s)
  {
  }

  type Files = map<(Id, Path), Entry>

  ghost predicate AllStored(files: Files, changeset: Id, overlay: map<Path, Entry>) {
    forall p | p in overlay :: (changeset, p) in files && files[(changeset, p)] == overlay[p]
  }

  /** Only files of the changeset at these paths differ. */
  ghost predicate OnlyStores(before: Files, after: Files, changeset: Id, paths: set<Path>) {
    && (forall f | f in after :: f in before || (f.0 == changeset && f.1 in paths))
    && (forall f | f in before && !(f.0 == changeset && f.1 in paths) :: f in after && after[f] == before[f])
  }

  class Server {
    const tracker: LocalClaimTracker
    var workspaces: map<Id, Workspace>
    var states: map<Id, string>
    var files: Files
    var events: seq<Event>

    constructor ()
      ensures fresh(tracker) && tracker.Valid() && tracker.locks == map[]
    {
      tracker := new LocalClaimTracker();
      workspaces, states, files, events := map[], map[], map[], [];
    }

    /** Releases every lock of the session and publishes one event per file. */
    method ReleaseLocksAndEmit(repo: Id, s: Id) returns (count: nat)
      requires tracker.Valid()
      modifies tracker, this`events
      ensures tracker.Valid()
      ensures tracker.locks == AllReleased(old(tracker.locks), repo, s)
      ensures count == |HeldBy(old(tracker.locks), repo, s)|
      ensures old(events) <= events
      ensures Partitions(events[|old(events)|..], repo, s, HeldBy(old(tracker.locks), repo, s))
    {
      var released := tracker.ReleaseLocks(repo, s);
      ReleasedCount(released, repo);
      if released == [] {
        assert events[|old(events)|..] == [];
        assert Announced([], repo) == {};
        return 0;
      }
      count := |released|;
      var agent := released[0].agent;
      var byFile := GroupByFile(released);
      PublishGroups(byFile, s, agent);
      PublishedPartitions(events[|old(events)|..], repo, s, byFile, released);
    }

    /** The overlay decides, also when it says deleted; else the base. The read is recorded iff
        the file is found. */
    method HandleFileRead(s: Id, path: Path, now: nat) returns (content: Option<Bytes>)
      modifies this`workspaces
      ensures s !in old(workspaces) ==> content.None? && workspaces == old(workspaces)
      ensures s in old(workspaces) ==>
                var ws := old(workspaces)[s];
                && content == StaleOverlay.ReadThrough(EntryAt(ws, path), ws.base(path))
                && (path !in ws.overlay ==> content == ws.base(path))
                && (path in ws.overlay ==> content == if ws.overlay[path].DeletedFile? then None else Some(ws.overlay[path].content))
                && workspaces == old(workspaces)[s := ws.(lastRead := if content.Some? then ws.lastRead[path := now] else ws.lastRead)]
    {
      if s !in workspaces { return None; }
      var ws := workspaces[s];
      if path in ws.overlay {
        content := match ws.overlay[path]
          case AddedFile(c) => Some(c)
          case ModifiedFile(c) => Some(c)
          case DeletedFile => None;
      } else {
        content := ws.base(path);
      }
      if content.Some? {
        workspaces := workspaces[s := ws.(lastRead := ws.lastRead[path := now])];
      }
    }

    /** Claims the reported symbols one by one, going on after a refusal, and says which
        claims were fresh and which were refused. */
    method AcquireAll(repo: Id, path: Path, s: Id, agent: string, details: seq<Detail>)
      returns (acquired: seq<Name>, refused: seq<Warning>)
      requires tracker.Valid()
      modifies tracker
      ensures tracker.Valid()
      ensures tracker.locks == Protocol.ClaimAll(old(tracker.locks), DetailKeys(details, repo, path), s)
      ensures NoDuplicates(acquired)
      ensures AcquiredKeys(acquired, repo, path) == DetailKeys(details, repo, path) - old(tracker.locks).Keys
      ensures refused == [] <==> Protocol.Free(old(tracker.locks), DetailKeys(details, repo, path), s)
      ensures forall r | r in refused :: Key(repo, path, r.name) in old(tracker.locks) &&
                                         old(tracker.locks)[Key(repo, path, r.name)] == r.lockedBy != s
    {
      acquired, refused := [], [];
      ghost var keys: set<Key> := {};
      for i := 0 to |details|
        invariant tracker.Valid() && keys == DetailKeys(details[..i], repo, path)
        invariant Tried(old(tracker.locks), tracker.locks, keys, s, repo, path, acquired, refused)
      {
        var d := details[i];
        ghost var now := tracker.locks;
        var r := tracker.AcquireLock(repo, path, Claim(s, agent, d.name, d.kind));
        match r {
          case Fresh =>
            TriedFresh(old(tracker.locks), now, keys, s, repo, path, acquired, refused, d.name);
            acquired := acquired + [d.name];
          case ReAcquired =>
            TriedHeld(old(tracker.locks), now, keys, s, repo, path, acquired, refused, d.name);
          case Locked(other, holder) =>
            var w := Warning(d.name, other, holder);
            TriedRefused(old(tracker.locks), now, keys, s, repo, path, acquired, refused, w);
            refused := refused + [w];
        }
        OneMoreDetail(details, i, repo, path);
        keys := keys + {Key(repo, path, d.name)};
      }
      assert details[..|details|] == details;
    }

    /** Gives back every freshly claimed lock and announces each one. */
    method RollBack(repo: Id, path: Path, s: Id, agent: string, acquired: seq<Name>)
      requires tracker.Valid()
      requires forall k | k in AcquiredKeys(acquired, repo, path) :: k in tracker.locks && tracker.locks[k] == s
      modifies tracker, this`events
      ensures tracker.Valid()
      ensures tracker.locks == old(tracker.locks) - AcquiredKeys(acquired, repo, path)
      ensures events == old(events) + UnlockEvents(s, agent, path, acquired)
    {
      assert UnlockEvents(s, agent, path, []) == [];
      for i := 0 to |acquired|
        invariant tracker.Valid()
        invariant tracker.locks == old(tracker.locks) - AcquiredKeys(acquired[..i], repo, path)
        invariant events == old(events) + UnlockEvents(s, agent, path, acquired[..i])
      {
        assert acquired[..i + 1] == acquired[..i] + [acquired[i]];
        assert AcquiredKeys(acquired[..i + 1], repo, path) == AcquiredKeys(acquired[..i], repo, path) + {Key(repo, path, acquired[i])};
        assert Key(repo, path, acquired[i]) in AcquiredKeys(acquired, repo, path);
        tracker.ReleaseLock(repo, path, s, acquired[i]);
        events := events + [LockReleased(s, agent, path, [acquired[i]])];
        assert UnlockEvents(s, agent, path, acquired[..i + 1]) == UnlockEvents(s, agent, path, acquired[..i]) + [events[|events| - 1]];
      }
      assert acquired[..|acquired|] == acquired;
    }

    /** The part of a file write behind the staleness check: claim every changed symbol,
        then store the content, or give back exactly the fresh claims. */
    method ClaimAndStore(parser: Parser, s: Id, repo: Id, path: Path, content: Bytes, faults: Faults)
      returns (reply: WriteReply, ghost claimed: seq<Name>)
      requires tracker.Valid() && s in workspaces
      modifies this`workspaces, this`files, this`events, tracker
      ensures tracker.Valid()
      ensures var ws := old(workspaces)[s];
              var keys := NameKeys(repo, path, Changes(parser, ws, path, content));
              && (reply.SymbolsLocked? <==> !Protocol.Free(old(tracker.locks), keys, s))
              && (reply.WorkspaceGone? <==> !reply.SymbolsLocked? && faults.workspaceGone)
              && (reply.WriteFailed? <==> !reply.SymbolsLocked? && !faults.workspaceGone && faults.writeFails)
              && (reply.Written? <==> !reply.SymbolsLocked? && !faults.workspaceGone && !faults.writeFails)
              && AcquiredKeys(claimed, repo, path) == keys - old(tracker.locks).Keys
              && (reply.Written? ==>
                    && tracker.locks == Protocol.ClaimAll(old(tracker.locks), keys, s)
                    && workspaces == old(workspaces)[s := ws.(overlay := ws.overlay[path := EntryFor(ws, path, content)])]
                    && files == (if faults.storeFails then old(files) else old(files)[(ws.changeset, path) := EntryFor(ws, path, content)])
                    && events == old(events) + [FileWritten(s, path, OperationFor(ws, path))])
              && (!reply.Written? ==> events == old(events) + UnlockEvents(s, ws.agent, path, claimed))
      ensures NoDuplicates(claimed)
      ensures !reply.Written? ==> tracker.locks == old(tracker.locks) && workspaces == old(workspaces) && files == old(files)
      ensures reply.SymbolsLocked? ==> reply.warnings != [] && forall r | r in reply.warnings ::
                Key(repo, path, r.name) in tracker.locks && tracker.locks[Key(repo, path, r.name)] == r.lockedBy != s
    {
      var ws := workspaces[s];
      var base := ws.base(path);
      var changes, details := DetectSymbolChanges(parser, path, if base.Some? then base.value else [], content, base.None?);
      DetailKeysAreChanges(details, repo, path, Changes(parser, ws, path, content));
      var acquired, refused := AcquireAll(repo, path, s, ws.agent, details);
      claimed := acquired;
      if refused != [] || faults.workspaceGone || faults.writeFails {
        RollBack(repo, path, s, ws.agent, acquired);
        UndoRestores(old(tracker.locks), DetailKeys(details, repo, path), s);
        reply := if refused != [] then SymbolsLocked(refused)
                 else if faults.workspaceGone then WorkspaceGone else WriteFailed;
        return;
      }
      var entry := EntryFor(ws, path, content);
      workspaces := workspaces[s := ws.(overlay := ws.overlay[path := entry])];
      if !faults.storeFails {
        files := files[(ws.changeset, path) := entry];
      }
      events := events + [FileWritten(s, path, OperationFor(ws, path))];
      reply := Written(changes);
    }

    /** A write is accepted exactly when it is not stale, nothing else fails and no symbol
        it changes is held by another session; any other reply leaves locks, overlays and
        changeset files as they were, having announced each transient lock once. */
    method HandleFileWrite(parser: Parser, s: Id, repo: Id, path: Path, content: Bytes,
                           competitors: Option<seq<StaleOverlay.Competitor>>, releaseOnSubmit: bool, faults: Faults)
      returns (reply: WriteReply, ghost claimed: seq<Name>)
      requires tracker.Valid()
      modifies this`workspaces, this`files, this`events, tracker
      ensures tracker.Valid()
      ensures reply.NoWorkspace? <==> s !in old(workspaces)
      ensures reply.Stale? <==> s in old(workspaces) && releaseOnSubmit && StaleFor(old(workspaces)[s], s, path, competitors).Some?
      ensures reply.Stale? ==> StaleFor(old(workspaces)[s], s, path, competitors) == Some(reply.competitor)
      ensures reply.NoWorkspace? || reply.Stale? ==> claimed == []
      ensures !reply.Written? ==> tracker.locks == old(tracker.locks) && workspaces == old(workspaces) && files == old(files)
      ensures !reply.Written? && s in old(workspaces) ==>
                events == old(events) + UnlockEvents(s, old(workspaces)[s].agent, path, claimed)
      ensures !reply.NoWorkspace? && !reply.Stale? ==>
                var ws := old(workspaces)[s];
                var keys := NameKeys(repo, path, Changes(parser, ws, path, content));
                && (reply.SymbolsLocked? <==> !Protocol.Free(old(tracker.locks), keys, s))
                && (reply.Written? <==> !reply.SymbolsLocked? && !faults.workspaceGone && !faults.writeFails)
                && NoDuplicates(claimed) && AcquiredKeys(claimed, repo, path) == keys - old(tracker.locks).Keys
                && (reply.Written? ==>
                      && tracker.locks == Protocol.ClaimAll(old(tracker.locks), keys, s)
                      && workspaces == old(workspaces)[s := ws.(overlay := ws.overlay[path := EntryFor(ws, path, content)])]
                      && files == (if faults.storeFails then old(files)
                                   else old(files)[(ws.changeset, path) := EntryFor(ws, path, content)])
                      && events == old(events) + [FileWritten(s, path, OperationFor(ws, path))])
    {
      claimed := [];
      if s !in workspaces { return NoWorkspace, claimed; }
      if releaseOnSubmit {
        var stale := StaleFor(workspaces[s], s, path, competitors);
        if stale.Some? {
          assert UnlockEvents(s, workspaces[s].agent, path, []) == [];
          return Stale(stale.value), claimed;
        }
      }
      reply, claimed := ClaimAndStore(parser, s, repo, path, content, faults);
    }

    /** A write over a base that parses with usable spans, as the content does: refused, with
        nothing changed, exactly when another session holds a symbol that is new, gone or has
        another text; and when it is accepted, its session holds what it held and those. */
    method WriteOverBase(parser: Parser, s: Id, repo: Id, path: Path, content: Bytes,
                         competitors: Option<seq<StaleOverlay.Competitor>>, releaseOnSubmit: bool, faults: Faults,
                         ghost base: Bytes, ghost was: seq<Symbol>, ghost now: seq<Symbol>) returns (reply: WriteReply)
      requires tracker.Valid() && s in workspaces && workspaces[s].base(path) == Some(base) && base != []
      requires parser.supports(path) && parser.parse(path, base) == Some(was) && parser.parse(path, content) == Some(now)
      requires forall k: nat | k < |was| :: was[k].span.startByte <= was[k].span.endByte <= |base|
      requires forall k: nat | k < |now| :: now[k].span.startByte <= now[k].span.endByte <= |content|
      modifies this`workspaces, this`files, this`events, tracker
      ensures tracker.Valid() && !reply.NoWorkspace?
      ensures reply.SymbolsLocked? <==>
                && !reply.Stale?
                && exists k | k in old(tracker.locks) ::
                     && k.repo == repo && k.path == path && old(tracker.locks)[k] != s
                     && NameChanges(was, base, now, content, k.name)
      ensures reply.Written? ==> forall k: Key :: k in tracker.locks && tracker.locks[k] == s <==>
                (k in old(tracker.locks) && old(tracker.locks)[k] == s)
                || (k.repo == repo && k.path == path && NameChanges(was, base, now, content, k.name))
      ensures forall k | k in old(tracker.locks) :: k in tracker.locks && tracker.locks[k] == old(tracker.locks)[k]
      ensures reply.Written? ==>
                && s in workspaces && workspaces[s].overlay == old(workspaces)[s].overlay[path := StaleOverlay.ModifiedFile(content)]
                && events == old(events) + [FileWritten(s, path, "modify")]
      ensures !reply.Written? ==> tracker.locks == old(tracker.locks) && workspaces == old(workspaces) && files == old(files)
    {
      ghost var ws, locks := workspaces[s], tracker.locks;
      ChangesOverBase(parser, ws, path, content, base, was, now);
      ClaimingNames(locks, repo, path, Changes(parser, ws, path, content), s);
      ghost var claimed;
      reply, claimed := HandleFileWrite(parser, s, repo, path, content, competitors, releaseOnSubmit, faults);
    }

    /** The same where there is no base, an empty one, or one that does not parse: then it is
        every symbol of the content. */
    method WriteOverNothing(parser: Parser, s: Id, repo: Id, path: Path, content: Bytes,
                            competitors: Option<seq<StaleOverlay.Competitor>>, releaseOnSubmit: bool, faults: Faults,
                            ghost now: seq<Symbol>) returns (reply: WriteReply)
      requires tracker.Valid() && s in workspaces && parser.supports(path) && parser.parse(path, content) == Some(now)
      requires workspaces[s].base(path) in {None, Some([])} || parser.parse(path, workspaces[s].base(path).value).None?
      modifies this`workspaces, this`files, this`events, tracker
      ensures tracker.Valid() && !reply.NoWorkspace?
      ensures reply.SymbolsLocked? <==>
                && !reply.Stale?
                && exists k | k in old(tracker.locks) ::
                     && k.repo == repo && k.path == path && old(tracker.locks)[k] != s
                     && exists i: nat :: i < |now| && now[i].name == k.name
      ensures reply.Written? ==> forall k: Key :: k in tracker.locks && tracker.locks[k] == s <==>
                (k in old(tracker.locks) && old(tracker.locks)[k] == s)
                || (k.repo == repo && k.path == path && exists i: nat :: i < |now| && now[i].name == k.name)
      ensures forall k | k in old(tracker.locks) :: k in tracker.locks && tracker.locks[k] == old(tracker.locks)[k]
      ensures reply.Written? && old(workspaces)[s].base(path).None? ==>
                && s in workspaces && workspaces[s].overlay == old(workspaces)[s].overlay[path := StaleOverlay.AddedFile(content)]
                && events == old(events) + [FileWritten(s, path, "add")]
      ensures !reply.Written? ==> tracker.locks == old(tracker.locks) && workspaces == old(workspaces) && files == old(files)
    {
      ghost var ws, locks := workspaces[s], tracker.locks;
      ChangesOverNothing(parser, ws, path, content, now);
      ClaimingNames(locks, repo, path, Changes(parser, ws, path, content), s);
      ghost var claimed;
      reply, claimed := HandleFileWrite(parser, s, repo, path, content, competitors, releaseOnSubmit, faults);
    }

    /** Submits what the overlay holds. An error up to the status update changes nothing but
        the stored files of the changeset. From then on the status has changed, the submit is
        announced and, while release-on-submit is enabled, every lock of the session is
        released, even if reading the head then fails and the reply is an error. */
    method HandleSubmit(s: Id, repo: Id, changeset: Id, releaseOnSubmit: bool, faults: SubmitFaults) returns (reply: SubmitReply)
      requires tracker.Valid()
      modifies this`files, this`states, this`events, tracker
      ensures tracker.Valid()
      ensures reply.NothingToSubmit? <==> s in workspaces && workspaces[s].overlay == map[]
      ensures reply.Accepted? <==>
                && s in workspaces && workspaces[s].overlay != map[]
                && (faults.storeFailsAt.None? || |workspaces[s].overlay| <= faults.storeFailsAt.value)
                && !faults.reindexFails && !faults.statusFails && !faults.headFails
      ensures reply.Accepted? ==>
                forall p | p in workspaces[s].overlay :: (changeset, p) in files && files[(changeset, p)] == workspaces[s].overlay[p]
      ensures forall f | f in old(files) && f.0 != changeset :: f in files && files[f] == old(files)[f]
      ensures OnlyStores(old(files), files, changeset, if s in workspaces then workspaces[s].overlay.Keys else {})
      ensures !Submits(workspaces, s, faults) ==>
                tracker.locks == old(tracker.locks) && states == old(states) && events == old(events)
      ensures Submits(workspaces, s, faults) ==>
                && AllStored(files, changeset, workspaces[s].overlay)
                && states == old(states)[changeset := "submitted"]
                && |events| > |old(events)| && old(events) + [Submitted(s, changeset)] <= events
      ensures Submits(workspaces, s, faults) && releaseOnSubmit ==>
                && tracker.locks == AllReleased(old(tracker.locks), repo, s)
                && (reply.Accepted? ==> reply.released == |HeldBy(old(tracker.locks), repo, s)|)
                && Partitions(events[|old(events)| + 1..], repo, s, HeldBy(old(tracker.locks), repo, s))
      ensures Submits(workspaces, s, faults) && !releaseOnSubmit ==>
                tracker.locks == old(tracker.locks) && |events| == |old(events)| + 1
    {
      if s !in workspaces { return SubmitError; }
      var overlay := workspaces[s].overlay;
      if overlay == map[] { return NothingToSubmit; }
      var stored := RecordFiles(changeset, overlay, faults.storeFailsAt);
      if !stored || faults.reindexFails || faults.statusFails { return SubmitError; }
      var n := AnnounceSubmit(s, repo, changeset, releaseOnSubmit);
      reply := if faults.headFails then SubmitError else Accepted(n);
    }

    /** The status update and everything after it but the answer. */
    method AnnounceSubmit(s: Id, repo: Id, changeset: Id, releaseOnSubmit: bool) returns (n: nat)
      requires tracker.Valid()
      modifies this`states, this`events, tracker
      ensures tracker.Valid()
      ensures states == old(states)[changeset := "submitted"]
      ensures |events| > |old(events)| && old(events) + [Submitted(s, changeset)] <= events
      ensures releaseOnSubmit ==>
                && tracker.locks == AllReleased(old(tracker.locks), repo, s)
                && n == |HeldBy(old(tracker.locks), repo, s)|
                && Partitions(events[|old(events)| + 1..], repo, s, HeldBy(old(tracker.locks), repo, s))
      ensures !releaseOnSubmit ==> n == 0 && tracker.locks == old(tracker.locks) && |events| == |old(events)| + 1
    {
      states := states[changeset := "submitted"];
      events := events + [Submitted(s, changeset)];
      n := 0;
      if releaseOnSubmit {
        n := ReleaseLocksAndEmit(repo, s);
      }
    }

    /** Stores the overlay's entries one by one, in some order; the entry number `failsAt`
        cannot be stored, and those before it stay. */
    method RecordFiles(changeset: Id, overlay: map<Path, Entry>, failsAt: Option<nat>) returns (ok: bool)
      modifies this`files
      ensures ok <==> failsAt.None? || |overlay| <= failsAt.value
      ensures ok ==> AllStored(files, changeset, overlay)
      ensures OnlyStores(old(files), files, changeset, overlay.Keys)
    {
      var left := overlay.Keys;
      var count := 0;
      while left != {}
        invariant left <= overlay.Keys && count + |left| == |overlay|
        invariant failsAt.Some? ==> count <= failsAt.value
        invariant forall p | p in overlay && p !in left :: (changeset, p) in files && files[(changeset, p)] == overlay[p]
        invariant OnlyStores(old(files), files, changeset, overlay.Keys)
        decreases |left|
      {
        var p :| p in left;
        if failsAt == Some(count) { return false; }
        left, count := left - {p}, count + 1;
        files := files[(changeset, p) := overlay[p]];
      }
      return true;
    }

    /** Merges an approved changeset. A conflicting or failed merge releases nothing; a
        successful one releases everything before its status update, so also when that
        update then fails. */
    method HandleMerge(s: Id, repo: Id, changeset: Id, outcome: MergeOutcome, statusFails: bool) returns (reply: MergeReply)
      requires tracker.Valid()
      modifies this`states, this`events, tracker
      ensures tracker.Valid()
      ensures reply.UnknownChangeset? <==> changeset !in old(states)
      ensures reply.NotApproved? <==> changeset in old(states) && old(states)[changeset] != "approved"
      ensures reply.Conflicting? <==> Approved(old(states), changeset) && s in workspaces && outcome.Conflicts?
      ensures reply.MergedReply? <==> Approved(old(states), changeset) && s in workspaces && (outcome.FastMerge? || outcome.RebaseMerge?) && !statusFails
      ensures !(Approved(old(states), changeset) && s in workspaces && (outcome.FastMerge? || outcome.RebaseMerge?)) ==>
                tracker.locks == old(tracker.locks) && events == old(events) && states == old(states)
      ensures Approved(old(states), changeset) && s in workspaces && (outcome.FastMerge? || outcome.RebaseMerge?) ==>
                && tracker.locks == AllReleased(old(tracker.locks), repo, s)
                && states == (if statusFails then old(states) else old(states)[changeset := "merged"])
                && old(events) <= events
                && (statusFails ==> Partitions(events[|old(events)|..], repo, s, HeldBy(old(tracker.locks), repo, s)))
      ensures reply.MergedReply? ==>
                && reply.released == |HeldBy(old(tracker.locks), repo, s)|
                && |events| > |old(events)| && events[|events| - 1] == Merged(s, changeset)
                && Partitions(events[|old(events)|..|events| - 1], repo, s, HeldBy(old(tracker.locks), repo, s))
    {
      if changeset !in states { return UnknownChangeset; }
      if states[changeset] != "approved" { return NotApproved; }
      if s !in workspaces { return MergeFailed; }
      match outcome {
        case MergeError => return MergeFailed;
        case Conflicts => return Conflicting;
        case _ =>
      }
      var n := ReleaseLocksAndEmit(repo, s);
      if statusFails { return MergeFailed; }
      states := states[changeset := "merged"];
      ghost var announced := events;
      events := events + [Merged(s, changeset)];
      assert events[|old(events)|..|events| - 1] == announced[|old(events)|..];
      reply := MergedReply(n);
    }

    /** A submit followed by a successful merge with no write in between: the merge finds no
        lock left and announces nothing more. */
    method SubmitThenMerge(s: Id, repo: Id, changeset: Id, outcome: MergeOutcome)
      returns (first: SubmitReply, second: MergeReply)
      requires tracker.Valid()
      requires s in workspaces && workspaces[s].overlay != map[]
      requires outcome.FastMerge? || outcome.RebaseMerge?
      modifies this`files, this`states, this`events, tracker
      ensures first.Accepted? && second.MergedReply?
      ensures first.released == |HeldBy(old(tracker.locks), repo, s)| && second.released == 0
      ensures tracker.locks == AllReleased(old(tracker.locks), repo, s)
      ensures Announces(old(events), events, repo, s, changeset, HeldBy(old(tracker.locks), repo, s))
    {
      first := HandleSubmit(s, repo, changeset, true, SubmitFaults(None, false, false, false));
      ghost var submitted := events;
      ghost var locks := tracker.locks;
      states := states[changeset := "approved"];
      NothingLeft(old(tracker.locks), repo, s);
      second := HandleMerge(s, repo, changeset, outcome, false);
      AnnouncedOnce(old(events), submitted, events, repo, s, changeset, HeldBy(old(tracker.locks), repo, s));
    }

    method PublishGroups(byFile: ByFile, s: Id, agent: string)
      modifies this`events
      ensures old(events) <= events
      ensures FilesPublished(events[|old(events)|..], s, byFile, byFile.Keys)
    {
      ghost var published := PublishFiles(byFile, s, agent, events);
      assert events[|old(events)|..] == published;
    }

    /** The loop over the groups. */
    method PublishFiles(byFile: ByFile, s: Id, agent: string, ghost before: seq<Event>) returns (ghost published: seq<Event>)
      requires events == before
      modifies this`events
      ensures events == before + published && FilesPublished(published, s, byFile, byFile.Keys)
    {
      var left := byFile.Keys;
      ghost var done: set<Path> := {};
      published := [];
      while left != {}
        invariant left <= byFile.Keys && done <= byFile.Keys && (forall p | p in byFile :: p in left <==> p !in done)
        invariant events == before + published && FilesPublished(published, s, byFile, done)
        decreases |left|
      {
        var path :| path in left;
        published := PublishGroup(s, agent, byFile, path, before, published, done);
        left, done := left - {path}, done + {path};
      }
      assert done == byFile.Keys;
    }

    /** One file's event. */
    method PublishGroup(s: Id, agent: string, byFile: ByFile, path: Path,
                        ghost before: seq<Event>, ghost published: seq<Event>, ghost done: set<Path>)
      returns (ghost more: seq<Event>)
      requires path in byFile && path !in done
      requires events == before + published && FilesPublished(published, s, byFile, done)
      modifies this`events
      ensures events == before + more && FilesPublished(more, s, byFile, done + {path})
    {
      var e := LockReleased(s, agent, path, byFile[path]);
      PublishOne(published, s, byFile, done, e);
      more := published + [e];
      assert (before + published) + [e] == before + more;
      events := events + [e];
    }
  }

  lemma ReleasedCount(released: seq<ReleasedLock>, repo: Id)
    requires DistinctLocks(released)
    ensures |released| == |KeysOf(released, repo)|
  {
    var keys := seq(|released|, i requires 0 <= i < |released| => Key(repo, released[i].path, released[i].name));
    NoDuplicatesSize(keys);
    assert Elements(keys) == KeysOf(released, repo) by {
      forall i | 0 <= i < |released| ensures keys[i] in KeysOf(released, repo) {
        assert released[i] in released;
      }
      forall k | k in KeysOf(released, repo) ensures k in keys {
        var r :| r in released && k == Key(repo, r.path, r.name);
        var i :| 0 <= i < |released| && released[i] == r;
        assert keys[i] == k;
      }
    }
  }

  ghost predicate FilesPublished(published: seq<Event>, s: Id, byFile: ByFile, done: set<Path>) {
    && done <= byFile.Keys
    && (forall e | e in published :: e.LockReleased? && e.session == s && e.path in done && e.symbols == byFile[e.path])
    && (forall p | p in done :: exists e :: e in published && e.LockReleased? && e.path == p)
    && (forall i, j | 0 <= i < j < |published| :: published[i].path != published[j].path)
  }

  lemma PublishOne(published: seq<Event>, s: Id, byFile: ByFile, done: set<Path>, e: Event)
    requires FilesPublished(published, s, byFile, done)
    requires e.LockReleased? && e.session == s && e.path in byFile && e.path !in done && e.symbols == byFile[e.path]
    ensures FilesPublished(published + [e], s, byFile, done + {e.path})
  {
    var all := published + [e];
    forall p | p in done + {e.path} ensures exists f :: f in all && f.LockReleased? && f.path == p {
      if p == e.path {
        assert e in all;
      } else {
        var f :| f in published && f.LockReleased? && f.path == p;
        assert f in all;
      }
    }
    forall i, j | 0 <= i < j < |all| ensures all[i].path != all[j].path {
      assert all[i] in published;
    }
  }

  lemma PublishedPartitions(published: seq<Event>, repo: Id, s: Id, byFile: ByFile, released: seq<ReleasedLock>)
    requires Groups(byFile, released)
    requires FilesPublished(published, s, byFile, byFile.Keys)
    ensures Partitions(published, repo, s, KeysOf(released, repo))
  {
    forall k | k in KeysOf(released, repo) ensures k in Announced(published, repo) {
      var r :| r in released && k == Key(repo, r.path, r.name);
      assert IsReleased(released, r.path, r.name);
      assert InGroup(byFile, r.path, r.name);
      var e :| e in published && e.LockReleased? && e.path == r.path;
    }
    forall k | k in Announced(published, repo) ensures k in KeysOf(released, repo) {
      var e, n :| e in published && e.LockReleased? && n in e.symbols && k == Key(repo, e.path, n);
      assert InGroup(byFile, e.path, n);
      assert IsReleased(released, e.path, n);
      var r :| r in released && r.path == e.path && r.name == n;
    }
  }
}
