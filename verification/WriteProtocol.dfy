/** The symbol-lock protocol as a state machine: any number of sessions, each with at most
    one RPC in flight, whose file writes, submits and merges interleave between every two
    atomic actions. A run is any sequence of actions; an action that is not possible in a
    state leaves it unchanged. */
module WriteProtocol {
  import opened Common
  import opened SymbolDiff
  import opened ClaimTracker

  /** What does not change during a run: the parser, the repository each session works on,
      and the base tree each session started from. */
  datatype World = World(parser: Parser, repoOf: Id -> Id, base: (Id, Path) -> Option<Bytes>) {

    /** The symbols reported between the base and `content`. */
    ghost function Changes(s: Id, path: Path, content: Bytes): set<Name> {
      match base(s, path)
      case None => ChangedNames(parser, path, [], content, true)
      case Some(bytes) => ChangedNames(parser, path, bytes, content, false)
    }

    function KeyOf(s: Id, path: Path, name: Name): Key {
      Key(repoOf(s), path, name)
    }

    ghost function KeysOf(s: Id, path: Path, names: seq<Name>): set<Key> {
      set n | n in names :: KeyOf(s, path, n)
    }
  }

  /** What a session had when its write began. */
  datatype Before = Before(held: set<Key>, overlay: map<Path, Bytes>, files: map<Path, Bytes>,
                           open: set<Path>, announced: multiset<Key>)

  /** Where the session's RPC is between two atomic actions. */
  datatype Rpc =
    | Idle
      // file write: claiming the changed symbols one by one
    | Acquiring(path: Path, content: Bytes, todo: seq<Name>, acquired: seq<Name>, blocked: bool, before: Before)
      // file write: all claimed, overlay not yet written
    | Writing(path: Path, content: Bytes, acquired: seq<Name>, before: Before)
      // file write: giving back `acquired`; the first `undone` are released and announced,
      // and with `dropped` the next one is released but not announced yet
    | RollingBack(path: Path, acquired: seq<Name>, undone: nat, dropped: bool, before: Before)
      // file write: overlay written, changeset store entry not yet
    | Recording(path: Path, content: Bytes)
      // submit or merge: releasing the session's locks file by file
    | Releasing(left: set<Path>, released: set<Key>)

  /** One session's own data. `open` is the set of paths it has had accepted since it last
      released its locks; `granted` and `announced` count every lock it was freshly given
      and every lock it published as released. */
  datatype Own = Own(overlay: map<Path, Bytes>, files: map<Path, Bytes>, open: set<Path>,
                     granted: multiset<Key>, announced: multiset<Key>, rpc: Rpc)

  datatype State = State(locks: Holders, own: map<Id, Own>)

  datatype Action =
    | BeginWrite(s: Id, path: Path, content: Bytes, names: seq<Name>)
    | Acquire(s: Id)
    | FinishAcquire(s: Id)
    | FailWrite(s: Id)
    | CommitOverlay(s: Id)
    | Record(s: Id, stored: bool)
    | UndoLock(s: Id)
    | AnnounceUndo(s: Id)
    | EndReject(s: Id)
    | BeginRelease(s: Id)
    | ReleaseFile(s: Id, path: Path)
    | AnnounceRelease(s: Id)

  ghost function Held(locks: Holders, s: Id): set<Key> {
    set k | k in locks && locks[k] == s
  }

  ghost function Snapshot(st: State, s: Id): Before
    requires s in st.own
  {
    var o := st.own[s];
    Before(Held(st.locks, s), o.overlay, o.files, o.open, o.announced)
  }

  ghost function SetOwn(st: State, s: Id, o: Own): State {
    st.(own := st.own[s := o])
  }

  ghost function Step(w: World, st: State, a: Action): State {
    var s := a.s;
    if s !in st.own then st
    else
      var o := st.own[s];
      match (a, o.rpc)
      case (BeginWrite(_, path, content, names), Idle) =>
        if Elements(names) == w.Changes(s, path, content) then
          SetOwn(st, s, o.(rpc := Acquiring(path, content, names, [], false, Snapshot(st, s))))
        else st
      case (Acquire(_), Acquiring(path, content, todo, acquired, blocked, before)) =>
        if todo == [] then st
        else
          var key := w.KeyOf(s, path, todo[0]);
          if key !in st.locks then
            State(st.locks[key := s],
                  st.own[s := o.(granted := o.granted + multiset{key},
                                 rpc := o.rpc.(todo := todo[1..], acquired := acquired + [todo[0]]))])
          else
            SetOwn(st, s, o.(rpc := o.rpc.(todo := todo[1..], blocked := blocked || st.locks[key] != s)))
      case (FinishAcquire(_), Acquiring(path, content, todo, acquired, blocked, before)) =>
        if todo != [] then st
        else if blocked then SetOwn(st, s, o.(rpc := RollingBack(path, acquired, 0, false, before)))
        else SetOwn(st, s, o.(rpc := Writing(path, content, acquired, before)))
      case (FailWrite(_), Writing(path, content, acquired, before)) =>
        SetOwn(st, s, o.(rpc := RollingBack(path, acquired, 0, false, before)))
      case (CommitOverlay(_), Writing(path, content, acquired, before)) =>
        SetOwn(st, s, o.(overlay := o.overlay[path := content], open := o.open + {path}, rpc := Recording(path, content)))
      case (Record(_, stored), Recording(path, content)) =>
        SetOwn(st, s, o.(files := if stored then o.files[path := content] else o.files, rpc := Idle))
      case (UndoLock(_), RollingBack(path, acquired, undone, dropped, before)) =>
        if dropped || undone >= |acquired| then st
        else
          State(Released(st.locks, w.KeyOf(s, path, acquired[undone]), s),
                st.own[s := o.(rpc := o.rpc.(dropped := true))])
      case (AnnounceUndo(_), RollingBack(path, acquired, undone, dropped, before)) =>
        if !dropped || undone >= |acquired| then st
        else
          SetOwn(st, s, o.(announced := o.announced + multiset{w.KeyOf(s, path, acquired[undone])},
                           rpc := o.rpc.(undone := undone + 1, dropped := false)))
      case (EndReject(_), RollingBack(path, acquired, undone, dropped, before)) =>
        if undone != |acquired| then st
        else SetOwn(st, s, o.(rpc := Idle))
      case (BeginRelease(_), Idle) =>
        SetOwn(st, s, o.(open := {}, rpc := Releasing(set k | k in Held(st.locks, s) :: k.path, {})))
      case (ReleaseFile(_, path), Releasing(left, released)) =>
        if path !in left then st
        else
          var mine := HeldIn(st.locks, w.repoOf(s), path, s);
          State(st.locks - mine, st.own[s := o.(rpc := Releasing(left - {path}, released + mine))])
      case (AnnounceRelease(_), Releasing(left, released)) =>
        if left != {} then st
        else SetOwn(st, s, o.(announced := o.announced + multiset(released), rpc := Idle))
      case _ => st
  }

  ghost function Run(w: World, st: State, actions: seq<Action>): State {
    if actions == [] then st
    else Step(w, Run(w, st, actions[..|actions| - 1]), actions[|actions| - 1])
  }

  ghost predicate Init(st: State) {
    && st.locks == map[]
    && forall s | s in st.own :: st.own[s] == Own(map[], map[], {}, multiset{}, multiset{}, Idle)
  }

  // ---- The invariant, session by session ----

  ghost function Covered(w: World, s: Id, path: Path, content: Bytes): set<Key> {
    set n | n in w.Changes(s, path, content) :: w.KeyOf(s, path, n)
  }

  /** Every symbol changed by an accepted, unreleased write is in `held`. */
  ghost predicate OpenCovered(w: World, s: Id, overlay: map<Path, Bytes>, open: set<Path>, held: set<Key>) {
    forall p | p in open :: p in overlay && Covered(w, s, p, overlay[p]) <= held
  }

  ghost predicate SameAsBefore(o: Own, before: Before) {
    o.overlay == before.overlay && o.files == before.files && o.open == before.open
  }

  ghost predicate FreshlyAcquired(w: World, s: Id, path: Path, acquired: seq<Name>, before: Before) {
    && NoDuplicates(acquired)
    && w.KeysOf(s, path, acquired) !! before.held
  }

  ghost predicate RpcOk(w: World, s: Id, o: Own, held: set<Key>) {
    match o.rpc
    case Idle => true
    case Acquiring(path, content, todo, acquired, blocked, before) =>
      && SameAsBefore(o, before) && o.announced == before.announced
      && OpenCovered(w, s, before.overlay, before.open, before.held)
      && FreshlyAcquired(w, s, path, acquired, before)
      && held == before.held + w.KeysOf(s, path, acquired)
      && (!blocked ==> Covered(w, s, path, content) <= held + w.KeysOf(s, path, todo))
    case Writing(path, content, acquired, before) =>
      && SameAsBefore(o, before) && o.announced == before.announced
      && OpenCovered(w, s, before.overlay, before.open, before.held)
      && FreshlyAcquired(w, s, path, acquired, before)
      && held == before.held + w.KeysOf(s, path, acquired)
      && Covered(w, s, path, content) <= held
    case RollingBack(path, acquired, undone, dropped, before) =>
      && SameAsBefore(o, before)
      && OpenCovered(w, s, before.overlay, before.open, before.held)
      && FreshlyAcquired(w, s, path, acquired, before)
      && undone <= |acquired| && (dropped ==> undone < |acquired|)
      && held == before.held + w.KeysOf(s, path, acquired[if dropped then undone + 1 else undone..])
      && o.announced == before.announced + multiset(w.KeysOf(s, path, acquired[..undone]))
    case Recording(path, content) => true
    case Releasing(left, released) =>
      && o.open == {}
      && (forall k | k in held :: k.path in left)
      && held !! released
  }

  /** The locks released but not announced yet. */
  ghost function Unannounced(w: World, s: Id, o: Own): set<Key> {
    match o.rpc
    case RollingBack(path, acquired, undone, dropped, _) =>
      if dropped && undone < |acquired| then {w.KeyOf(s, path, acquired[undone])} else {}
    case Releasing(_, released) => released
    case _ => {}
  }

  /** Every lock ever granted is still held, or is about to be announced, or was announced:
      exactly one of these for each time it was granted. */
  ghost predicate Accounted(w: World, s: Id, o: Own, held: set<Key>) {
    o.granted == o.announced + multiset(held) + multiset(Unannounced(w, s, o))
  }

  ghost predicate SessionOk(w: World, s: Id, o: Own, held: set<Key>) {
    && (forall k | k in held :: k.repo == w.repoOf(s))
    && OpenCovered(w, s, o.overlay, o.open, held)
    && RpcOk(w, s, o, held)
    && Accounted(w, s, o, held)
  }

  ghost predicate Inv(w: World, st: State) {
    forall s | s in st.own :: SessionOk(w, s, st.own[s], Held(st.locks, s))
  }

  /** An action touches nothing of another session's. */
  lemma StepFrame(w: World, st: State, a: Action, t: Id)
    requires t != a.s
    ensures t in Step(w, st, a).own <==> t in st.own
    ensures t in st.own ==> Step(w, st, a).own[t] == st.own[t]
    ensures Held(Step(w, st, a).locks, t) == Held(st.locks, t)
  {
    LocksOfOthers(w, st, a, t);
  }

  lemma LocksOfOthers(w: World, st: State, a: Action, t: Id)
    requires t != a.s
    ensures Held(Step(w, st, a).locks, t) == Held(st.locks, t)
  {
    var after := Step(w, st, a);
    assert a.Acquire? || a.UndoLock? || a.ReleaseFile? || after.locks == st.locks;
  }

  ghost predicate ActorOk(w: World, st: State, s: Id) {
    s in st.own ==> SessionOk(w, s, st.own[s], Held(st.locks, s))
  }

  lemma BeginWriteKeeps(w: World, st: State, a: Action)
    requires a.BeginWrite? && ActorOk(w, st, a.s)
    ensures ActorOk(w, Step(w, st, a), a.s)
  {
    var after := Step(w, st, a);
    if after != st {
      assert Held(after.locks, a.s) == Held(st.locks, a.s);
      assert w.KeysOf(a.s, a.path, []) == {};
      assert forall n | n in w.Changes(a.s, a.path, a.content) :: n in a.names;
    }
  }

  lemma KeysOfSplit(w: World, s: Id, path: Path, names: seq<Name>)
    requires names != []
    ensures w.KeysOf(s, path, names) == {w.KeyOf(s, path, names[0])} + w.KeysOf(s, path, names[1..])
  {
    assert names == [names[0]] + names[1..];
  }

  lemma KeysOfAppend(w: World, s: Id, path: Path, names: seq<Name>, name: Name)
    ensures w.KeysOf(s, path, names + [name]) == w.KeysOf(s, path, names) + {w.KeyOf(s, path, name)}
  {
  }

  lemma FreshNameJoins(w: World, s: Id, path: Path, acquired: seq<Name>, name: Name, before: Before)
    requires FreshlyAcquired(w, s, path, acquired, before)
    requires w.KeyOf(s, path, name) !in before.held && w.KeyOf(s, path, name) !in w.KeysOf(s, path, acquired)
    ensures FreshlyAcquired(w, s, path, acquired + [name], before)
  {
    KeysOfAppend(w, s, path, acquired, name);
    assert name !in acquired;
  }

  lemma FreshLockRpcOk(w: World, s: Id, o: Own, held: set<Key>, key: Key)
    requires RpcOk(w, s, o, held) && o.rpc.Acquiring? && o.rpc.todo != []
    requires key == w.KeyOf(s, o.rpc.path, o.rpc.todo[0]) && key !in held
    ensures RpcOk(w, s, o.(granted := o.granted + multiset{key},
                           rpc := o.rpc.(todo := o.rpc.todo[1..], acquired := o.rpc.acquired + [o.rpc.todo[0]])),
                  held + {key})
  {
    KeysOfSplit(w, s, o.rpc.path, o.rpc.todo);
    KeysOfAppend(w, s, o.rpc.path, o.rpc.acquired, o.rpc.todo[0]);
    FreshNameJoins(w, s, o.rpc.path, o.rpc.acquired, o.rpc.todo[0], o.rpc.before);
  }

  lemma FreshLockOk(w: World, s: Id, o: Own, held: set<Key>, key: Key)
    requires SessionOk(w, s, o, held) && o.rpc.Acquiring? && o.rpc.todo != []
    requires key == w.KeyOf(s, o.rpc.path, o.rpc.todo[0]) && key !in held
    ensures SessionOk(w, s, o.(granted := o.granted + multiset{key},
                               rpc := o.rpc.(todo := o.rpc.todo[1..], acquired := o.rpc.acquired + [o.rpc.todo[0]])),
                      held + {key})
  {
    FreshLockRpcOk(w, s, o, held, key);
    assert multiset(held + {key}) == multiset(held) + multiset{key};
  }

  lemma AcquireKeeps(w: World, st: State, a: Action)
    requires a.Acquire? && ActorOk(w, st, a.s)
    ensures ActorOk(w, Step(w, st, a), a.s)
  {
    var s, after := a.s, Step(w, st, a);
    if after == st { return; }
    var o := st.own[s];
    var held, held' := Held(st.locks, s), Held(after.locks, s);
    var key := w.KeyOf(s, o.rpc.path, o.rpc.todo[0]);
    if key !in st.locks {
      assert held' == held + {key};
      FreshLockOk(w, s, o, held, key);
    } else {
      assert held' == held;
      KeysOfSplit(w, s, o.rpc.path, o.rpc.todo);
    }
  }

  lemma FinishAcquireKeeps(w: World, st: State, a: Action)
    requires (a.FinishAcquire? || a.FailWrite?) && ActorOk(w, st, a.s)
    ensures ActorOk(w, Step(w, st, a), a.s)
  {
    var s, after := a.s, Step(w, st, a);
    if after == st { return; }
    var o, o' := st.own[s], after.own[s];
    assert Held(after.locks, s) == Held(st.locks, s);
    assert w.KeysOf(s, o.rpc.path, []) == {};
    if o'.rpc.RollingBack? {
      assert o'.rpc.acquired[0..] == o.rpc.acquired;
      assert o'.rpc.acquired[..0] == [];
    }
  }

  lemma CommittedOk(w: World, s: Id, o: Own, held: set<Key>)
    requires SessionOk(w, s, o, held) && o.rpc.Writing?
    ensures SessionOk(w, s, o.(overlay := o.overlay[o.rpc.path := o.rpc.content], open := o.open + {o.rpc.path},
                               rpc := Recording(o.rpc.path, o.rpc.content)), held)
  {
  }

  lemma CommitKeeps(w: World, st: State, a: Action)
    requires a.CommitOverlay? && ActorOk(w, st, a.s)
    ensures ActorOk(w, Step(w, st, a), a.s)
  {
    if a.s in st.own && st.own[a.s].rpc.Writing? {
      CommittedOk(w, a.s, st.own[a.s], Held(st.locks, a.s));
    }
  }

  lemma RecordKeeps(w: World, st: State, a: Action)
    requires a.Record? && ActorOk(w, st, a.s)
    ensures ActorOk(w, Step(w, st, a), a.s)
  {
    assert Step(w, st, a).locks == st.locks;
  }

  lemma DroppedLockOk(w: World, s: Id, o: Own, held: set<Key>)
    requires SessionOk(w, s, o, held) && o.rpc.RollingBack? && !o.rpc.dropped && o.rpc.undone < |o.rpc.acquired|
    ensures w.KeyOf(s, o.rpc.path, o.rpc.acquired[o.rpc.undone]) in held
    ensures SessionOk(w, s, o.(rpc := o.rpc.(dropped := true)), held - {w.KeyOf(s, o.rpc.path, o.rpc.acquired[o.rpc.undone])})
  {
    var r := o.rpc;
    var key := w.KeyOf(s, r.path, r.acquired[r.undone]);
    assert r.acquired[r.undone..][1..] == r.acquired[r.undone + 1..];
    KeysOfSplit(w, s, r.path, r.acquired[r.undone..]);
    DistinctFromRest(w, s, r.path, r.acquired, r.undone);
    assert key in w.KeysOf(s, r.path, r.acquired);
    assert multiset(held) == multiset(held - {key}) + multiset{key};
    BeforeStillHeld(w, s, r.before, held - {key});
  }

  lemma BeforeStillHeld(w: World, s: Id, before: Before, held: set<Key>)
    requires OpenCovered(w, s, before.overlay, before.open, before.held) && before.held <= held
    ensures OpenCovered(w, s, before.overlay, before.open, held)
  {
  }

  lemma AnnouncedLockOk(w: World, s: Id, o: Own, held: set<Key>)
    requires SessionOk(w, s, o, held) && o.rpc.RollingBack? && o.rpc.dropped
    ensures SessionOk(w, s, o.(announced := o.announced + multiset{w.KeyOf(s, o.rpc.path, o.rpc.acquired[o.rpc.undone])},
                               rpc := o.rpc.(undone := o.rpc.undone + 1, dropped := false)), held)
  {
    var r := o.rpc;
    var key := w.KeyOf(s, r.path, r.acquired[r.undone]);
    assert r.acquired[..r.undone + 1] == r.acquired[..r.undone] + [r.acquired[r.undone]];
    KeysOfAppend(w, s, r.path, r.acquired[..r.undone], r.acquired[r.undone]);
    DistinctFromRest(w, s, r.path, r.acquired, r.undone);
    assert multiset(w.KeysOf(s, r.path, r.acquired[..r.undone + 1])) ==
           multiset(w.KeysOf(s, r.path, r.acquired[..r.undone])) + multiset{key};
  }

  lemma UndoKeeps(w: World, st: State, a: Action)
    requires (a.UndoLock? || a.AnnounceUndo? || a.EndReject?) && ActorOk(w, st, a.s)
    ensures ActorOk(w, Step(w, st, a), a.s)
  {
    var s, after := a.s, Step(w, st, a);
    if after == st { return; }
    var o := st.own[s];
    var held, held' := Held(st.locks, s), Held(after.locks, s);
    if a.UndoLock? {
      DroppedLockOk(w, s, o, held);
      assert held' == held - {w.KeyOf(s, o.rpc.path, o.rpc.acquired[o.rpc.undone])};
    } else {
      assert held' == held;
      if a.AnnounceUndo? { AnnouncedLockOk(w, s, o, held); }
    }
  }

  lemma DistinctFromRest(w: World, s: Id, path: Path, names: seq<Name>, i: nat)
    requires NoDuplicates(names) && i < |names|
    ensures w.KeyOf(s, path, names[i]) !in w.KeysOf(s, path, names[..i])
    ensures w.KeyOf(s, path, names[i]) !in w.KeysOf(s, path, names[i + 1..])
  {
  }

  lemma ReleaseKeeps(w: World, st: State, a: Action)
    requires (a.BeginRelease? || a.AnnounceRelease?) && ActorOk(w, st, a.s)
    ensures ActorOk(w, Step(w, st, a), a.s)
  {
    assert Step(w, st, a).locks == st.locks;
  }

  lemma ReleaseFileKeeps(w: World, st: State, a: Action)
    requires a.ReleaseFile? && ActorOk(w, st, a.s)
    ensures ActorOk(w, Step(w, st, a), a.s)
  {
    var s, after := a.s, Step(w, st, a);
    if after == st { return; }
    var o := st.own[s];
    var held, held' := Held(st.locks, s), Held(after.locks, s);
    var mine := HeldIn(st.locks, w.repoOf(s), a.path, s);
    assert held' == held - mine;
    assert multiset(held) == multiset(held') + multiset(mine);
    assert multiset(o.rpc.released + mine) == multiset(o.rpc.released) + multiset(mine);
  }

  lemma StepKeeps(w: World, st: State, a: Action)
    requires Inv(w, st)
    ensures Inv(w, Step(w, st, a))
  {
    var after := Step(w, st, a);
    forall t | t in after.own ensures SessionOk(w, t, after.own[t], Held(after.locks, t)) {
      if t != a.s {
        StepFrame(w, st, a, t);
      } else {
        match a {
          case BeginWrite(_, _, _, _) => BeginWriteKeeps(w, st, a);
          case Acquire(_) => AcquireKeeps(w, st, a);
          case FinishAcquire(_) => FinishAcquireKeeps(w, st, a);
          case FailWrite(_) => FinishAcquireKeeps(w, st, a);
          case CommitOverlay(_) => CommitKeeps(w, st, a);
          case Record(_, _) => RecordKeeps(w, st, a);
          case UndoLock(_) => UndoKeeps(w, st, a);
          case AnnounceUndo(_) => UndoKeeps(w, st, a);
          case EndReject(_) => UndoKeeps(w, st, a);
          case BeginRelease(_) => ReleaseKeeps(w, st, a);
          case ReleaseFile(_, _) => ReleaseFileKeeps(w, st, a);
          case AnnounceRelease(_) => ReleaseKeeps(w, st, a);
        }
      }
    }
  }

  /** The invariant holds after every run. */
  lemma {:induction false} RunKeeps(w: World, st: State, actions: seq<Action>)
    requires Inv(w, st)
    ensures Inv(w, Run(w, st, actions))
  {
    if actions != [] {
      RunKeeps(w, st, actions[..|actions| - 1]);
      StepKeeps(w, Run(w, st, actions[..|actions| - 1]), actions[|actions| - 1]);
    }
  }

  lemma InitOk(w: World, st: State)
    requires Init(st)
    ensures Inv(w, st)
  {
    forall s | s in st.own ensures SessionOk(w, s, st.own[s], Held(st.locks, s)) {
      assert Held(st.locks, s) == {};
    }
  }

  // ---- Main results ----

  /** In every interleaving, every symbol that an accepted and not yet released write
      changes is locked by the session that wrote it. */
  lemma OpenWritesAreLocked(w: World, st: State, actions: seq<Action>, s: Id, path: Path, name: Name)
    requires Init(st)
    requires s in Run(w, st, actions).own && path in Run(w, st, actions).own[s].open
    ensures path in Run(w, st, actions).own[s].overlay
    ensures name in w.Changes(s, path, Run(w, st, actions).own[s].overlay[path]) ==>
              && Key(w.repoOf(s), path, name) in Run(w, st, actions).locks
              && Run(w, st, actions).locks[Key(w.repoOf(s), path, name)] == s
  {
    InitOk(w, st);
    RunKeeps(w, st, actions);
    var end := Run(w, st, actions);
    assert SessionOk(w, s, end.own[s], Held(end.locks, s));
    if name in w.Changes(s, path, end.own[s].overlay[path]) {
      assert w.KeyOf(s, path, name) in Covered(w, s, path, end.own[s].overlay[path]);
    }
  }

  lemma OpenStays(w: World, st: State, a: Action, s: Id, path: Path)
    requires s in st.own && path in st.own[s].open && a != BeginRelease(s)
    ensures s in Step(w, st, a).own && path in Step(w, st, a).own[s].open
  {
    if a.s != s { StepFrame(w, st, a, s); }
  }

  lemma {:induction false} OpenUntilRelease(w: World, st: State, actions: seq<Action>, s: Id, path: Path)
    requires s in st.own && path in st.own[s].open && BeginRelease(s) !in actions
    ensures s in Run(w, st, actions).own && path in Run(w, st, actions).own[s].open
  {
    if actions != [] {
      var last := actions[|actions| - 1];
      assert last in actions;
      OpenUntilRelease(w, st, actions[..|actions| - 1], s, path);
      OpenStays(w, Run(w, st, actions[..|actions| - 1]), last, s, path);
    }
  }

  lemma {:induction false} RunAppends(w: World, st: State, a: seq<Action>, b: seq<Action>)
    ensures Run(w, st, a + b) == Run(w, Run(w, st, a), b)
  {
    if b == [] {
      assert a + b == a;
    } else {
      RunAppends(w, st, a, b[..|b| - 1]);
      assert (a + b)[..|a + b| - 1] == a + b[..|b| - 1];
    }
  }

  lemma RunOne(w: World, st: State, a: Action)
    ensures Run(w, st, [a]) == Step(w, st, a)
  {
    assert [a][..0] == [] && Run(w, st, []) == st;
  }

  /** From the moment a write is stored until its session begins to release, whatever any
      session does meanwhile, every symbol that the session's content of the path changes is
      locked by it. */
  lemma AcceptedWritesStayLocked(w: World, st: State, first: seq<Action>, s: Id, more: seq<Action>, name: Name)
    requires Init(st) && s in Run(w, st, first).own && Run(w, st, first).own[s].rpc.Writing?
    requires BeginRelease(s) !in more
    ensures var path := Run(w, st, first).own[s].rpc.path;
            var end := Run(w, Step(w, Run(w, st, first), CommitOverlay(s)), more);
            && s in end.own && path in end.own[s].overlay
            && (name in w.Changes(s, path, end.own[s].overlay[path]) ==>
                  Key(w.repoOf(s), path, name) in end.locks && end.locks[Key(w.repoOf(s), path, name)] == s)
  {
    var mid := Run(w, st, first);
    var stored := Step(w, mid, CommitOverlay(s));
    OpenUntilRelease(w, stored, more, s, mid.own[s].rpc.path);
    RunOne(w, mid, CommitOverlay(s));
    RunAppends(w, st, first, [CommitOverlay(s)]);
    RunAppends(w, st, first + [CommitOverlay(s)], more);
    OpenWritesAreLocked(w, st, first + [CommitOverlay(s)] + more, s, mid.own[s].rpc.path, name);
  }

  /** Hence the unreleased writes of two sessions on one repository never change the same
      symbol of the same file. */
  lemma NoSharedSymbol(w: World, st: State, actions: seq<Action>, s: Id, t: Id, path: Path)
    requires Init(st) && s != t && w.repoOf(s) == w.repoOf(t)
    requires s in Run(w, st, actions).own && path in Run(w, st, actions).own[s].open
    requires t in Run(w, st, actions).own && path in Run(w, st, actions).own[t].open
    ensures path in Run(w, st, actions).own[s].overlay && path in Run(w, st, actions).own[t].overlay
    ensures w.Changes(s, path, Run(w, st, actions).own[s].overlay[path]) !! w.Changes(t, path, Run(w, st, actions).own[t].overlay[path])
  {
    var end := Run(w, st, actions);
    OpenWritesAreLocked(w, st, actions, s, path, "");
    OpenWritesAreLocked(w, st, actions, t, path, "");
    forall name | name in w.Changes(s, path, end.own[s].overlay[path]) ensures name !in w.Changes(t, path, end.own[t].overlay[path]) {
      OpenWritesAreLocked(w, st, actions, s, path, name);
      OpenWritesAreLocked(w, st, actions, t, path, name);
    }
  }

  /** In every interleaving, a session between RPCs has announced each lock exactly once
      for every time it was granted, except the locks it still holds. */
  lemma EveryReleaseIsAnnouncedOnce(w: World, st: State, actions: seq<Action>, s: Id)
    requires Init(st)
    requires s in Run(w, st, actions).own && Run(w, st, actions).own[s].rpc.Idle?
    ensures Run(w, st, actions).own[s].granted ==
              Run(w, st, actions).own[s].announced + multiset(Held(Run(w, st, actions).locks, s))
  {
    InitOk(w, st);
    RunKeeps(w, st, actions);
    var end := Run(w, st, actions);
    assert SessionOk(w, s, end.own[s], Held(end.locks, s));
  }

  ghost predicate InWrite(rpc: Rpc) {
    rpc.Acquiring? || rpc.Writing? || rpc.RollingBack?
  }

  lemma BeforeIsKept(w: World, st: State, a: Action, s: Id)
    requires s in st.own && InWrite(st.own[s].rpc)
    requires InWrite(Step(w, st, a).own[s].rpc)
    ensures Step(w, st, a).own[s].rpc.before == st.own[s].rpc.before
    ensures Step(w, st, a).own[s].rpc.path == st.own[s].rpc.path
  {
  }

  ghost predicate WritingThroughout(w: World, st: State, actions: seq<Action>, s: Id) {
    forall k | 0 <= k <= |actions| ::
      s in Run(w, st, actions[..k]).own && InWrite(Run(w, st, actions[..k]).own[s].rpc)
  }

  lemma {:induction false} BeforeIsKeptThroughout(w: World, st: State, actions: seq<Action>, s: Id)
    requires WritingThroughout(w, st, actions, s)
    ensures s in st.own && InWrite(st.own[s].rpc)
    ensures s in Run(w, st, actions).own && InWrite(Run(w, st, actions).own[s].rpc)
    ensures Run(w, st, actions).own[s].rpc.before == st.own[s].rpc.before
    ensures Run(w, st, actions).own[s].rpc.path == st.own[s].rpc.path
  {
    assert actions[..0] == [];
    assert actions[..|actions|] == actions;
    if actions != [] {
      var front := actions[..|actions| - 1];
      forall k | 0 <= k <= |front|
        ensures s in Run(w, st, front[..k]).own && InWrite(Run(w, st, front[..k]).own[s].rpc)
      {
        assert front[..k] == actions[..k];
      }
      BeforeIsKeptThroughout(w, st, front, s);
      BeforeIsKept(w, Run(w, st, front), actions[|actions| - 1], s);
    }
  }

  lemma BeginTakesSnapshot(w: World, st: State, begin: Action)
    requires begin.BeginWrite? && begin.s in st.own && st.own[begin.s].rpc.Idle?
    requires InWrite(Step(w, st, begin).own[begin.s].rpc)
    ensures Step(w, st, begin).own[begin.s].rpc.before == Snapshot(st, begin.s)
    ensures Step(w, st, begin).own[begin.s].rpc.path == begin.path
  {
  }

  lemma RejectOnlyEnds(w: World, st: State, s: Id)
    requires s in st.own && st.own[s].rpc.RollingBack? && st.own[s].rpc.undone == |st.own[s].rpc.acquired|
    ensures Step(w, st, EndReject(s)) == SetOwn(st, s, st.own[s].(rpc := Idle))
  {
  }

  /** A rejected or failed write is a no-op for its session in every interleaving: when its
      reply goes out, the session's lock set, overlay and changeset files are those from
      before the call, and exactly the freshly granted locks were announced, once each. */
  lemma {:induction false} RejectedWriteIsNoOp(w: World, st: State, begin: Action, actions: seq<Action>)
    requires Inv(w, st)
    requires begin.BeginWrite? && begin.s in st.own && st.own[begin.s].rpc.Idle?
    requires WritingThroughout(w, Step(w, st, begin), actions, begin.s)
    requires RolledBack(Run(w, Step(w, st, begin), actions), begin.s)
    ensures var last := Run(w, Step(w, st, begin), actions);
            var end, claimed := Step(w, last, EndReject(begin.s)), last.own[begin.s].rpc.acquired;
            && begin.s in end.own && end.own[begin.s].rpc.Idle?
            && Held(end.locks, begin.s) == Held(st.locks, begin.s)
            && SameAsBefore(end.own[begin.s], Snapshot(st, begin.s))
            && w.KeysOf(begin.s, begin.path, claimed) !! Held(st.locks, begin.s)
            && end.own[begin.s].announced == st.own[begin.s].announced + multiset(w.KeysOf(begin.s, begin.path, claimed))
  {
    var s, first := begin.s, Step(w, st, begin);
    StepKeeps(w, st, begin);
    BeforeIsKeptThroughout(w, first, actions, s);
    BeginTakesSnapshot(w, st, begin);
    RunKeeps(w, first, actions);
    RolledBackIsBefore(w, Run(w, first, actions), s, Snapshot(st, s), begin.path);
  }

  ghost predicate RolledBack(st: State, s: Id) {
    s in st.own && st.own[s].rpc.RollingBack? && st.own[s].rpc.undone == |st.own[s].rpc.acquired|
  }

  lemma RolledBackIsBefore(w: World, last: State, s: Id, before: Before, path: Path)
    requires Inv(w, last) && RolledBack(last, s)
    requires last.own[s].rpc.before == before && last.own[s].rpc.path == path
    ensures var end, claimed := Step(w, last, EndReject(s)), last.own[s].rpc.acquired;
            && s in end.own && end.own[s].rpc.Idle? && Held(end.locks, s) == before.held && SameAsBefore(end.own[s], before)
            && w.KeysOf(s, path, claimed) !! before.held
            && end.own[s].announced == before.announced + multiset(w.KeysOf(s, path, claimed))
  {
    assert SessionOk(w, s, last.own[s], Held(last.locks, s));
    UndoneCompletely(w, s, last.own[s], Held(last.locks, s));
    RejectOnlyEnds(w, last, s);
  }

  // ---- What a write claims and stores ----

  /** The call is the write `begin`: it tries and has claimed only names of it. */
  ghost predicate OfWrite(rpc: Rpc, begin: Action)
    requires begin.BeginWrite?
  {
    match rpc
    case Acquiring(path, content, todo, acquired, _, _) =>
      && path == begin.path && content == begin.content
      && (forall n | n in todo :: n in begin.names) && (forall n | n in acquired :: n in begin.names)
    case Writing(path, content, acquired, _) =>
      path == begin.path && content == begin.content && (forall n | n in acquired :: n in begin.names)
    case RollingBack(path, acquired, _, _, _) => path == begin.path && (forall n | n in acquired :: n in begin.names)
    case _ => false
  }

  lemma OfWriteStep(w: World, st: State, a: Action, begin: Action)
    requires begin.BeginWrite? && begin.s in st.own && OfWrite(st.own[begin.s].rpc, begin)
    requires begin.s in Step(w, st, a).own && InWrite(Step(w, st, a).own[begin.s].rpc)
    ensures OfWrite(Step(w, st, a).own[begin.s].rpc, begin)
  {
    if a.s != begin.s {
      StepFrame(w, st, a, begin.s);
    } else {
      var rpc := st.own[begin.s].rpc;
      assert rpc.Acquiring? && rpc.todo != [] ==> rpc.todo[0] in rpc.todo;
    }
  }

  lemma {:induction false} OfWriteThroughout(w: World, st: State, begin: Action, actions: seq<Action>)
    requires begin.BeginWrite? && begin.s in st.own && OfWrite(st.own[begin.s].rpc, begin)
    requires WritingThroughout(w, st, actions, begin.s)
    ensures begin.s in Run(w, st, actions).own && OfWrite(Run(w, st, actions).own[begin.s].rpc, begin)
  {
    if actions != [] {
      var front := actions[..|actions| - 1];
      assert actions[..|actions|] == actions;
      forall k | 0 <= k <= |front|
        ensures begin.s in Run(w, st, front[..k]).own && InWrite(Run(w, st, front[..k]).own[begin.s].rpc)
      {
        assert front[..k] == actions[..k];
      }
      OfWriteThroughout(w, st, begin, front);
      OfWriteStep(w, Run(w, st, front), actions[|actions| - 1], begin);
    }
  }

  lemma BeginIsOfWrite(w: World, st: State, begin: Action)
    requires begin.BeginWrite? && begin.s in st.own && st.own[begin.s].rpc.Idle?
    requires InWrite(Step(w, st, begin).own[begin.s].rpc)
    ensures OfWrite(Step(w, st, begin).own[begin.s].rpc, begin)
    ensures Elements(begin.names) == w.Changes(begin.s, begin.path, begin.content)
  {
  }

  /** A rejected or failed write has locked nothing but symbols that it changes, even
      for a while. */
  lemma RejectedWriteClaimedItsOwn(w: World, st: State, begin: Action, actions: seq<Action>, name: Name)
    requires begin.BeginWrite? && begin.s in st.own && st.own[begin.s].rpc.Idle?
    requires WritingThroughout(w, Step(w, st, begin), actions, begin.s)
    requires var last := Run(w, Step(w, st, begin), actions);
             begin.s in last.own && InWrite(last.own[begin.s].rpc) && name in last.own[begin.s].rpc.acquired
    ensures name in w.Changes(begin.s, begin.path, begin.content)
  {
    assert actions[..0] == [];
    BeginIsOfWrite(w, st, begin);
    OfWriteThroughout(w, Step(w, st, begin), begin, actions);
    assert name in Elements(begin.names);
  }

  lemma ClaimedExactly(w: World, s: Id, o: Own, held: set<Key>, begin: Action)
    requires begin.BeginWrite? && begin.s == s && Elements(begin.names) == w.Changes(s, begin.path, begin.content)
    requires SessionOk(w, s, o, held) && o.rpc.Writing? && OfWrite(o.rpc, begin)
    ensures forall k :: k in held <==>
              || k in o.rpc.before.held
              || (k.repo == w.repoOf(s) && k.path == begin.path && k.name in w.Changes(s, begin.path, begin.content))
  {
    var changed := w.Changes(s, begin.path, begin.content);
    forall n | n in o.rpc.acquired ensures n in changed { assert n in Elements(begin.names); }
    forall k: Key | k.repo == w.repoOf(s) && k.path == begin.path && k.name in changed ensures k in held {
      assert w.KeyOf(s, begin.path, k.name) in Covered(w, s, begin.path, begin.content);
    }
  }

  /** The session holds what it held in `before` and every symbol that the write changes. */
  ghost predicate HoldsWith(w: World, locks: Holders, before: Holders, begin: Action)
    requires begin.BeginWrite?
  {
    forall k: Key :: k in locks && locks[k] == begin.s <==>
      || (k in before && before[k] == begin.s)
      || (k.repo == w.repoOf(begin.s) && k.path == begin.path && k.name in w.Changes(begin.s, begin.path, begin.content))
  }

  /** What the session has when all is claimed. */
  lemma AllClaimed(w: World, st: State, begin: Action, actions: seq<Action>)
    requires Inv(w, st)
    requires begin.BeginWrite? && begin.s in st.own && st.own[begin.s].rpc.Idle?
    requires WritingThroughout(w, Step(w, st, begin), actions, begin.s)
    requires Run(w, Step(w, st, begin), actions).own[begin.s].rpc.Writing?
    ensures var last := Run(w, Step(w, st, begin), actions);
            && begin.s in last.own && OfWrite(last.own[begin.s].rpc, begin)
            && SameAsBefore(last.own[begin.s], Snapshot(st, begin.s)) && last.own[begin.s].announced == st.own[begin.s].announced
            && HoldsWith(w, last.locks, st.locks, begin)
  {
    var s, first := begin.s, Step(w, st, begin);
    var last := Run(w, first, actions);
    assert actions[..0] == [];
    StepKeeps(w, st, begin);
    BeforeIsKeptThroughout(w, first, actions, s);
    BeginTakesSnapshot(w, st, begin);
    RunKeeps(w, first, actions);
    BeginIsOfWrite(w, st, begin);
    OfWriteThroughout(w, first, begin, actions);
    ClaimedNow(w, st, last, begin);
  }

  lemma ClaimedNow(w: World, st: State, last: State, begin: Action)
    requires begin.BeginWrite? && begin.s in st.own && Elements(begin.names) == w.Changes(begin.s, begin.path, begin.content)
    requires Inv(w, last) && begin.s in last.own && last.own[begin.s].rpc.Writing? && OfWrite(last.own[begin.s].rpc, begin)
    requires last.own[begin.s].rpc.before == Snapshot(st, begin.s)
    ensures SameAsBefore(last.own[begin.s], Snapshot(st, begin.s)) && last.own[begin.s].announced == st.own[begin.s].announced
    ensures HoldsWith(w, last.locks, st.locks, begin)
  {
    assert SessionOk(w, begin.s, last.own[begin.s], Held(last.locks, begin.s));
    ClaimedExactly(w, begin.s, last.own[begin.s], Held(last.locks, begin.s), begin);
    forall k: Key
      ensures k in last.locks && last.locks[k] == begin.s <==> k in Held(last.locks, begin.s)
      ensures k in st.locks && st.locks[k] == begin.s <==> k in Snapshot(st, begin.s).held
    {
    }
  }

  lemma ThenStored(w: World, st: State, last: State, begin: Action, stored: bool)
    requires begin.BeginWrite? && begin.s in st.own && begin.s in last.own && last.own[begin.s].rpc.Writing?
    requires OfWrite(last.own[begin.s].rpc, begin) && SameAsBefore(last.own[begin.s], Snapshot(st, begin.s))
    ensures var s, before := begin.s, st.own[begin.s];
            var end := Step(w, Step(w, last, CommitOverlay(s)), Record(s, stored));
            && s in end.own && end.own[s].rpc.Idle? && end.locks == last.locks
            && end.own[s].overlay == before.overlay[begin.path := begin.content]
            && end.own[s].files == (if stored then before.files[begin.path := begin.content] else before.files)
            && end.own[s].announced == last.own[s].announced
  {
    StoreAlone(w, last, begin.s, stored);
  }

  /** In every interleaving, when a write has claimed all it needs it stores its content, and
      its session then holds what it held before and every symbol that it changes. */
  lemma {:induction false} AcceptedWriteHoldsItsSymbols(w: World, st: State, begin: Action, actions: seq<Action>, stored: bool)
    requires Inv(w, st)
    requires begin.BeginWrite? && begin.s in st.own && st.own[begin.s].rpc.Idle?
    requires WritingThroughout(w, Step(w, st, begin), actions, begin.s)
    requires Run(w, Step(w, st, begin), actions).own[begin.s].rpc.Writing?
    ensures var s, before := begin.s, st.own[begin.s];
            var end := Step(w, Step(w, Run(w, Step(w, st, begin), actions), CommitOverlay(s)), Record(s, stored));
            && s in end.own && end.own[s].rpc.Idle?
            && end.own[s].overlay == before.overlay[begin.path := begin.content]
            && end.own[s].files == (if stored then before.files[begin.path := begin.content] else before.files)
            && end.own[s].announced == before.announced
            && (forall k: Key :: k in end.locks && end.locks[k] == s <==>
                  || (k in st.locks && st.locks[k] == s)
                  || (k.repo == w.repoOf(s) && k.path == begin.path && k.name in w.Changes(s, begin.path, begin.content)))
  {
    var last := Run(w, Step(w, st, begin), actions);
    AllClaimed(w, st, begin, actions);
    ThenStored(w, st, last, begin, stored);
    assert HoldsWith(w, last.locks, st.locks, begin);
  }

  // ---- Every call ends ----

  /** What the session's call does next. */
  ghost predicate IsNext(o: Own, a: Action) {
    match o.rpc
    case Idle => false
    case Acquiring(_, _, todo, _, _, _) => if todo != [] then a.Acquire? else a.FinishAcquire?
    case Writing(_, _, _, _) => a.CommitOverlay? || a.FailWrite?
    case Recording(_, _) => a.Record?
    case RollingBack(_, acquired, undone, dropped, _) =>
      if undone >= |acquired| then a.EndReject? else if dropped then a.AnnounceUndo? else a.UndoLock?
    case Releasing(left, _) => if left != {} then a.ReleaseFile? && a.path in left else a.AnnounceRelease?
  }

  /** A bound on the actions that a call still has before it. */
  ghost function Work(rpc: Rpc): nat {
    match rpc
    case Idle => 0
    case Acquiring(_, _, todo, acquired, _, _) => 3 * |todo| + 2 * |acquired| + 3
    case Writing(_, _, acquired, _) => 2 * |acquired| + 2
    case Recording(_, _) => 1
    case RollingBack(_, acquired, undone, dropped, _) =>
      if undone >= |acquired| then 1 else 2 * (|acquired| - undone) + if dropped then 0 else 1
    case Releasing(left, _) => |left| + 1
  }

  /** There is always something to do next, unless the session is between calls. */
  lemma NextExists(o: Own, s: Id) returns (a: Action)
    requires !o.rpc.Idle?
    ensures a.s == s && IsNext(o, a)
  {
    match o.rpc
    case Acquiring(_, _, todo, _, _, _) => a := if todo != [] then Acquire(s) else FinishAcquire(s);
    case Writing(_, _, _, _) => a := CommitOverlay(s);
    case Recording(_, _) => a := Record(s, true);
    case RollingBack(_, acquired, undone, dropped, _) =>
      a := if undone >= |acquired| then EndReject(s) else if dropped then AnnounceUndo(s) else UndoLock(s);
    case Releasing(left, _) =>
      if left != {} {
        var path :| path in left;
        a := ReleaseFile(s, path);
      } else {
        a := AnnounceRelease(s);
      }
  }

  lemma AcquireGetsOn(w: World, st: State, a: Action)
    requires a.s in st.own && IsNext(st.own[a.s], a) && (a.Acquire? || a.FinishAcquire?)
    ensures a.s in Step(w, st, a).own && Work(Step(w, st, a).own[a.s].rpc) < Work(st.own[a.s].rpc)
  {
  }

  lemma StoreGetsOn(w: World, st: State, a: Action)
    requires a.s in st.own && IsNext(st.own[a.s], a) && (a.CommitOverlay? || a.FailWrite? || a.Record?)
    ensures a.s in Step(w, st, a).own && Work(Step(w, st, a).own[a.s].rpc) < Work(st.own[a.s].rpc)
  {
  }

  lemma UndoGetsOn(w: World, st: State, a: Action)
    requires a.s in st.own && IsNext(st.own[a.s], a) && (a.UndoLock? || a.AnnounceUndo? || a.EndReject?)
    requires st.own[a.s].rpc.RollingBack? && st.own[a.s].rpc.undone <= |st.own[a.s].rpc.acquired|
    ensures a.s in Step(w, st, a).own && Work(Step(w, st, a).own[a.s].rpc) < Work(st.own[a.s].rpc)
  {
  }

  lemma ReleaseGetsOn(w: World, st: State, a: Action)
    requires a.s in st.own && IsNext(st.own[a.s], a) && (a.ReleaseFile? || a.AnnounceRelease?)
    ensures a.s in Step(w, st, a).own && Work(Step(w, st, a).own[a.s].rpc) < Work(st.own[a.s].rpc)
  {
    if a.ReleaseFile? {
      var left := st.own[a.s].rpc.left;
      assert left == (left - {a.path}) + {a.path};
    }
  }

  lemma NextGetsOn(w: World, st: State, a: Action)
    requires Inv(w, st) && a.s in st.own && IsNext(st.own[a.s], a)
    ensures a.s in Step(w, st, a).own && Work(Step(w, st, a).own[a.s].rpc) < Work(st.own[a.s].rpc)
  {
    assert RpcOk(w, a.s, st.own[a.s], Held(st.locks, a.s)) by {
      assert SessionOk(w, a.s, st.own[a.s], Held(st.locks, a.s));
    }
    match st.own[a.s].rpc
    case Acquiring(_, _, _, _, _, _) => AcquireGetsOn(w, st, a);
    case Writing(_, _, _, _) => StoreGetsOn(w, st, a);
    case Recording(_, _) => StoreGetsOn(w, st, a);
    case RollingBack(_, _, _, _, _) => UndoGetsOn(w, st, a);
    case Releasing(_, _) => ReleaseGetsOn(w, st, a);
  }

  /** The session only ever does what is next; the others do anything. */
  ghost predicate Pursues(w: World, st: State, actions: seq<Action>, s: Id) {
    actions == [] ||
    (var front, last := actions[..|actions| - 1], actions[|actions| - 1];
     && Pursues(w, st, front, s)
     && (last.s == s ==> s in Run(w, st, front).own && IsNext(Run(w, st, front).own[s], last)))
  }

  function Acts(actions: seq<Action>, s: Id): nat {
    if actions == [] then 0 else Acts(actions[..|actions| - 1], s) + if actions[|actions| - 1].s == s then 1 else 0
  }

  /** Whatever the other sessions do in between, every write, rollback and release gets to its
      end: each thing that its session does next brings it nearer, so it cannot do more
      than the bound without being done. */
  lemma {:induction false} EveryCallEnds(w: World, st: State, actions: seq<Action>, s: Id)
    requires Inv(w, st) && s in st.own && Pursues(w, st, actions, s)
    ensures s in Run(w, st, actions).own
    ensures Work(Run(w, st, actions).own[s].rpc) + Acts(actions, s) <= Work(st.own[s].rpc)
    ensures Acts(actions, s) >= Work(st.own[s].rpc) ==> Run(w, st, actions).own[s].rpc.Idle?
  {
    if actions != [] {
      var front, last := actions[..|actions| - 1], actions[|actions| - 1];
      EveryCallEnds(w, st, front, s);
      RunKeeps(w, st, front);
      if last.s == s {
        NextGetsOn(w, Run(w, st, front), last);
      } else {
        StepFrame(w, Run(w, st, front), last, s);
      }
    }
  }

  // ---- Releases ----

  /** Nothing that the other sessions do touches the session. */
  lemma {:induction false} OthersLeaveAlone(w: World, st: State, actions: seq<Action>, s: Id)
    requires s in st.own && forall a | a in actions :: a.s != s
    ensures s in Run(w, st, actions).own && Run(w, st, actions).own[s] == st.own[s]
    ensures Held(Run(w, st, actions).locks, s) == Held(st.locks, s)
  {
    if actions != [] {
      assert actions[|actions| - 1] in actions;
      OthersLeaveAlone(w, st, actions[..|actions| - 1], s);
      StepFrame(w, Run(w, st, actions[..|actions| - 1]), actions[|actions| - 1], s);
    }
  }

  /** The paths that the session releases in the run. */
  ghost function PathsOf(actions: seq<Action>, s: Id): set<Path> {
    set a | a in actions && a.ReleaseFile? && a.s == s :: a.path
  }

  ghost predicate Releases(st: State, s: Id, left: set<Path>, all: set<Key>, announced: multiset<Key>) {
    && s in st.own && st.own[s].rpc.Releasing? && st.own[s].rpc.left == left && st.own[s].open == {}
    && st.own[s].announced == announced && Held(st.locks, s) + st.own[s].rpc.released == all
  }

  lemma ReleasesStep(w: World, st: State, a: Action, s: Id, left: set<Path>, all: set<Key>, announced: multiset<Key>)
    requires Releases(st, s, left, all, announced) && (a.s == s ==> a.ReleaseFile?)
    ensures Releases(Step(w, st, a), s, if a.s == s then left - {a.path} else left, all, announced)
  {
    if a.s != s {
      StepFrame(w, st, a, s);
    } else if a.path in left {
      assert Held(Step(w, st, a).locks, s) == Held(st.locks, s) - HeldIn(st.locks, w.repoOf(s), a.path, s);
    } else {
      assert left - {a.path} == left;
    }
  }

  lemma {:induction false} ReleasesOn(w: World, st: State, actions: seq<Action>, s: Id, left: set<Path>, all: set<Key>, announced: multiset<Key>)
    requires Releases(st, s, left, all, announced) && forall a | a in actions && a.s == s :: a.ReleaseFile?
    ensures Releases(Run(w, st, actions), s, left - PathsOf(actions, s), all, announced)
  {
    if actions == [] {
      assert PathsOf(actions, s) == {};
    } else {
      var front, last := actions[..|actions| - 1], actions[|actions| - 1];
      assert last in actions && actions == front + [last];
      ReleasesOn(w, st, front, s, left, all, announced);
      ReleasesStep(w, Run(w, st, front), last, s, left - PathsOf(front, s), all, announced);
      assert PathsOf(actions, s) == PathsOf(front, s) + if last.s == s then {last.path} else {};
    }
  }

  lemma AllReleasedThen(w: World, st: State, s: Id, all: set<Key>, announced: multiset<Key>)
    requires Inv(w, st) && Releases(st, s, {}, all, announced)
    ensures var end := Step(w, st, AnnounceRelease(s));
            && s in end.own && end.own[s].rpc.Idle? && end.own[s].open == {} && Held(end.locks, s) == {}
            && end.own[s].announced == announced + multiset(all)
  {
    assert SessionOk(w, s, st.own[s], Held(st.locks, s));
    assert Held(st.locks, s) == {};
  }

  /** The run of a submit's or merge's release: its begin, the release of every file in which
      the session holds a lock, and its announcement, with anything that others do before,
      between and after. */
  ghost predicate IsRelease(st: State, s: Id, first: seq<Action>, middle: seq<Action>, after: seq<Action>) {
    && (forall a | a in first :: a.s != s) && (forall a | a in after :: a.s != s)
    && (forall a | a in middle && a.s == s :: a.ReleaseFile?)
    && (forall k | k in st.locks && st.locks[k] == s :: ReleaseFile(s, k.path) in middle)
  }

  lemma ReleaseBegins(w: World, st: State, s: Id)
    requires s in st.own && st.own[s].rpc.Idle?
    ensures var held := Held(st.locks, s);
            Releases(Step(w, st, BeginRelease(s)), s, set k | k in held :: k.path, held, st.own[s].announced)
  {
    assert Held(Step(w, st, BeginRelease(s)).locks, s) == Held(st.locks, s);
  }

  lemma ReleaseEnds(w: World, begun: State, s: Id, middle: seq<Action>, left: set<Path>, all: set<Key>, announced: multiset<Key>)
    requires Inv(w, begun) && Releases(begun, s, left, all, announced)
    requires (forall a | a in middle && a.s == s :: a.ReleaseFile?) && left <= PathsOf(middle, s)
    ensures var end := Step(w, Run(w, begun, middle), AnnounceRelease(s));
            && s in end.own && end.own[s].rpc.Idle? && end.own[s].open == {} && Held(end.locks, s) == {}
            && end.own[s].announced == announced + multiset(all)
  {
    ReleasesOn(w, begun, middle, s, left, all, announced);
    RunKeeps(w, begun, middle);
    assert left - PathsOf(middle, s) == {};
    AllReleasedThen(w, Run(w, begun, middle), s, all, announced);
  }

  lemma ReleaseFromBegin(w: World, st: State, s: Id, middle: seq<Action>)
    requires Inv(w, st) && s in st.own && st.own[s].rpc.Idle? && forall a | a in middle && a.s == s :: a.ReleaseFile?
    requires forall k | k in Held(st.locks, s) :: ReleaseFile(s, k.path) in middle
    ensures var end := Step(w, Run(w, Step(w, st, BeginRelease(s)), middle), AnnounceRelease(s));
            && s in end.own && end.own[s].rpc.Idle? && end.own[s].open == {} && Held(end.locks, s) == {}
            && end.own[s].announced == st.own[s].announced + multiset(Held(st.locks, s))
  {
    var held := Held(st.locks, s);
    ReleaseBegins(w, st, s);
    StepKeeps(w, st, BeginRelease(s));
    forall k | k in held ensures k.path in PathsOf(middle, s) { assert ReleaseFile(s, k.path) in middle; }
    ReleaseEnds(w, Step(w, st, BeginRelease(s)), s, middle, set k | k in held :: k.path, held, st.own[s].announced);
  }

  lemma ReleaseRun(w: World, st: State, s: Id, first: seq<Action>, middle: seq<Action>, after: seq<Action>)
    ensures Run(w, st, first + [BeginRelease(s)] + middle + [AnnounceRelease(s)] + after) ==
            Run(w, Step(w, Run(w, Step(w, Run(w, st, first), BeginRelease(s)), middle), AnnounceRelease(s)), after)
  {
    var begun := first + [BeginRelease(s)];
    RunAppends(w, st, first, [BeginRelease(s)]);
    RunOne(w, Run(w, st, first), BeginRelease(s));
    RunAppends(w, st, begun, middle);
    RunAppends(w, st, begun + middle, [AnnounceRelease(s)]);
    RunOne(w, Run(w, st, begun + middle), AnnounceRelease(s));
    RunAppends(w, st, begun + middle + [AnnounceRelease(s)], after);
  }

  /** In every interleaving a release takes all the session's locks and announces each of
      them once: afterwards the session is between calls and holds nothing. */
  lemma ReleaseTakesEverything(w: World, st: State, s: Id, first: seq<Action>, middle: seq<Action>, after: seq<Action>)
    requires Inv(w, st) && s in st.own && st.own[s].rpc.Idle? && IsRelease(st, s, first, middle, after)
    ensures var end := Run(w, st, first + [BeginRelease(s)] + middle + [AnnounceRelease(s)] + after);
            && s in end.own && end.own[s].rpc.Idle? && end.own[s].open == {}
            && (forall k | k in end.locks :: end.locks[k] != s)
            && end.own[s].announced == st.own[s].announced + multiset(set k | k in st.locks && st.locks[k] == s)
  {
    var before := Run(w, st, first);
    RunKeeps(w, st, first);
    OthersLeaveAlone(w, st, first, s);
    ReleaseFromBegin(w, before, s, middle);
    var done := Step(w, Run(w, Step(w, before, BeginRelease(s)), middle), AnnounceRelease(s));
    OthersLeaveAlone(w, done, after, s);
    ReleaseRun(w, st, s, first, middle, after);
    HoldsNothing(Run(w, done, after).locks, s);
    assert Held(st.locks, s) == set k | k in st.locks && st.locks[k] == s;
  }

  lemma HoldsNothing(locks: Holders, s: Id)
    requires Held(locks, s) == {}
    ensures forall k | k in locks :: locks[k] != s
  {
    forall k | k in locks ensures locks[k] != s { assert k !in Held(locks, s); }
  }

  lemma {:induction false} EachPathReleased(s: Id, paths: set<Path>) returns (middle: seq<Action>)
    ensures forall a | a in middle :: a.ReleaseFile? && a.s == s
    ensures forall p | p in paths :: ReleaseFile(s, p) in middle
  {
    if paths == {} {
      middle := [];
    } else {
      var p :| p in paths;
      var rest := EachPathReleased(s, paths - {p});
      middle := rest + [ReleaseFile(s, p)];
    }
  }

  /** Such a run exists from every state. */
  lemma ReleaseExists(st: State, s: Id) returns (middle: seq<Action>)
    ensures IsRelease(st, s, [], middle, [])
  {
    middle := EachPathReleased(s, set k | k in Held(st.locks, s) :: k.path);
    forall k | k in st.locks && st.locks[k] == s ensures ReleaseFile(s, k.path) in middle { assert k in Held(st.locks, s); }
  }

  // ---- Releasing twice ----

  ghost predicate NothingToRelease(st: State, s: Id) {
    && s in st.own
    && Held(st.locks, s) == {}
    && (st.own[s].rpc.Idle? || st.own[s].rpc == Releasing({}, {}))
  }

  /** After a release, and until the session writes again, further submits and merges find
      nothing to release and announce nothing. */
  lemma {:induction false} SecondReleaseIsEmpty(w: World, st: State, actions: seq<Action>, s: Id)
    requires NothingToRelease(st, s)
    requires forall a | a in actions :: !(a.BeginWrite? && a.s == s)
    ensures NothingToRelease(Run(w, st, actions), s)
    ensures Run(w, st, actions).own[s].announced == st.own[s].announced
  {
    if actions != [] {
      var front, last := actions[..|actions| - 1], actions[|actions| - 1];
      assert last in actions;
      SecondReleaseIsEmpty(w, st, front, s);
      var mid := Run(w, st, front);
      if last.s != s {
        StepFrame(w, mid, last, s);
      } else {
        var paths := set k | k in Held(mid.locks, s) :: k.path;
        assert paths == {};
        assert Held(Step(w, mid, last).locks, s) == {};
      }
    }
  }

  /** A release leaves the session without locks, whatever others do meanwhile. */
  lemma ReleaseIsComplete(w: World, st: State, s: Id)
    requires Inv(w, st)
    requires s in st.own && st.own[s].rpc.Releasing? && st.own[s].rpc.left == {}
    ensures NothingToRelease(Step(w, st, AnnounceRelease(s)), s)
    ensures Step(w, st, AnnounceRelease(s)).own[s].announced == st.own[s].announced + multiset(st.own[s].rpc.released)
  {
    assert SessionOk(w, s, st.own[s], Held(st.locks, s));
    assert Held(st.locks, s) == {};
    assert Held(Step(w, st, AnnounceRelease(s)).locks, s) == {};
  }

  // ---- A write that runs alone ----

  /** No key of `keys` is held by another session. */
  ghost predicate Free(locks: Holders, keys: set<Key>, s: Id) {
    forall k | k in keys && k in locks :: locks[k] == s
  }

  /** The table in which `s` has claimed every key of `keys` that nobody held. */
  ghost function ClaimAll(locks: Holders, keys: set<Key>, s: Id): Holders {
    map k | k in locks.Keys + keys :: if k in locks then locks[k] else s
  }

  /** Claiming gives the session every key that nobody held, and takes nothing from anyone. */
  lemma ClaimAllGives(locks: Holders, keys: set<Key>, s: Id, k: Key)
    ensures k in ClaimAll(locks, keys, s) <==> k in locks || k in keys
    ensures k in locks ==> ClaimAll(locks, keys, s)[k] == locks[k]
    ensures k in keys && k !in locks ==> ClaimAll(locks, keys, s)[k] == s
    ensures Free(locks, keys, s) <==> !exists k :: k in keys && k in locks && locks[k] != s
  {
  }

  ghost function Acquires(s: Id, n: nat): seq<Action> {
    seq(n, _ => Acquire(s))
  }

  /** `mid` is the state in which the write `begin` has tried its first `n` names alone. */
  ghost predicate Tried(w: World, st: State, begin: Action, n: nat, mid: State)
    requires begin.BeginWrite? && begin.s in st.own && n <= |begin.names|
  {
    var keys := w.KeysOf(begin.s, begin.path, begin.names[..n]);
    && begin.s in mid.own
    && mid.locks == ClaimAll(st.locks, keys, begin.s)
    && var o := mid.own[begin.s];
    && o.overlay == st.own[begin.s].overlay && o.files == st.own[begin.s].files
    && o.rpc.Acquiring? && o.rpc.path == begin.path && o.rpc.content == begin.content
    && o.rpc.todo == begin.names[n..]
    && (o.rpc.blocked <==> !Free(st.locks, keys, begin.s))
  }

  lemma AcquireAlone(w: World, mid: State, s: Id)
    requires s in mid.own && mid.own[s].rpc.Acquiring? && mid.own[s].rpc.todo != []
    ensures var o, after := mid.own[s], Step(w, mid, Acquire(s));
            var key := w.KeyOf(s, o.rpc.path, o.rpc.todo[0]);
            && s in after.own && after.own[s].rpc.Acquiring?
            && after.locks == (if key in mid.locks then mid.locks else mid.locks[key := s])
            && after.own[s].overlay == o.overlay && after.own[s].files == o.files
            && after.own[s].rpc.path == o.rpc.path && after.own[s].rpc.content == o.rpc.content
            && after.own[s].rpc.todo == o.rpc.todo[1..]
            && (after.own[s].rpc.blocked <==> o.rpc.blocked || (key in mid.locks && mid.locks[key] != s))
  {
  }

  lemma TriesNext(w: World, st: State, begin: Action, n: nat, mid: State)
    requires begin.BeginWrite? && begin.s in st.own && n < |begin.names|
    requires Tried(w, st, begin, n, mid)
    ensures Tried(w, st, begin, n + 1, Step(w, mid, Acquire(begin.s)))
  {
    var s, name := begin.s, begin.names[n];
    var key := w.KeyOf(s, begin.path, name);
    var keys := w.KeysOf(s, begin.path, begin.names[..n]);
    assert begin.names[..n + 1] == begin.names[..n] + [name];
    assert begin.names[n..][1..] == begin.names[n + 1..];
    KeysOfAppend(w, s, begin.path, begin.names[..n], name);
    AcquireAlone(w, mid, s);
    assert Step(w, mid, Acquire(s)).locks == ClaimAll(st.locks, keys + {key}, s);
    assert Free(st.locks, keys + {key}, s) <==> Free(st.locks, keys, s) && (key in st.locks ==> st.locks[key] == s);
  }

  lemma {:induction false} ClaimsInOrder(w: World, st: State, begin: Action, n: nat)
    requires begin.BeginWrite? && begin.s in st.own && st.own[begin.s].rpc.Idle?
    requires Elements(begin.names) == w.Changes(begin.s, begin.path, begin.content)
    requires n <= |begin.names|
    ensures Tried(w, st, begin, n, Run(w, Step(w, st, begin), Acquires(begin.s, n)))
  {
    if n == 0 {
      assert begin.names[0..] == begin.names && w.KeysOf(begin.s, begin.path, begin.names[..0]) == {};
      assert ClaimAll(st.locks, {}, begin.s) == st.locks;
    } else {
      ClaimsInOrder(w, st, begin, n - 1);
      assert Acquires(begin.s, n)[..n - 1] == Acquires(begin.s, n - 1);
      TriesNext(w, st, begin, n - 1, Run(w, Step(w, st, begin), Acquires(begin.s, n - 1)));
    }
  }

  /** From a state in which all names were tried: what the remaining actions do. */
  lemma FinishAlone(w: World, mid: State, s: Id)
    requires s in mid.own && mid.own[s].rpc.Acquiring? && mid.own[s].rpc.todo == []
    ensures var tried := Step(w, mid, FinishAcquire(s));
            && s in tried.own && tried.locks == mid.locks
            && (mid.own[s].rpc.blocked ==> tried.own[s].rpc.RollingBack?)
            && (!mid.own[s].rpc.blocked ==>
                  var r := mid.own[s].rpc;
                  tried.own[s] == mid.own[s].(rpc := Writing(r.path, r.content, r.acquired, r.before)))
  {
  }

  lemma StoreAlone(w: World, tried: State, s: Id, stored: bool)
    requires s in tried.own && tried.own[s].rpc.Writing?
    ensures var o := tried.own[s];
            var end := Step(w, Step(w, tried, CommitOverlay(s)), Record(s, stored));
            && s in end.own && end.locks == tried.locks && end.own[s].rpc.Idle? && end.own[s].announced == o.announced
            && end.own[s].overlay == o.overlay[o.rpc.path := o.rpc.content]
            && end.own[s].files == if stored then o.files[o.rpc.path := o.rpc.content] else o.files
  {
  }

  /** Run alone, a write claims its symbols and stores the content exactly when none of
      them is held by another session; otherwise it ends up rolling back. */
  lemma {:induction false} WriteAlone(w: World, st: State, begin: Action, stored: bool)
    requires begin.BeginWrite? && begin.s in st.own && st.own[begin.s].rpc.Idle?
    requires Elements(begin.names) == w.Changes(begin.s, begin.path, begin.content)
    ensures var keys := Covered(w, begin.s, begin.path, begin.content);
            var tried := Step(w, Run(w, Step(w, st, begin), Acquires(begin.s, |begin.names|)), FinishAcquire(begin.s));
            && begin.s in tried.own
            && (!Free(st.locks, keys, begin.s) ==> tried.own[begin.s].rpc.RollingBack?)
            && (Free(st.locks, keys, begin.s) ==>
                  var end := Step(w, Step(w, tried, CommitOverlay(begin.s)), Record(begin.s, stored));
                  && begin.s in end.own && end.own[begin.s].rpc.Idle?
                  && end.locks == ClaimAll(st.locks, keys, begin.s)
                  && end.own[begin.s].overlay == st.own[begin.s].overlay[begin.path := begin.content]
                  && end.own[begin.s].files == if stored then st.own[begin.s].files[begin.path := begin.content] else st.own[begin.s].files)
  {
    var s, n := begin.s, |begin.names|;
    var mid := Run(w, Step(w, st, begin), Acquires(s, n));
    ClaimsInOrder(w, st, begin, n);
    assert begin.names[..n] == begin.names && begin.names[n..] == [];
    assert w.KeysOf(s, begin.path, begin.names) == Covered(w, s, begin.path, begin.content) by {
      assert forall n :: n in begin.names <==> n in Elements(begin.names);
    }
    FinishAlone(w, mid, s);
    if !mid.own[s].rpc.blocked { StoreAlone(w, Step(w, mid, FinishAcquire(s)), s, stored); }
  }

  lemma UndoneCompletely(w: World, s: Id, o: Own, held: set<Key>)
    requires SessionOk(w, s, o, held) && o.rpc.RollingBack? && o.rpc.undone == |o.rpc.acquired|
    ensures held == o.rpc.before.held && SameAsBefore(o, o.rpc.before)
    ensures o.announced == o.rpc.before.announced + multiset(w.KeysOf(s, o.rpc.path, o.rpc.acquired))
    ensures w.KeysOf(s, o.rpc.path, o.rpc.acquired) !! o.rpc.before.held
  {
    var r := o.rpc;
    assert r.acquired[r.undone..] == [];
    assert r.acquired[..r.undone] == r.acquired;
    assert w.KeysOf(s, r.path, []) == {};
  }
}
