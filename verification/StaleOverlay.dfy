/** The pre-write staleness policy, and what it guarantees over runs of reads, writes and
    changeset updates under one monotone clock. */
module StaleOverlay {
  import opened Common
  import opened SymbolDiff

  type Id = nat
  type Time = nat

  datatype Competitor = Competitor(changeset: Id, session: Option<Id>, state: string, updatedAt: Time)

  const LIVE_STATES := ["submitted", "verifying", "approved"]

  /** What makes one competitor stale the session's view of the path. */
  predicate MakesStale(s: Id, lastRead: Option<Time>, c: Competitor) {
    && c.session != Some(s)
    && c.state in LIVE_STATES
    && (lastRead.Some? ==> c.updatedAt > lastRead.value)
  }

  /** The first competitor that makes the view stale. */
  function IsStale(s: Id, lastRead: Option<Time>, competitors: seq<Competitor>): (r: Option<Competitor>)
    ensures r.None? <==> forall c | c in competitors :: !MakesStale(s, lastRead, c)
    ensures r.Some? ==> exists i | 0 <= i < |competitors| ::
              && competitors[i] == r.value && MakesStale(s, lastRead, r.value)
              && forall j | 0 <= j < i :: !MakesStale(s, lastRead, competitors[j])
  {
    if competitors == [] then None
    else if MakesStale(s, lastRead, competitors[0]) then
      (assert competitors[0] in competitors; Some(competitors[0]))
    else
      var rest := IsStale(s, lastRead, competitors[1..]);
      assert competitors == [competitors[0]] + competitors[1..];
      (if rest.Some? then
         var i :| 0 <= i < |competitors| - 1 && competitors[1..][i] == rest.value && MakesStale(s, lastRead, rest.value)
                  && forall j | 0 <= j < i :: !MakesStale(s, lastRead, competitors[1..][j]);
         assert forall j | 0 <= j < i + 1 :: !MakesStale(s, lastRead, competitors[j]) by {
           forall j | 0 < j < i + 1 ensures !MakesStale(s, lastRead, competitors[j]) {
             assert competitors[j] == competitors[1..][j - 1];
           }
         }
         assert competitors[i + 1] == rest.value;
         rest
       else rest)
  }

  /** A view is stale exactly when some changeset of another session is submitted, verifying or
      approved and was updated after the last read, or ever if there was none. */
  lemma IsStaleIff(s: Id, lastRead: Option<Time>, competitors: seq<Competitor>)
    ensures IsStale(s, lastRead, competitors).Some? <==>
              exists c | c in competitors ::
                && c.session != Some(s) && c.state in {"submitted", "verifying", "approved"}
                && (lastRead.Some? ==> c.updatedAt > lastRead.value)
  {
    forall state: string ensures state in LIVE_STATES <==> state in {"submitted", "verifying", "approved"} {
      assert LIVE_STATES[0] == "submitted" && LIVE_STATES[1] == "verifying" && LIVE_STATES[2] == "approved";
    }
  }

  /** The rows the store's query keeps. */
  function Live(competitors: seq<Competitor>): seq<Competitor> {
    if competitors == [] then []
    else (if competitors[0].state in LIVE_STATES then [competitors[0]] else []) + Live(competitors[1..])
  }

  lemma {:induction false} LiveAre(competitors: seq<Competitor>, c: Competitor)
    ensures c in Live(competitors) <==> c in competitors && c.state in {"submitted", "verifying", "approved"}
  {
    assert LIVE_STATES[0] == "submitted" && LIVE_STATES[1] == "verifying" && LIVE_STATES[2] == "approved";
    if competitors != [] { LiveAre(competitors[1..], c); }
  }

  /** Filtering by state in the query first never changes the answer. */
  lemma {:induction false} FilterFirst(s: Id, lastRead: Option<Time>, competitors: seq<Competitor>)
    ensures IsStale(s, lastRead, Live(competitors)) == IsStale(s, lastRead, competitors)
  {
    if competitors != [] {
      FilterFirst(s, lastRead, competitors[1..]);
      if competitors[0].state in LIVE_STATES {
        assert Live(competitors)[1..] == Live(competitors[1..]);
      } else {
        assert Live(competitors) == Live(competitors[1..]);
      }
    }
  }

  // ---- Reading through the overlay ----

  datatype Entry = AddedFile(content: Bytes) | ModifiedFile(content: Bytes) | DeletedFile

  /** What a read finds: the overlay decides, also when it says deleted; else the base. */
  function ReadThrough(entry: Option<Entry>, base: Option<Bytes>): Option<Bytes> {
    match entry
    case None => base
    case Some(DeletedFile) => None
    case Some(e) => Some(e.content)
  }

  /** An added or modified file is read from the overlay, a deleted one not at all, and only
      where the overlay has nothing does the base count. */
  lemma ReadFinds(base: Option<Bytes>, content: Bytes)
    ensures ReadThrough(Some(AddedFile(content)), base) == Some(content)
    ensures ReadThrough(Some(ModifiedFile(content)), base) == Some(content)
    ensures ReadThrough(Some(DeletedFile), base) == None
    ensures ReadThrough(None, base) == base
  {
  }

  // ---- Runs ----

  datatype Row = Row(session: Option<Id>, repo: Id, state: string, updatedAt: Time)

  /** A write between its check and its end: `since` are the changesets created, given a new
      state or given the file meanwhile; `unchecked` when the query failed and the check was
      skipped. */
  datatype Pending = Pending(repo: Id, path: Path, content: Bytes, since: set<Id>, unchecked: bool)

  /** The clock, the changeset tables, each session's base tree, overlay and read marks, and the
      write it has under way. */
  datatype Store = Store(now: Time, rows: map<Id, Row>, files: map<(Id, Path), Bytes>, base: map<(Id, Path), Bytes>,
                         overlay: map<(Id, Path), Entry>, seen: map<(Id, Path), Time>, pending: map<Id, Pending>)

  datatype Action =
    | Advance(delta: nat)
    | Create(changeset: Id, session: Option<Id>, repo: Id)
    | SetState(changeset: Id, state: string)
    | UpsertFile(changeset: Id, path: Path, content: Bytes)
    | Read(s: Id, path: Path)
      // a file write: its check, possibly skipped, and its end
    | Check(s: Id, repo: Id, path: Path, content: Bytes, queryFails: bool)
    | Accept(s: Id)
    | Reject(s: Id)

  function At<V>(m: map<(Id, Path), V>, s: Id, path: Path): Option<V> {
    if (s, path) in m then Some(m[(s, path)]) else None
  }

  /** The read finds the file: the overlay has it, or has nothing and the base has it. */
  predicate Readable(st: Store, s: Id, path: Path) {
    ReadThrough(At(st.overlay, s, path), At(st.base, s, path)).Some?
  }

  function LastRead(st: Store, s: Id, path: Path): Option<Time> { At(st.seen, s, path) }

  /** A changeset of another session that is live and lists the path. */
  predicate ForeignLive(st: Store, s: Id, repo: Id, path: Path, c: Id) {
    && c in st.rows && (c, path) in st.files && st.rows[c].repo == repo
    && st.rows[c].session != Some(s) && st.rows[c].state in LIVE_STATES
  }

  predicate SomeLive(st: Store, s: Id, repo: Id, path: Path) {
    exists c :: c in st.rows && ForeignLive(st, s, repo, path, c)
  }

  predicate Unseen(st: Store, s: Id, path: Path, c: Id)
    requires c in st.rows
  {
    (s, path) !in st.seen || st.rows[c].updatedAt > st.seen[(s, path)]
  }

  /** The check refuses the write. */
  predicate Refused(st: Store, s: Id, repo: Id, path: Path) {
    exists c :: c in st.rows && ForeignLive(st, s, repo, path, c) && Unseen(st, s, path, c)
  }

  /** `listing` is an answer of the competitor query, in whatever order. */
  ghost predicate Lists(st: Store, repo: Id, path: Path, listing: seq<Competitor>) {
    forall c :: c in listing <==>
      && c.changeset in st.rows && (c.changeset, path) in st.files
      && st.rows[c.changeset].repo == repo && c.state in LIVE_STATES
      && c.session == st.rows[c.changeset].session && c.state == st.rows[c.changeset].state
      && c.updatedAt == st.rows[c.changeset].updatedAt
  }

  /** Whatever order the query answers in, the policy refuses exactly these writes. */
  lemma PolicyRefuses(st: Store, s: Id, repo: Id, path: Path, listing: seq<Competitor>)
    requires Lists(st, repo, path, listing)
    ensures IsStale(s, LastRead(st, s, path), listing).Some? <==> Refused(st, s, repo, path)
  {
    forall c | c in st.rows && ForeignLive(st, s, repo, path, c)
      ensures Competitor(c, st.rows[c].session, st.rows[c].state, st.rows[c].updatedAt) in listing
    {
    }
  }

  /** Other sessions' writes under way note that `c` changed. */
  function Noted(pending: map<Id, Pending>, c: Id): map<Id, Pending> {
    map s | s in pending :: pending[s].(since := pending[s].since + {c})
  }

  function EntryFor(st: Store, s: Id, path: Path, content: Bytes): Entry {
    if (s, path) in st.base then ModifiedFile(content) else AddedFile(content)
  }

  function Apply(st: Store, a: Action): Store {
    match a
    case Advance(delta) => st.(now := st.now + delta)
    case Create(c, session, repo) =>
      if c in st.rows then st
      else st.(rows := st.rows[c := Row(session, repo, "draft", st.now)], pending := Noted(st.pending, c))
    case SetState(c, state) =>
      if c !in st.rows then st
      else st.(rows := st.rows[c := st.rows[c].(state := state, updatedAt := st.now)], pending := Noted(st.pending, c))
    case UpsertFile(c, path, content) =>
      st.(files := st.files[(c, path) := content], pending := Noted(st.pending, c))
    case Read(s, path) =>
      if s !in st.pending && Readable(st, s, path) then st.(seen := st.seen[(s, path) := st.now]) else st
    case Check(s, repo, path, content, queryFails) =>
      if s in st.pending || (!queryFails && Refused(st, s, repo, path)) then st
      else st.(pending := st.pending[s := Pending(repo, path, content, {}, queryFails)])
    case Accept(s) =>
      if s !in st.pending then st
      else
        var p := st.pending[s];
        st.(overlay := st.overlay[(s, p.path) := EntryFor(st, s, p.path, p.content)], pending := st.pending - {s})
    case Reject(s) => st.(pending := st.pending - {s})
  }

  function Run(st: Store, actions: seq<Action>): Store {
    if actions == [] then st else Apply(Run(st, actions[..|actions| - 1]), actions[|actions| - 1])
  }

  predicate ClockOk(st: Store) {
    && (forall c | c in st.rows :: st.rows[c].updatedAt <= st.now)
    && (forall r | r in st.seen :: st.seen[r] <= st.now)
  }

  lemma {:induction false} ClockStaysOk(st: Store, actions: seq<Action>)
    requires ClockOk(st)
    ensures ClockOk(Run(st, actions)) && st.now <= Run(st, actions).now
  {
    if actions != [] {
      ClockStaysOk(st, actions[..|actions| - 1]);
      ClockStep(Run(st, actions[..|actions| - 1]), actions[|actions| - 1]);
    }
  }

  lemma ClockStep(st: Store, a: Action)
    requires ClockOk(st)
    ensures ClockOk(Apply(st, a)) && st.now <= Apply(st, a).now
  {
    match a
    case Advance(_) =>
    case Create(_, _, _) =>
    case SetState(_, _) =>
    case UpsertFile(_, _, _) =>
    case Read(_, _) =>
    case _ => assert Apply(st, a).rows == st.rows && Apply(st, a).seen == st.seen;
  }

  /** A write that passes the check has read the path after the last update of every
      foreign live changeset on it. */
  lemma PassedCheckSawEverything(st: Store, s: Id, repo: Id, path: Path, listing: seq<Competitor>, c: Id)
    requires Lists(st, repo, path, listing)
    requires IsStale(s, LastRead(st, s, path), listing).None?
    requires c in st.rows && (c, path) in st.files && st.rows[c].repo == repo
    requires st.rows[c].session != Some(s) && st.rows[c].state in LIVE_STATES
    ensures (s, path) in st.seen && st.rows[c].updatedAt <= st.seen[(s, path)]
  {
    var row := st.rows[c];
    assert Competitor(c, row.session, row.state, row.updatedAt) in listing;
  }

  lemma RowStep(st: Store, a: Action, c: Id)
    requires c in Apply(st, a).rows
    ensures (c in st.rows && Apply(st, a).rows[c] == st.rows[c]) ||
            ((a.Create? || a.SetState?) && a.changeset == c && Apply(st, a).rows[c].updatedAt == st.now)
  {
    match a
    case Create(_, _, _) =>
    case SetState(_, _) =>
    case _ => assert Apply(st, a).rows == st.rows;
  }

  ghost predicate Dates(st: Store, actions: seq<Action>, i: nat, c: Id, t: Time)
    requires i < |actions|
  {
    (actions[i].Create? || actions[i].SetState?) && actions[i].changeset == c && Run(st, actions[..i]).now == t
  }

  /** Only creating or updating a changeset after time `t` can date it after `t`. */
  lemma {:induction false} DatedByAnUpdate(st: Store, actions: seq<Action>, c: Id)
    requires ClockOk(st)
    requires c in Run(st, actions).rows && Run(st, actions).rows[c].updatedAt > st.now
    ensures exists i | 0 <= i < |actions| :: Dates(st, actions, i, c, Run(st, actions).rows[c].updatedAt)
  {
    if actions != [] {
      var k := |actions| - 1;
      var front := actions[..k];
      var mid := Run(st, front);
      RowStep(mid, actions[k], c);
      if c in mid.rows && mid.rows[c] == Run(st, actions).rows[c] {
        DatedByAnUpdate(st, front, c);
        var i :| 0 <= i < k && Dates(st, front, i, c, mid.rows[c].updatedAt);
        assert front[..i] == actions[..i] && front[i] == actions[i];
        assert Dates(st, actions, i, c, mid.rows[c].updatedAt);
      } else {
        assert Dates(st, actions, k, c, Run(st, actions).rows[c].updatedAt);
      }
    }
  }

  /** After a successful re-read, whatever runs in between, a retry is refused only on a
      competitor that was updated strictly after that read. */
  lemma {:induction false} RefusedAfterReadMeansNewUpdate(st: Store, s: Id, repo: Id, path: Path, actions: seq<Action>,
                                                          listing: seq<Competitor>)
    requires ClockOk(st) && s !in st.pending && Readable(st, s, path)
    requires Lists(Run(Apply(st, Read(s, path)), actions), repo, path, listing)
    requires IsStale(s, LastRead(Run(Apply(st, Read(s, path)), actions), s, path), listing).Some?
    ensures var read := Apply(st, Read(s, path));
            var c := IsStale(s, LastRead(Run(read, actions), s, path), listing).value;
            && c.updatedAt > st.now
            && exists i | 0 <= i < |actions| :: Dates(read, actions, i, c.changeset, c.updatedAt)
  {
    var read := Apply(st, Read(s, path));
    ReadMarks(st, s, path);
    var end := Run(read, actions);
    MarkedSince(read, actions, s, path);
    StaleIsNewer(end, s, repo, path, listing);
    DatedByAnUpdate(read, actions, IsStale(s, LastRead(end, s, path), listing).value.changeset);
  }

  lemma ReadMarks(st: Store, s: Id, path: Path)
    requires ClockOk(st) && s !in st.pending && Readable(st, s, path)
    ensures var read := Apply(st, Read(s, path));
            ClockOk(read) && read.now == st.now && (s, path) in read.seen && read.seen[(s, path)] == st.now
  {
  }

  lemma StaleIsNewer(end: Store, s: Id, repo: Id, path: Path, listing: seq<Competitor>)
    requires Lists(end, repo, path, listing) && (s, path) in end.seen
    requires IsStale(s, LastRead(end, s, path), listing).Some?
    ensures var c := IsStale(s, LastRead(end, s, path), listing).value;
            && c.changeset in end.rows && end.rows[c.changeset].updatedAt == c.updatedAt
            && c.updatedAt > end.seen[(s, path)]
  {
    var c := IsStale(s, LastRead(end, s, path), listing).value;
    assert c in listing;
  }

  lemma MarkedStep(st: Store, a: Action, s: Id, path: Path)
    requires ClockOk(st) && (s, path) in st.seen
    ensures (s, path) in Apply(st, a).seen && st.seen[(s, path)] <= Apply(st, a).seen[(s, path)]
  {
    match a
    case Read(_, _) =>
    case _ => assert Apply(st, a).seen == st.seen;
  }

  lemma {:induction false} MarkedSince(st: Store, actions: seq<Action>, s: Id, path: Path)
    requires ClockOk(st)
    requires (s, path) in st.seen
    ensures (s, path) in Run(st, actions).seen && st.seen[(s, path)] <= Run(st, actions).seen[(s, path)]
  {
    if actions != [] {
      var front := actions[..|actions| - 1];
      MarkedSince(st, front, s, path);
      ClockStaysOk(st, front);
      MarkedStep(Run(st, front), actions[|actions| - 1], s, path);
    }
  }

  // ---- Recovery ----

  /** The promised recovery, re-read then retry, works exactly when the overlay has the file or
      has nothing of it and the base has it. */
  lemma RecoversIffReadable(st: Store, s: Id, repo: Id, path: Path)
    requires ClockOk(st) && s !in st.pending && Refused(st, s, repo, path)
    ensures !Refused(Apply(st, Read(s, path)), s, repo, path) <==> Readable(st, s, path)
    ensures !Readable(st, s, path) ==> Apply(st, Read(s, path)) == st
  {
    var after := Apply(st, Read(s, path));
    if Readable(st, s, path) {
      assert after.rows == st.rows && after.seen[(s, path)] == st.now;
    }
  }

  /** The session works in `repo`, and its check of the path is never skipped. */
  predicate Guarded(a: Action, s: Id, repo: Id, path: Path) {
    a.Check? && a.s == s && a.path == path ==> a.repo == repo && !a.queryFails
  }

  /** The session cannot read the path, has not read it, and is not past a check of it. */
  predicate Blind(st: Store, s: Id, path: Path) {
    !Readable(st, s, path) && (s, path) !in st.seen && (s in st.pending ==> st.pending[s].path != path)
  }

  /** A blind session is refused exactly while some other session's changeset on the path is
      live. */
  lemma BlindIsRefused(st: Store, s: Id, repo: Id, path: Path)
    requires Blind(st, s, path)
    ensures Refused(st, s, repo, path) <==> SomeLive(st, s, repo, path)
  {
    if c :| c in st.rows && ForeignLive(st, s, repo, path, c) { assert Unseen(st, s, path, c); }
  }

  lemma StaysBlind(st: Store, a: Action, s: Id, repo: Id, path: Path)
    requires Blind(st, s, path) && Guarded(a, s, repo, path) && Refused(st, s, repo, path)
    ensures Blind(Apply(st, a), s, path)
  {
  }

  /** The closed loop: as long as some foreign changeset on the path is live, every write of a
      blind session is refused, so the path never gets into its overlay, so every read fails,
      so the next write is refused; it ends only when no foreign changeset is live. */
  lemma {:induction false} UnreadableStaysRefused(st: Store, s: Id, repo: Id, path: Path, actions: seq<Action>)
    requires Blind(st, s, path) && forall a | a in actions :: Guarded(a, s, repo, path)
    requires forall k | 0 <= k < |actions| :: SomeLive(Run(st, actions[..k]), s, repo, path)
    ensures Blind(Run(st, actions), s, path)
    ensures Refused(Run(st, actions), s, repo, path) <==> SomeLive(Run(st, actions), s, repo, path)
  {
    if actions != [] {
      var k := |actions| - 1;
      var mid := Run(st, actions[..k]);
      forall a | a in actions[..k] ensures Guarded(a, s, repo, path) { assert a in actions; }
      forall j | 0 <= j < k ensures SomeLive(Run(st, actions[..k][..j]), s, repo, path) {
        assert actions[..k][..j] == actions[..j];
      }
      assert SomeLive(Run(st, actions[..k]), s, repo, path);
      UnreadableStaysRefused(st, s, repo, path, actions[..k]);
      assert actions[k] in actions;
      StaysBlind(mid, actions[k], s, repo, path);
    }
    BlindIsRefused(Run(st, actions), s, repo, path);
  }

  /** Such a session and such a refusal come about: another session creates a file, submits it,
      and the write of a session that has no such file is refused, its read fails, and the
      retry is refused again. */
  lemma RefusalIsReachable(st: Store, s: Id, other: Id, c: Id, repo: Id, path: Path, content: Bytes)
    requires Blind(st, s, path) && s !in st.pending && other != s && c !in st.rows
    ensures var submitted := Submitted(st, c, other, repo, path, content);
            var refused := Apply(submitted, Check(s, repo, path, content, false));
            var read := Apply(refused, Read(s, path));
            && ForeignLive(submitted, s, repo, path, c) && Refused(submitted, s, repo, path)
            && refused == submitted && read == submitted
            && Apply(read, Check(s, repo, path, content, false)) == submitted
            && Blind(submitted, s, path)
  {
    SubmittedIsLive(st, s, other, c, repo, path, content);
    assert Unseen(Submitted(st, c, other, repo, path, content), s, path, c);
  }

  /** A status change at any later time makes the view stale again: after a successful read, the
      writes pass; once the clock has moved and another session's changeset that lists the
      path gets a live state, the next is refused. */
  lemma LaterStatusRefuses(st: Store, s: Id, repo: Id, path: Path, c: Id, delta: nat, state: string)
    requires ClockOk(st) && s !in st.pending && Readable(st, s, path) && delta > 0
    requires c in st.rows && (c, path) in st.files && st.rows[c].repo == repo && st.rows[c].session != Some(s)
    requires state in {"submitted", "verifying", "approved"}
    ensures var read := Apply(st, Read(s, path));
            var changed := Apply(Apply(read, Advance(delta)), SetState(c, state));
            && !Refused(read, s, repo, path) && Refused(changed, s, repo, path)
            && changed.now == st.now + delta && changed.rows[c].state == state && changed.rows[c].updatedAt == changed.now
  {
    var read := Apply(st, Read(s, path));
    ReadMarks(st, s, path);
    var changed := Apply(Apply(read, Advance(delta)), SetState(c, state));
    assert LIVE_STATES[0] == "submitted" && LIVE_STATES[1] == "verifying" && LIVE_STATES[2] == "approved";
    assert ForeignLive(changed, s, repo, path, c) && Unseen(changed, s, path, c);
    forall d | d in read.rows && ForeignLive(read, s, repo, path, d) ensures !Unseen(read, s, path, d) { }
  }

  /** A write gets past its check exactly when it is not refused or the query fails. */
  lemma CheckDecides(st: Store, s: Id, repo: Id, path: Path, content: Bytes, queryFails: bool)
    requires s !in st.pending
    ensures var after := Apply(st, Check(s, repo, path, content, queryFails));
            && (s in after.pending <==> queryFails || !Refused(st, s, repo, path))
            && (s !in after.pending ==> after == st)
            && (s in after.pending ==>
                  after.pending[s].path == path && after.pending[s].content == content && after.pending[s].since == {})
  {
  }

  /** A new changeset is a draft dated now, and a rejected write changes nothing but that it is
      no longer under way. */
  lemma CreateAndReject(st: Store, c: Id, session: Option<Id>, repo: Id, s: Id)
    ensures c !in st.rows ==> Apply(st, Create(c, session, repo)).rows == st.rows[c := Row(session, repo, "draft", st.now)]
    ensures Apply(st, Reject(s)) == st.(pending := st.pending - {s})
    ensures Apply(st, UpsertFile(c, "f", [])).files == st.files[(c, "f") := []]
  {
  }

  // ---- The check is not atomic with the write ----

  /** For a write under way that was checked: what it has not read has changed since. */
  ghost predicate PendingInv(st: Store) {
    forall s | s in st.pending && !st.pending[s].unchecked ::
      forall c | c in st.rows && ForeignLive(st, s, st.pending[s].repo, st.pending[s].path, c) ::
        Unseen(st, s, st.pending[s].path, c) ==> c in st.pending[s].since
  }

  lemma PendingStep(st: Store, a: Action)
    requires PendingInv(st)
    ensures PendingInv(Apply(st, a))
  {
    var after := Apply(st, a);
    forall s, c | s in after.pending && !after.pending[s].unchecked && c in after.rows
                  && ForeignLive(after, s, after.pending[s].repo, after.pending[s].path, c)
                  && Unseen(after, s, after.pending[s].path, c)
      ensures c in after.pending[s].since
    {
      PendingEntry(st, a, s, c);
    }
  }

  /** What one action does to a write under way that stays under way. */
  lemma PendingEntry(st: Store, a: Action, s: Id, c: Id)
    requires PendingInv(st)
    requires var after := Apply(st, a);
             && s in after.pending && !after.pending[s].unchecked && c in after.rows
             && ForeignLive(after, s, after.pending[s].repo, after.pending[s].path, c)
             && Unseen(after, s, after.pending[s].path, c)
    ensures c in Apply(st, a).pending[s].since
  {
    if s in st.pending {
      PendingKept(st, a, s, c);
    } else {
      PendingStarts(st, a, s, c);
    }
  }

  lemma PendingStarts(st: Store, a: Action, s: Id, c: Id)
    requires s !in st.pending && s in Apply(st, a).pending && !Apply(st, a).pending[s].unchecked
    requires var after := Apply(st, a);
             && c in after.rows && ForeignLive(after, s, after.pending[s].repo, after.pending[s].path, c)
    ensures !Unseen(Apply(st, a), s, Apply(st, a).pending[s].path, c)
  {
    assert a.Check? && a.s == s;
    assert ForeignLive(st, s, a.repo, a.path, c);
  }

  lemma PendingKept(st: Store, a: Action, s: Id, c: Id)
    requires s in st.pending && s in Apply(st, a).pending
    requires var p := st.pending[s];
             c in st.rows && ForeignLive(st, s, p.repo, p.path, c) && Unseen(st, s, p.path, c) && !p.unchecked ==> c in p.since
    requires var after := Apply(st, a);
             && !after.pending[s].unchecked && c in after.rows
             && ForeignLive(after, s, after.pending[s].repo, after.pending[s].path, c)
             && Unseen(after, s, after.pending[s].path, c)
    ensures c in Apply(st, a).pending[s].since
  {
    match a
    case Create(d, _, _) =>
    case SetState(d, _) =>
    case UpsertFile(d, _, _) =>
    case Read(_, _) =>
    case Advance(_) =>
    case Check(_, _, _, _, _) =>
    case Accept(_) =>
    case Reject(_) =>
  }

  lemma {:induction false} PendingRun(st: Store, actions: seq<Action>)
    requires PendingInv(st)
    ensures PendingInv(Run(st, actions))
  {
    if actions != [] {
      PendingRun(st, actions[..|actions| - 1]);
      PendingStep(Run(st, actions[..|actions| - 1]), actions[|actions| - 1]);
    }
  }

  /** When a checked write is accepted, its session has read the path after the last update of
      every foreign live changeset on it, except one that was created, given its state or given
      the file between the check and the acceptance. */
  lemma {:induction false} AcceptedWriteSawAllButTheRace(st: Store, actions: seq<Action>, s: Id, c: Id)
    requires st.pending == map[]
    requires var end := Run(st, actions);
             && s in end.pending && !end.pending[s].unchecked && c in end.rows
             && ForeignLive(end, s, end.pending[s].repo, end.pending[s].path, c)
    ensures var end := Run(st, actions);
            var p := end.pending[s];
            && (s, p.path) in Apply(end, Accept(s)).overlay
            && (((s, p.path) in end.seen && end.rows[c].updatedAt <= end.seen[(s, p.path)]) || c in p.since)
  {
    PendingRun(st, actions);
    var end := Run(st, actions);
    assert Unseen(end, s, end.pending[s].path, c) ==> c in end.pending[s].since;
  }

  predicate Touches(a: Action, c: Id) {
    (a.Create? || a.SetState? || a.UpsertFile?) && a.changeset == c
  }

  lemma SinceStep(st: Store, a: Action, s: Id, c: Id)
    requires s in Apply(st, a).pending && c in Apply(st, a).pending[s].since
    ensures s in st.pending && (c in st.pending[s].since || Touches(a, c))
  {
    match a
    case Create(_, _, _) =>
    case SetState(_, _) =>
    case UpsertFile(_, _, _) =>
    case Check(_, _, _, _, _) =>
    case _ =>
  }

  /** A write of the session is under way from the `k`-th state of the run on. */
  ghost predicate UnderWayFrom(st: Store, actions: seq<Action>, s: Id, k: nat) {
    forall j | k <= j <= |actions| :: s in Run(st, actions[..j]).pending
  }

  lemma UnderWayOneMore(st: Store, actions: seq<Action>, s: Id, k: nat)
    requires actions != [] && UnderWayFrom(st, actions[..|actions| - 1], s, k) && s in Run(st, actions).pending
    ensures UnderWayFrom(st, actions, s, k)
  {
    var front := actions[..|actions| - 1];
    forall j | k <= j <= |actions| ensures s in Run(st, actions[..j]).pending {
      if j == |actions| { assert actions[..j] == actions; } else { assert front[..j] == actions[..j]; }
    }
  }

  /** What counts as changed since the check did change while the write was under way. */
  lemma {:induction false} SinceIsSinceTheCheck(st: Store, actions: seq<Action>, s: Id, c: Id) returns (k: nat)
    requires st.pending == map[] && s in Run(st, actions).pending && c in Run(st, actions).pending[s].since
    ensures k < |actions| && Touches(actions[k], c) && UnderWayFrom(st, actions, s, k)
  {
    var last := |actions| - 1;
    var front := actions[..last];
    SinceStep(Run(st, front), actions[last], s, c);
    if Touches(actions[last], c) {
      k := last;
      assert front[..last] == front;
      assert UnderWayFrom(st, front, s, k);
    } else {
      k := SinceIsSinceTheCheck(st, front, s, c);
    }
    UnderWayOneMore(st, actions, s, k);
  }

  /** And the race happens: from every state in which a write passes its check, a submission
      that falls behind the check is written over unseen. */
  lemma RaceSlipsPast(st: Store, s: Id, other: Id, c: Id, repo: Id, path: Path, content: Bytes, theirs: Bytes)
    requires ClockOk(st) && s !in st.pending && !Refused(st, s, repo, path) && other != s && c !in st.rows
    requires (s, path) in st.seen ==> st.seen[(s, path)] < st.now
    ensures var checked := Apply(st, Check(s, repo, path, content, false));
            var submitted := Submitted(checked, c, other, repo, path, theirs);
            var end := Apply(submitted, Accept(s));
            && s in submitted.pending && At(end.overlay, s, path) == Some(EntryFor(st, s, path, content))
            && ForeignLive(end, s, repo, path, c) && Unseen(end, s, path, c)
  {
    var checked := Apply(st, Check(s, repo, path, content, false));
    assert checked.pending[s] == Pending(repo, path, content, {}, false);
    SubmittedIsLive(checked, s, other, c, repo, path, theirs);
    SubmittedKeepsPending(checked, s, other, c, repo, path, theirs);
    AcceptStores(Submitted(checked, c, other, repo, path, theirs), s);
  }

  lemma AcceptStores(st: Store, s: Id)
    requires s in st.pending
    ensures var p, end := st.pending[s], Apply(st, Accept(s));
            && end.rows == st.rows && end.files == st.files && end.seen == st.seen
            && At(end.overlay, s, p.path) == Some(EntryFor(st, s, p.path, p.content))
  {
  }

  /** An accepted write is an entry of the overlay, modified where the base has the file and
      added elsewhere, and is what a read then finds. */
  lemma AcceptedIsReadBack(st: Store, s: Id)
    requires s in st.pending
    ensures var p, end := st.pending[s], Apply(st, Accept(s));
            && At(end.overlay, s, p.path) == Some(if (s, p.path) in st.base then ModifiedFile(p.content) else AddedFile(p.content))
            && ReadThrough(At(end.overlay, s, p.path), At(end.base, s, p.path)) == Some(p.content)
            && s !in end.pending && Readable(end, s, p.path)
  {
  }

  /** Another session creates a changeset, lists a file in it and submits it. */
  function Submitted(st: Store, c: Id, other: Id, repo: Id, path: Path, content: Bytes): Store {
    Apply(Apply(Apply(st, Create(c, Some(other), repo)), UpsertFile(c, path, content)), SetState(c, "submitted"))
  }

  lemma SubmittedIsLive(st: Store, s: Id, other: Id, c: Id, repo: Id, path: Path, content: Bytes)
    requires c !in st.rows && other != s
    ensures var end := Submitted(st, c, other, repo, path, content);
            && ForeignLive(end, s, repo, path, c) && end.rows[c].updatedAt == st.now
            && end.seen == st.seen && end.base == st.base && end.overlay == st.overlay && end.pending.Keys == st.pending.Keys
  {
    var created := Apply(st, Create(c, Some(other), repo));
    var stored := Apply(created, UpsertFile(c, path, content));
    assert created.rows[c] == Row(Some(other), repo, "draft", st.now) && stored.rows == created.rows && stored.now == st.now;
    assert "submitted" == LIVE_STATES[0];
  }

  lemma SubmittedKeepsPending(st: Store, s: Id, other: Id, c: Id, repo: Id, path: Path, content: Bytes)
    requires c !in st.rows && s in st.pending
    ensures var end := Submitted(st, c, other, repo, path, content);
            s in end.pending && end.pending[s].path == st.pending[s].path && end.pending[s].content == st.pending[s].content
  {
  }

  /** Storing file content does not date the changeset: however often live competitors
      rewrite files they already list, the answer of the check stays what it was. */
  lemma {:induction false} ContentChangesGoUnseen(st: Store, s: Id, repo: Id, path: Path, actions: seq<Action>, listing: seq<Competitor>)
    requires Lists(st, repo, path, listing)
    requires forall a | a in actions :: a.Advance? || (a.UpsertFile? && (a.changeset, a.path) in st.files)
    ensures Run(st, actions).files.Keys == st.files.Keys && Run(st, actions).rows == st.rows && Run(st, actions).seen == st.seen
    ensures Lists(Run(st, actions), repo, path, listing)
    ensures IsStale(s, LastRead(Run(st, actions), s, path), listing) == IsStale(s, LastRead(st, s, path), listing)
  {
    if actions != [] {
      assert actions[|actions| - 1] in actions;
      ContentChangesGoUnseen(st, s, repo, path, actions[..|actions| - 1], listing);
    }
  }
}
