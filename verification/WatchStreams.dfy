/** Starting, restarting and cleaning up the watch stream of a session, with any number of
    such calls interleaved between every two critical sections. */
module WatchStreams {
  import opened Common

  /** A `start_watch_stream` or `cleanup_watch_for_session` call between its critical
      sections. */
  datatype Call =
    | Entered(filter: string)
    | Claimed(filter: string)              // its placeholder is in the watch-task map
    | Flagged(filter: string, flag: nat)   // has a client, stored its cancellation flag
    | Filtered(filter: string, flag: nat)  // stored its filter
    | Spawned(filter: string, task: nat)   // its stream runs, not yet in the watch-task map
    | FlagCleaned
    | TaskCleaned

  datatype Stream = Placeholder | Stream(filter: string, flag: nat)

  /** `task`, `filter` and `cancellation` are the session's entries in the server's maps;
      `alive` are the tasks spawned and not aborted, `finished` those that ended by
      themselves; tasks and flags are numbered by `next`. */
  datatype State = State(task: Option<nat>, filter: Option<string>, cancellation: Option<nat>,
                         spawned: map<nat, Stream>, alive: set<nat>, finished: set<nat>, cancelled: set<nat>,
                         next: nat, calls: map<nat, Call>)

  datatype Action =
    | Enter(c: nat, filter: string)
    | Claim(c: nat)
    | NoClient(c: nat)
    | StoreFlag(c: nat)
    | StoreFilter(c: nat)
    | Spawn(c: nat)
    | Install(c: nat)
    | Finish(t: nat)
    | CleanFlag(c: nat)
    | CleanTask(c: nat)
    | CleanFilter(c: nat)

  function AbortEntry(st: State): State {
    if st.task.Some? then st.(alive := st.alive - {st.task.value}, task := None) else st
  }

  function CancelFlag(st: State): State {
    if st.cancellation.Some? then st.(cancelled := st.cancelled + {st.cancellation.value}, cancellation := None) else st
  }

  function Done(st: State, c: nat): State {
    st.(calls := st.calls - {c})
  }

  predicate SameFilterRunning(st: State, filter: string) {
    st.task.Some? && st.filter == Some(filter) && st.task.value !in st.finished
  }

  /** The first critical section: nothing to do, or clear the way and put in a placeholder. */
  function ClaimSlot(st: State): State {
    var cleared := if st.task.Some? then AbortEntry(CancelFlag(st)).(filter := None) else st;
    cleared.(task := Some(st.next), alive := cleared.alive + {st.next},
             spawned := cleared.spawned[st.next := Placeholder], next := st.next + 1)
  }

  function StoreNewFlag(st: State): State {
    CancelFlag(st).(cancellation := Some(st.next), next := st.next + 1)
  }

  function SpawnStream(st: State, filter: string, flag: nat): State {
    st.(alive := st.alive + {st.next}, spawned := st.spawned[st.next := Stream(filter, flag)], next := st.next + 1)
  }

  function InstallTask(st: State, t: nat): State {
    AbortEntry(st).(task := Some(t))
  }

  function Step(st: State, a: Action): State {
    match a
    case Enter(c, filter) => if c in st.calls then st else st.(calls := st.calls[c := Entered(filter)])
    case Claim(c) =>
      if c !in st.calls || !st.calls[c].Entered? then st
      else if SameFilterRunning(st, st.calls[c].filter) then Done(st, c)
      else ClaimSlot(st).(calls := st.calls[c := Claimed(st.calls[c].filter)])
    case NoClient(c) =>
      if c !in st.calls || !st.calls[c].Claimed? then st else Done(AbortEntry(st), c)
    case StoreFlag(c) =>
      if c !in st.calls || !st.calls[c].Claimed? then st
      else StoreNewFlag(st).(calls := st.calls[c := Flagged(st.calls[c].filter, st.next)])
    case StoreFilter(c) =>
      if c !in st.calls || !st.calls[c].Flagged? then st
      else st.(filter := Some(st.calls[c].filter), calls := st.calls[c := Filtered(st.calls[c].filter, st.calls[c].flag)])
    case Spawn(c) =>
      if c !in st.calls || !st.calls[c].Filtered? then st
      else SpawnStream(st, st.calls[c].filter, st.calls[c].flag).(calls := st.calls[c := Spawned(st.calls[c].filter, st.next)])
    case Install(c) =>
      if c !in st.calls || !st.calls[c].Spawned? then st else Done(InstallTask(st, st.calls[c].task), c)
    case Finish(t) => if t in st.alive then st.(finished := st.finished + {t}) else st
    case CleanFlag(c) => if c in st.calls then st else CancelFlag(st).(calls := st.calls[c := FlagCleaned])
    case CleanTask(c) =>
      if c !in st.calls || !st.calls[c].FlagCleaned? then st
      else AbortEntry(st).(calls := st.calls[c := TaskCleaned])
    case CleanFilter(c) =>
      if c !in st.calls || !st.calls[c].TaskCleaned? then st else Done(st.(filter := None), c)
  }

  function Run(st: State, actions: seq<Action>): State {
    if actions == [] then st else Step(Run(st, actions[..|actions| - 1]), actions[|actions| - 1])
  }

  const START := State(None, None, None, map[], {}, {}, {}, 0, map[])

  // ---- No orphaned stream ----

  ghost predicate Owned(st: State, t: nat) {
    st.task == Some(t) || exists c :: c in st.calls && st.calls[c].Spawned? && st.calls[c].task == t
  }

  ghost predicate Inv(st: State) {
    && (forall t | t in st.alive :: t < st.next && Owned(st, t))
    && (st.task.Some? ==> st.task.value < st.next)
    && (forall c | c in st.calls && st.calls[c].Spawned? :: st.calls[c].task < st.next)
  }

  /** A live task that stays live stays owned, when the calls that own tasks stay as they are
      and the map's entry is replaced only by aborting it. */
  lemma OwnedStays(st: State, after: State, t: nat)
    requires Owned(st, t)
    requires after.task == st.task || (st.task == Some(t) ==> after.task == Some(t))
    requires forall c | c in st.calls && st.calls[c].Spawned? && st.calls[c].task == t ::
               (c in after.calls && after.calls[c] == st.calls[c]) || after.task == Some(t)
    ensures Owned(after, t)
  {
    if st.task != Some(t) {
      var c :| c in st.calls && st.calls[c].Spawned? && st.calls[c].task == t;
      assert after.task == Some(t) || c in after.calls;
    }
  }

  lemma StepKeepsOwned(st: State, a: Action, t: nat)
    requires Inv(st) && t in Step(st, a).alive && t in st.alive
    ensures Owned(Step(st, a), t)
  {
    assert Owned(st, t);
    match a
    case Claim(_) => OwnedStays(st, Step(st, a), t);
    case Install(_) => OwnedStays(st, Step(st, a), t);
    case _ => OwnedStays(st, Step(st, a), t);
  }

  lemma StepOwnsNew(st: State, a: Action, t: nat)
    requires Inv(st) && t in Step(st, a).alive && t !in st.alive
    ensures t == st.next && st.next < Step(st, a).next && Owned(Step(st, a), t)
  {
    if a.Spawn? { assert Step(st, a).calls[a.c] == Spawned(st.calls[a.c].filter, t); }
  }

  lemma StepNumbers(st: State, a: Action)
    requires Inv(st)
    ensures var after := Step(st, a);
            && st.next <= after.next && (after.task.Some? ==> after.task.value < after.next)
            && (forall c | c in after.calls && after.calls[c].Spawned? :: after.calls[c].task < after.next)
  {
  }

  lemma StepKeeps(st: State, a: Action)
    requires Inv(st)
    ensures Inv(Step(st, a))
  {
    var after := Step(st, a);
    StepNumbers(st, a);
    forall t | t in after.alive ensures t < after.next && Owned(after, t) {
      if t in st.alive { StepKeepsOwned(st, a, t); } else { StepOwnsNew(st, a, t); }
    }
  }

  lemma {:induction false} RunKeeps(st: State, actions: seq<Action>)
    requires Inv(st)
    ensures Inv(Run(st, actions))
  {
    if actions != [] {
      RunKeeps(st, actions[..|actions| - 1]);
      StepKeeps(Run(st, actions[..|actions| - 1]), actions[|actions| - 1]);
    }
  }

  /** In every interleaving of starts, restarts, client failures and cleanups, every task
      that is not aborted is the one in the watch-task map or belongs to a call that has yet to
      put it there; so when no call is running there is at most one. */
  lemma NoOrphanedStream(actions: seq<Action>)
    ensures var end := Run(START, actions);
            && (forall t | t in end.alive :: Owned(end, t))
            && (end.calls == map[] ==> |end.alive| <= 1 && forall t | t in end.alive :: end.task == Some(t))
  {
    RunKeeps(START, actions);
    var end := Run(START, actions);
    if end.calls == map[] {
      var most := if end.task.Some? then {end.task.value} else {};
      assert end.alive <= most;
      SubsetSize(end.alive, most);
    }
  }

  lemma {:induction false} SubsetSize(a: set<nat>, b: set<nat>)
    requires a <= b
    ensures |a| <= |b|
  {
    if a != {} {
      var x :| x in a;
      SubsetSize(a - {x}, b - {x});
    }
  }

  // ---- What is recorded about the running stream ----

  /** Every flag given to a stream is either the recorded one or raised, never both; flags
      and tasks are numbered in the order they appear. */
  ghost predicate FlagsInv(st: State) {
    && (forall t | t in st.spawned && st.spawned[t].Stream? :: Accounted(st, st.spawned[t].flag))
    && (forall c | c in st.calls && (st.calls[c].Flagged? || st.calls[c].Filtered?) :: Accounted(st, st.calls[c].flag))
    && (st.cancellation.Some? ==> st.cancellation.value < st.next && st.cancellation.value !in st.cancelled)
    && (forall f | f in st.cancelled :: f < st.next)
  }

  ghost predicate Accounted(st: State, flag: nat) {
    st.cancellation == Some(flag) || flag in st.cancelled
  }

  lemma StepKeepsFlags(st: State, a: Action)
    requires FlagsInv(st)
    ensures FlagsInv(Step(st, a))
  {
  }

  lemma {:induction false} RunKeepsFlags(st: State, actions: seq<Action>)
    requires FlagsInv(st)
    ensures FlagsInv(Run(st, actions))
  {
    if actions != [] {
      RunKeepsFlags(st, actions[..|actions| - 1]);
      StepKeepsFlags(Run(st, actions[..|actions| - 1]), actions[|actions| - 1]);
    }
  }

  /** In every interleaving, a stream has been told to stop exactly when the recorded flag
      is not its own. */
  lemma ToldToStopIffNotRecorded(actions: seq<Action>, t: nat)
    requires var end := Run(START, actions); t in end.spawned && end.spawned[t].Stream?
    ensures var end := Run(START, actions);
            end.spawned[t].flag in end.cancelled <==> end.cancellation != Some(end.spawned[t].flag)
  {
    RunKeepsFlags(START, actions);
  }

  /** The entry in the watch-task map is a stream, the recorded filter and flag are its own, and
      it has not been told to stop. */
  predicate RecordedRight(st: State) {
    st.task.Some? ==>
      && st.task.value in st.spawned && st.spawned[st.task.value].Stream?
      && st.filter == Some(st.spawned[st.task.value].filter)
      && st.cancellation == Some(st.spawned[st.task.value].flag)
      && st.spawned[st.task.value].flag !in st.cancelled
  }

  /** Calls start only while no other call is between its sections. */
  predicate OneAtATime(st: State, actions: seq<Action>) {
    actions == [] ||
    (var before := actions[..|actions| - 1];
     var last := actions[|actions| - 1];
     OneAtATime(st, before) && (last.Enter? || last.CleanFlag? ==> Run(st, before).calls == map[]))
  }

  ghost predicate CalmInv(st: State) {
    && FlagsInv(st)
    && (forall c, d | c in st.calls && d in st.calls :: c == d)
    && (st.calls == map[] ==> RecordedRight(st))
    && (forall c | c in st.calls :: CallInv(st, st.calls[c]))
  }

  predicate CallInv(st: State, call: Call) {
    match call
    case Entered(_) => RecordedRight(st)
    case Claimed(_) => true
    case Flagged(_, flag) => st.cancellation == Some(flag)
    case Filtered(filter, flag) => st.cancellation == Some(flag) && st.filter == Some(filter)
    case Spawned(filter, task) =>
      && task in st.spawned && st.spawned[task].Stream? && st.spawned[task].filter == filter
      && st.cancellation == Some(st.spawned[task].flag) && st.filter == Some(filter)
    case FlagCleaned => true
    case TaskCleaned => st.task.None?
  }

  lemma OneCallStays(st: State, a: Action)
    requires (forall c, d | c in st.calls && d in st.calls :: c == d) && (a.Enter? || a.CleanFlag? ==> st.calls == map[])
    ensures forall c, d | c in Step(st, a).calls && d in Step(st, a).calls :: c == d
  {
  }

  lemma CallStays(st: State, a: Action, c: nat)
    requires CalmInv(st) && (a.Enter? || a.CleanFlag? ==> st.calls == map[]) && c in Step(st, a).calls
    ensures CallInv(Step(st, a), Step(st, a).calls[c])
  {
    if c in st.calls { assert CallInv(st, st.calls[c]); }
  }

  lemma RightAtRest(st: State, a: Action)
    requires CalmInv(st) && (a.Enter? || a.CleanFlag? ==> st.calls == map[]) && Step(st, a).calls == map[]
    ensures RecordedRight(Step(st, a))
  {
    if st.calls != map[] {
      assert a.c in st.calls;
      assert CallInv(st, st.calls[a.c]);
    }
  }

  lemma CalmStep(st: State, a: Action)
    requires CalmInv(st) && (a.Enter? || a.CleanFlag? ==> st.calls == map[])
    ensures CalmInv(Step(st, a))
  {
    StepKeepsFlags(st, a);
    OneCallStays(st, a);
    var after := Step(st, a);
    if after.calls == map[] { RightAtRest(st, a); }
    forall c | c in after.calls ensures CallInv(after, after.calls[c]) { CallStays(st, a, c); }
  }

  lemma {:induction false} CalmRun(st: State, actions: seq<Action>)
    requires CalmInv(st) && OneAtATime(st, actions)
    ensures CalmInv(Run(st, actions))
  {
    if actions != [] {
      CalmRun(st, actions[..|actions| - 1]);
      CalmStep(Run(st, actions[..|actions| - 1]), actions[|actions| - 1]);
    }
  }

  /** When the calls of a session never overlap, then whenever none is running the recorded
      filter and flag are those of the stream in the watch-task map, which has not been told to
      stop; so asking for the recorded filter again finds the right stream. */
  lemma CallsApartRecordRight(actions: seq<Action>)
    requires OneAtATime(START, actions)
    ensures var end := Run(START, actions); end.calls == map[] ==> RecordedRight(end)
  {
    CalmRun(START, actions);
  }

  /** A stream that has ended by itself is no reason to leave things as they are: a start with
      the recorded filter clears the way for a new one. */
  lemma EndedStreamIsReplaced(st: State, c: nat, filter: string, t: nat)
    requires c !in st.calls && st.task == Some(t) && t in st.alive && t < st.next
    ensures var ended := Step(st, Finish(t));
            var claimed := Step(Step(ended, Enter(c, filter)), Claim(c));
            && t in ended.finished && ended == st.(finished := ended.finished)
            && t !in claimed.alive && claimed.task == Some(st.next) && claimed.filter.None? && claimed.cancellation.None?
            && (st.cancellation.Some? ==> st.cancellation.value in claimed.cancelled)
            && c in claimed.calls && claimed.calls[c] == Claimed(filter)
  {
    var ended := Step(st, Finish(t));
    var entered := Step(ended, Enter(c, filter));
    assert !SameFilterRunning(entered, filter);
  }

  // ---- Two starts that overlap ----

  function Begin(f: string, g: string): seq<Action> { [Enter(0, f), Enter(1, g)] + [Claim(0), Claim(1)] }

  function Overlap(f: string, g: string): seq<Action> {
    Begin(f, g) + [StoreFlag(0), StoreFlag(1)] + [StoreFilter(0), StoreFilter(1)] + [Spawn(1), Install(1)] + [Spawn(0), Install(0)]
  }

  lemma RunTwo(st: State, actions: seq<Action>, a: Action, b: Action)
    ensures Run(st, actions + [a, b]) == Step(Step(Run(st, actions), a), b)
  {
    assert (actions + [a, b])[..|actions| + 1] == actions + [a];
    assert (actions + [a])[..|actions|] == actions;
  }

  lemma AfterEnters(f: string, g: string)
    ensures Run(START, [Enter(0, f), Enter(1, g)]) == START.(calls := map[0 := Entered(f), 1 := Entered(g)])
  {
    RunTwo(START, [], Enter(0, f), Enter(1, g));
    assert [] + [Enter(0, f), Enter(1, g)] == [Enter(0, f), Enter(1, g)];
  }

  lemma AfterBegin(f: string, g: string)
    ensures var st := Run(START, Begin(f, g));
            && st.calls == map[0 := Claimed(f), 1 := Claimed(g)] && st.task == Some(1) && st.cancellation == None
            && st.cancelled == {} && st.finished == {} && st.next == 2 && st.alive == {1} && st.filter == None
  {
    AfterEnters(f, g);
    RunTwo(START, [Enter(0, f), Enter(1, g)], Claim(0), Claim(1));
  }

  lemma FlagStored(st: State, c: nat)
    requires c in st.calls && st.calls[c].Claimed?
    ensures var after := Step(st, StoreFlag(c));
            && after.calls == st.calls[c := Flagged(st.calls[c].filter, st.next)] && after.cancellation == Some(st.next)
            && after.cancelled == st.cancelled + (if st.cancellation.Some? then {st.cancellation.value} else {})
            && after.task == st.task && after.finished == st.finished && after.next == st.next + 1 && after.alive == st.alive
  {
  }

  lemma AfterFlags(f: string, g: string)
    ensures var st := Run(START, Begin(f, g) + [StoreFlag(0), StoreFlag(1)]);
            && st.calls == map[0 := Flagged(f, 2), 1 := Flagged(g, 3)] && st.task == Some(1) && st.cancellation == Some(3)
            && st.cancelled == {2} && st.finished == {} && st.next == 4 && st.alive == {1}
  {
    var st := Run(START, Begin(f, g));
    AfterBegin(f, g);
    FlagStored(st, 0);
    assert map[0 := Claimed(f), 1 := Claimed(g)][0 := Flagged(f, 2)] == map[0 := Flagged(f, 2), 1 := Claimed(g)];
    FlagStored(Step(st, StoreFlag(0)), 1);
    assert map[0 := Flagged(f, 2), 1 := Claimed(g)][1 := Flagged(g, 3)] == map[0 := Flagged(f, 2), 1 := Flagged(g, 3)];
    RunTwo(START, Begin(f, g), StoreFlag(0), StoreFlag(1));
  }

  lemma AfterStores(f: string, g: string)
    ensures var st := Run(START, Begin(f, g) + [StoreFlag(0), StoreFlag(1)] + [StoreFilter(0), StoreFilter(1)]);
            && st.calls == map[0 := Filtered(f, 2), 1 := Filtered(g, 3)] && st.task == Some(1)
            && st.cancellation == Some(3) && st.cancelled == {2} && st.filter == Some(g) && st.finished == {}
            && st.next == 4 && st.alive == {1}
  {
    AfterFlags(f, g);
    RunTwo(START, Begin(f, g) + [StoreFlag(0), StoreFlag(1)], StoreFilter(0), StoreFilter(1));
  }

  lemma AfterOneInstall(f: string, g: string)
    ensures var st := Run(START, Begin(f, g) + [StoreFlag(0), StoreFlag(1)] + [StoreFilter(0), StoreFilter(1)]
                                 + [Spawn(1), Install(1)]);
            && st.calls == map[0 := Filtered(f, 2)] && st.task == Some(4) && st.cancellation == Some(3)
            && st.cancelled == {2} && st.filter == Some(g) && st.finished == {} && st.next == 5 && st.alive == {4}
  {
    AfterStores(f, g);
    RunTwo(START, Begin(f, g) + [StoreFlag(0), StoreFlag(1)] + [StoreFilter(0), StoreFilter(1)], Spawn(1), Install(1));
  }

  lemma AfterInstalls(f: string, g: string)
    ensures var st := Run(START, Overlap(f, g));
            && st.calls == map[] && st.task == Some(5) && st.cancellation == Some(3) && st.cancelled == {2}
            && st.filter == Some(g) && st.finished == {} && st.alive == {5} && 5 in st.spawned && st.spawned[5] == Stream(f, 2)
  {
    AfterOneInstall(f, g);
    RunTwo(START, Begin(f, g) + [StoreFlag(0), StoreFlag(1)] + [StoreFilter(0), StoreFilter(1)] + [Spawn(1), Install(1)],
           Spawn(0), Install(0));
  }

  /** A start with the recorded filter does nothing while the entry in the map runs. */
  lemma SameFilterIsNoOp(st: State, c: nat, filter: string)
    requires c !in st.calls && SameFilterRunning(st, filter)
    ensures Step(Step(st, Enter(c, filter)), Claim(c)) == st
  {
    assert st.calls[c := Entered(filter)] - {c} == st.calls;
  }

  /** Two overlapping starts, with the same filter or with different ones, can leave the stream
      of one as the only live stream while filter and flag of the other are recorded: it has
      been told to stop at its next event, and a later start with the recorded filter does
      nothing. */
  lemma OverlapMisrecords(f: string, g: string, c: nat)
    ensures var end := Run(START, Overlap(f, g));
            && end.calls == map[] && end.task == Some(5) && end.alive == {5} && 5 !in end.finished
            && 5 in end.spawned && end.spawned[5] == Stream(f, 2)
            && end.filter == Some(g) && 2 in end.cancelled && !RecordedRight(end)
            && Step(Step(end, Enter(c, g)), Claim(c)) == end
  {
    AfterInstalls(f, g);
    SameFilterIsNoOp(Run(START, Overlap(f, g)), c, g);
  }

  // ---- One call at a time, over the maps of all sessions ----

  type Session = nat

  /** The server's maps, and the runtime: what was spawned, what is not aborted, which flags
      are raised. */
  datatype Maps = Maps(tasks: map<Session, nat>, filters: map<Session, string>, cancellations: map<Session, nat>,
                       spawned: map<nat, Stream>, alive: set<nat>, cancelled: set<nat>, next: nat)

  ghost predicate Right(m: Maps, s: Session) {
    s in m.tasks ==>
      && m.tasks[s] in m.spawned && m.spawned[m.tasks[s]].Stream? && m.tasks[s] in m.alive
      && s in m.filters && m.filters[s] == m.spawned[m.tasks[s]].filter
      && s in m.cancellations && m.cancellations[s] == m.spawned[m.tasks[s]].flag
      && m.cancellations[s] !in m.cancelled
  }

  /** Different sessions have different numbers, below `bound`. */
  ghost predicate Apart(f: map<Session, nat>, bound: nat) {
    && (forall s | s in f :: f[s] < bound)
    && (forall s, s' | s in f && s' in f && s != s' :: f[s] != f[s'])
  }

  lemma ApartWith(f: map<Session, nat>, bound: nat, s: Session, n: nat, bound': nat)
    requires Apart(f, bound) && bound <= n < bound'
    ensures Apart(f[s := n], bound') && Apart(f - {s}, bound')
  {
  }

  ghost predicate Valid(m: Maps) {
    && (forall s :: Right(m, s))
    && Apart(m.tasks, m.next) && Apart(m.cancellations, m.next)
    && (forall f | f in m.cancelled :: f < m.next)
    && (forall t | t in m.alive :: t < m.next)
  }

  /** The entries of session `r` are the same. */
  ghost predicate SameFor(m: Maps, m': Maps, r: Session) {
    && (r in m.tasks <==> r in m'.tasks) && (r in m.tasks ==> m.tasks[r] == m'.tasks[r])
    && (r in m.filters <==> r in m'.filters) && (r in m.filters ==> m.filters[r] == m'.filters[r])
    && (r in m.cancellations <==> r in m'.cancellations)
    && (r in m.cancellations ==> m.cancellations[r] == m'.cancellations[r])
  }

  ghost predicate OthersKept(m: Maps, m': Maps, s: Session) {
    forall r | r != s :: SameFor(m, m', r)
  }

  ghost function Task(m: Maps, s: Session): set<nat> { if s in m.tasks then {m.tasks[s]} else {} }

  ghost function Flag(m: Maps, s: Session): set<nat> { if s in m.cancellations then {m.cancellations[s]} else {} }

  ghost function Stopped(m: Maps, s: Session): Maps {
    m.(tasks := m.tasks - {s}, filters := m.filters - {s}, cancellations := m.cancellations - {s},
       alive := m.alive - Task(m, s), cancelled := m.cancelled + Flag(m, s))
  }

  /** A placeholder, a flag and a stream are numbered; only the stream stays. */
  ghost function Launched(m: Maps, s: Session, filter: string): Maps {
    var n := m.next;
    m.(tasks := m.tasks[s := n + 2], filters := m.filters[s := filter], cancellations := m.cancellations[s := n + 1],
       spawned := m.spawned[n := Placeholder][n + 2 := Stream(filter, n + 1)],
       alive := m.alive + {n + 2}, cancelled := m.cancelled + Flag(m, s), next := n + 3)
  }

  /** Without a client the placeholder is taken out again and only a number is used up. */
  ghost function Abandoned(m: Maps): Maps {
    m.(spawned := m.spawned[m.next := Placeholder], next := m.next + 1)
  }

  lemma AbandonedKeeps(m: Maps)
    requires Valid(m)
    ensures Valid(Abandoned(m))
    ensures forall r :: SameFor(m, Abandoned(m), r)
  {
    forall r ensures Right(Abandoned(m), r) { assert Right(m, r); }
  }

  lemma StoppedNumbers(m: Maps, s: Session)
    requires Valid(m)
    ensures var m' := Stopped(m, s);
            && Apart(m'.tasks, m'.next) && Apart(m'.cancellations, m'.next)
            && (forall f | f in m'.cancelled :: f < m'.next) && (forall t | t in m'.alive :: t < m'.next)
  {
    ApartWith(m.tasks, m.next, s, m.next, m.next + 1);
  }

  lemma StoppedRight(m: Maps, s: Session, r: Session)
    requires Valid(m)
    ensures Right(Stopped(m, s), r)
  {
    assert Right(m, r);
  }

  lemma StoppedOther(m: Maps, s: Session, r: Session)
    requires r != s
    ensures SameFor(m, Stopped(m, s), r)
  {
  }

  lemma StoppedKeeps(m: Maps, s: Session)
    requires Valid(m)
    ensures Valid(Stopped(m, s))
    ensures OthersKept(m, Stopped(m, s), s)
  {
    var m' := Stopped(m, s);
    StoppedNumbers(m, s);
    forall r ensures Right(m', r) { StoppedRight(m, s, r); }
    forall r | r != s ensures SameFor(m, m', r) { StoppedOther(m, s, r); }
  }

  lemma LaunchedNumbers(m: Maps, s: Session, filter: string)
    requires Valid(m) && s !in m.tasks
    ensures var m' := Launched(m, s, filter);
            && Apart(m'.tasks, m'.next) && Apart(m'.cancellations, m'.next)
            && (forall f | f in m'.cancelled :: f < m'.next) && (forall t | t in m'.alive :: t < m'.next)
  {
    ApartWith(m.tasks, m.next, s, m.next + 2, m.next + 3);
    ApartWith(m.cancellations, m.next, s, m.next + 1, m.next + 3);
  }

  lemma LaunchedKeeps(m: Maps, s: Session, filter: string)
    requires Valid(m) && s !in m.tasks
    ensures Valid(Launched(m, s, filter))
    ensures OthersKept(m, Launched(m, s, filter), s)
  {
    var m' := Launched(m, s, filter);
    LaunchedNumbers(m, s, filter);
    forall r ensures Right(m', r) { LaunchedRight(m, s, filter, r); }
    forall r | r != s ensures SameFor(m, m', r) { LaunchedOther(m, s, filter, r); }
  }

  lemma LaunchedOther(m: Maps, s: Session, filter: string, r: Session)
    requires r != s
    ensures SameFor(m, Launched(m, s, filter), r)
  {
  }

  lemma LaunchedRight(m: Maps, s: Session, filter: string, r: Session)
    requires Valid(m) && s !in m.tasks
    ensures Right(Launched(m, s, filter), r)
  {
    var m' := Launched(m, s, filter);
    if r != s && r in m.tasks {
      assert Right(m, r);
      assert m.tasks[r] < m.next && m'.tasks[r] == m.tasks[r] && m'.spawned[m.tasks[r]] == m.spawned[m.tasks[r]];
      assert m.cancellations[r] !in Flag(m, s);
    }
  }

  ghost function Cleared(m: Maps, s: Session): Maps {
    if s in m.tasks then Stopped(m, s) else m
  }

  ghost function Started(m: Maps, s: Session, filter: string, hasClient: bool): Maps {
    if hasClient then Launched(Cleared(m, s), s, filter) else Abandoned(Cleared(m, s))
  }

  lemma ClearedKeeps(m: Maps, s: Session)
    requires Valid(m)
    ensures var m' := Cleared(m, s);
            Valid(m') && OthersKept(m, m', s) && s !in m'.tasks && m'.next == m.next && m'.alive == m.alive - Task(m, s)
  {
    if s in m.tasks { StoppedKeeps(m, s); }
  }

  lemma StartedFromClear(m: Maps, s: Session, filter: string, hasClient: bool)
    requires Valid(m) && s !in m.tasks
    ensures var m' := if hasClient then Launched(m, s, filter) else Abandoned(m);
            && Valid(m') && OthersKept(m, m', s) && m'.alive - Task(m', s) == m.alive
            && (if hasClient then s in m'.tasks && m'.tasks[s] >= m.next && s in m'.filters && m'.filters[s] == filter
                else s !in m'.tasks)
  {
    if hasClient { LaunchedKeeps(m, s, filter); } else { AbandonedKeeps(m); }
  }

  lemma KeptThrough(m: Maps, m': Maps, m'': Maps, s: Session)
    requires OthersKept(m, m', s) && OthersKept(m', m'', s)
    ensures OthersKept(m, m'', s)
  {
    forall r | r != s ensures SameFor(m, m'', r) { assert SameFor(m, m', r) && SameFor(m', m'', r); }
  }

  lemma StartedKeeps(m: Maps, s: Session, filter: string, hasClient: bool)
    requires Valid(m)
    ensures var m' := Started(m, s, filter, hasClient);
            && Valid(m') && OthersKept(m, m', s) && m'.alive - Task(m', s) == m.alive - Task(m, s)
            && (if hasClient then s in m'.tasks && m'.tasks[s] >= m.next && s in m'.filters && m'.filters[s] == filter
                else s !in m'.tasks)
  {
    var clear := Cleared(m, s);
    ClearedKeeps(m, s);
    StartedFromClear(clear, s, filter, hasClient);
    KeptThrough(m, clear, if hasClient then Launched(clear, s, filter) else Abandoned(clear), s);
  }

  lemma LaunchedIs(m: Maps, m': Maps, s: Session, filter: string)
    requires s !in m.tasks && forall t | t in m.alive :: t < m.next
    requires m'.tasks == m.tasks[s := m.next][s := m.next + 2] && m'.filters == m.filters[s := filter]
    requires m'.cancellations == m.cancellations[s := m.next + 1] && m'.cancelled == m.cancelled + Flag(m, s)
    requires m'.spawned == m.spawned[m.next := Placeholder][m.next + 2 := Stream(filter, m.next + 1)]
    requires m'.alive == m.alive + {m.next} - {m.next} + {m.next + 2} && m'.next == m.next + 3
    ensures m' == Launched(m, s, filter)
  {
    assert m'.alive == m.alive + {m.next + 2};
    assert m'.tasks == m.tasks[s := m.next + 2];
  }

  /** One session's part of the maps, with no call running. */
  ghost function ViewOf(m: Maps, s: Session, finished: set<nat>): State {
    State(if s in m.tasks then Some(m.tasks[s]) else None, if s in m.filters then Some(m.filters[s]) else None,
          if s in m.cancellations then Some(m.cancellations[s]) else None,
          m.spawned, m.alive, finished, m.cancelled, m.next, map[])
  }

  /** The placeholder is in, and then also the flag and the filter. */
  ghost function ClaimedView(m: Maps, s: Session, finished: set<nat>, filter: string): State {
    ViewOf(m, s, finished).(task := Some(m.next), alive := m.alive + {m.next}, spawned := m.spawned[m.next := Placeholder],
                            next := m.next + 1, calls := map[0 := Claimed(filter)])
  }

  ghost function StoredView(m: Maps, s: Session, finished: set<nat>, filter: string): State {
    ClaimedView(m, s, finished, filter).(filter := Some(filter), cancellation := Some(m.next + 1),
        cancelled := m.cancelled + Flag(m, s), next := m.next + 2, calls := map[0 := Filtered(filter, m.next + 1)])
  }

  lemma ClaimAlone(m: Maps, s: Session, finished: set<nat>, filter: string)
    requires !SameFilterRunning(ViewOf(m, s, finished), filter)
    ensures Step(Step(ViewOf(m, s, finished), Enter(0, filter)), Claim(0)) == ClaimedView(Cleared(m, s), s, finished, filter)
  {
    assert map[0 := Entered(filter)][0 := Claimed(filter)] == map[0 := Claimed(filter)];
  }

  ghost function FlaggedView(m: Maps, s: Session, finished: set<nat>, filter: string): State {
    ClaimedView(m, s, finished, filter).(cancellation := Some(m.next + 1), cancelled := m.cancelled + Flag(m, s),
        next := m.next + 2, calls := map[0 := Flagged(filter, m.next + 1)])
  }

  lemma FlagAlone(m: Maps, s: Session, finished: set<nat>, filter: string)
    ensures Step(ClaimedView(m, s, finished, filter), StoreFlag(0)) == FlaggedView(m, s, finished, filter)
  {
    assert map[0 := Claimed(filter)][0 := Flagged(filter, m.next + 1)] == map[0 := Flagged(filter, m.next + 1)];
  }

  lemma FilterAlone(m: Maps, s: Session, finished: set<nat>, filter: string)
    ensures Step(FlaggedView(m, s, finished, filter), StoreFilter(0)) == StoredView(m, s, finished, filter)
  {
    assert map[0 := Flagged(filter, m.next + 1)][0 := Filtered(filter, m.next + 1)] == map[0 := Filtered(filter, m.next + 1)];
  }

  lemma InstallAlone(m: Maps, s: Session, finished: set<nat>, filter: string)
    requires forall t | t in m.alive :: t < m.next
    ensures Step(Step(StoredView(m, s, finished, filter), Spawn(0)), Action.Install(0)) == ViewOf(Launched(m, s, filter), s, finished)
  {
    var n := m.next;
    var spawned := Step(StoredView(m, s, finished, filter), Spawn(0));
    assert spawned.calls == map[0 := Spawned(filter, n + 2)];
    assert spawned.calls - {0} == map[];
    assert spawned.alive - {n} == m.alive + {n + 2};
  }

  /** What the object's start does to a session is what the machine does when the call runs
      alone, section by section. */
  lemma {:induction false} StartIsARun(m: Maps, s: Session, finished: set<nat>, filter: string)
    requires Valid(m) && !SameFilterRunning(ViewOf(m, s, finished), filter)
    ensures var claimed := Step(Step(ViewOf(m, s, finished), Enter(0, filter)), Claim(0));
            var stored := Step(Step(claimed, StoreFlag(0)), StoreFilter(0));
            Step(Step(stored, Spawn(0)), Action.Install(0)) == ViewOf(Started(m, s, filter, true), s, finished)
  {
    ClearedKeeps(m, s);
    ClaimAlone(m, s, finished, filter);
    FlagAlone(Cleared(m, s), s, finished, filter);
    FilterAlone(Cleared(m, s), s, finished, filter);
    InstallAlone(Cleared(m, s), s, finished, filter);
  }

  /** The same for a start that gets no client, and for a cleanup. */
  lemma FailedStartIsARun(m: Maps, s: Session, finished: set<nat>, filter: string)
    requires Valid(m) && !SameFilterRunning(ViewOf(m, s, finished), filter)
    ensures var claimed := Step(Step(ViewOf(m, s, finished), Enter(0, filter)), Claim(0));
            Step(claimed, NoClient(0)) == ViewOf(Started(m, s, filter, false), s, finished)
  {
    ClearedKeeps(m, s);
    ClaimAlone(m, s, finished, filter);
    var clear := Cleared(m, s);
    assert clear.alive + {clear.next} - {clear.next} == clear.alive;
    assert map[0 := Claimed(filter)] - {0} == map[];
  }

  lemma StopIsARun(m: Maps, s: Session, finished: set<nat>)
    ensures Step(Step(Step(ViewOf(m, s, finished), CleanFlag(0)), CleanTask(0)), CleanFilter(0)) ==
            ViewOf(Stopped(m, s), s, finished)
  {
    var flagless := Step(ViewOf(m, s, finished), CleanFlag(0));
    assert flagless.calls == map[0 := FlagCleaned];
    var taskless := Step(flagless, CleanTask(0));
    assert taskless.calls == map[0 := TaskCleaned];
    assert taskless.calls - {0} == map[];
  }

  class WatchServer {
    var watchTasks: map<Session, nat>
    var watchFilters: map<Session, string>
    var watchCancellations: map<Session, nat>
    var spawned: map<nat, Stream>
    var alive: set<nat>
    var finished: set<nat>
    var cancelled: set<nat>
    var next: nat

    ghost function Now(): Maps
      reads this
    {
      Maps(watchTasks, watchFilters, watchCancellations, spawned, alive, cancelled, next)
    }

    /** There is a stream for `s` with this filter and it has not ended. */
    predicate Running(s: Session, filter: string)
      reads this
    {
      s in watchTasks && s in watchFilters && watchFilters[s] == filter && watchTasks[s] !in finished
    }

    /** A start leaves a running stream with the same filter alone. Otherwise it aborts the
        session's stream and, given a client, leaves exactly one new stream with the wanted
        filter and not told to stop. Other sessions keep what they have. */
    method StartWatchStream(s: Session, filter: string, hasClient: bool)
      requires Valid(Now()) && forall t | t in finished :: t < next
      modifies this
      ensures Valid(Now()) && finished == old(finished)
      ensures OthersKept(old(Now()), Now(), s)
      ensures old(s in watchTasks && s in watchFilters && watchFilters[s] == filter && watchTasks[s] !in finished) ==> Now() == old(Now())
      ensures hasClient ==> Running(s, filter)
      ensures !old(Running(s, filter)) && old(s in watchTasks && s in watchCancellations) ==> old(watchCancellations)[s] in cancelled
      ensures hasClient && old(s !in watchTasks || s !in watchFilters || watchFilters[s] != filter || watchTasks[s] in finished) ==>
                && watchTasks[s] !in old(alive) && watchTasks[s] in alive && s in watchCancellations
                && watchTasks[s] in spawned && spawned[watchTasks[s]] == Stream(filter, watchCancellations[s])
                && watchCancellations[s] !in cancelled
      ensures !hasClient && !old(Running(s, filter)) ==> s !in watchTasks
      ensures alive - Task(Now(), s) == old(alive - Task(Now(), s))
    {
      if s in watchTasks {
        var sameFilter := s in watchFilters && watchFilters[s] == filter;
        var isFinished := watchTasks[s] in finished;
        if sameFilter && !isFinished {
          return;
        }
        StartedKeeps(Now(), s, filter, hasClient);
        Stop(s);
      } else {
        StartedKeeps(Now(), s, filter, hasClient);
      }
      Launch(s, filter, hasClient);
    }

    /** From the placeholder on. */
    method Launch(s: Session, filter: string, hasClient: bool)
      requires s !in watchTasks && forall t | t in alive :: t < next
      modifies this`watchTasks, this`watchFilters, this`watchCancellations, this`spawned, this`alive, this`cancelled, this`next
      ensures Now() == if hasClient then Launched(old(Now()), s, filter) else Abandoned(old(Now()))
    {
      PutPlaceholder(s);
      if hasClient {
        Record(s, filter);
        LaunchedIs(old(Now()), Now(), s, filter);
      } else {
        Abort(s);
        assert watchTasks == old(watchTasks) && alive == old(alive);
      }
    }

    method PutPlaceholder(s: Session)
      requires s !in watchTasks && forall t | t in alive :: t < next
      modifies this`watchTasks, this`spawned, this`alive, this`next
      ensures watchTasks == old(watchTasks)[s := old(next)] && alive == old(alive) + {old(next)}
      ensures spawned == old(spawned)[old(next) := Placeholder] && next == old(next) + 1
    {
      alive, spawned, watchTasks := alive + {next}, spawned[next := Placeholder], watchTasks[s := next];
      next := next + 1;
    }

    /** From the cancellation flag on. */
    method Record(s: Session, filter: string)
      requires s in watchTasks && watchTasks[s] < next && forall t | t in alive :: t < next
      modifies this`watchTasks, this`watchFilters, this`watchCancellations, this`spawned, this`alive, this`cancelled, this`next
      ensures watchTasks == old(watchTasks)[s := old(next) + 1]
      ensures watchFilters == old(watchFilters)[s := filter]
      ensures watchCancellations == old(watchCancellations)[s := old(next)]
      ensures spawned == old(spawned)[old(next) + 1 := Stream(filter, old(next))]
      ensures alive == old(alive) - {old(watchTasks)[s]} + {old(next) + 1}
      ensures cancelled == old(cancelled + Flag(Now(), s)) && next == old(next) + 2
    {
      RaiseFlag(s);
      watchCancellations := watchCancellations[s := next];
      watchFilters := watchFilters[s := filter];
      next := next + 1;
      Install(s, filter);
    }

    /** The stream is spawned with the flag `next - 1` and put into the watch-task map. */
    method Install(s: Session, filter: string)
      requires s in watchTasks && watchTasks[s] < next && next > 0
      modifies this`watchTasks, this`spawned, this`alive, this`next
      ensures watchTasks == old(watchTasks)[s := old(next)]
      ensures spawned == old(spawned)[old(next) := Stream(filter, old(next) - 1)]
      ensures alive == old(alive) - {old(watchTasks)[s]} + {old(next)} && next == old(next) + 1
    {
      alive, spawned := alive + {next}, spawned[next := Stream(filter, next - 1)];
      Abort(s);
      watchTasks := watchTasks[s := next];
      next := next + 1;
    }

    method RaiseFlag(s: Session)
      modifies this`watchCancellations, this`cancelled
      ensures watchCancellations == old(watchCancellations) - {s}
      ensures cancelled == old(cancelled + Flag(Now(), s))
    {
      if s in watchCancellations {
        cancelled := cancelled + {watchCancellations[s]};
        watchCancellations := watchCancellations - {s};
      }
    }

    method Abort(s: Session)
      modifies this`watchTasks, this`alive
      ensures watchTasks == old(watchTasks) - {s}
      ensures alive == old(alive - Task(Now(), s))
    {
      if s in watchTasks {
        alive := alive - {watchTasks[s]};
        watchTasks := watchTasks - {s};
      }
    }

    /** Nothing is left recorded or running for the session: a cleanup, and the first half
        of a restart. */
    method Stop(s: Session)
      requires Valid(Now())
      modifies this`watchTasks, this`watchFilters, this`watchCancellations, this`alive, this`cancelled
      ensures Valid(Now()) && Now() == Stopped(old(Now()), s)
      ensures s !in watchTasks && s !in watchFilters && s !in watchCancellations
      ensures old(s in watchTasks) ==> old(watchTasks)[s] !in alive
      ensures old(s in watchCancellations) ==> old(watchCancellations)[s] in cancelled
      ensures OthersKept(old(Now()), Now(), s)
    {
      StoppedKeeps(Now(), s);
      RaiseFlag(s);
      Abort(s);
      watchFilters := watchFilters - {s};
    }
  }
}
