/** The blocking wait of one session as a state machine: stream tasks that buffer and then
    notify, one blocking `dk_watch` call at a time, other drains and session cleanups, all
    interleaved between every two critical sections. */
module WatchWakeup {
  import opened Common
  import opened WatchBuffer

  /** A stream task between its critical sections. With `Dropping` and `Flagged` it still
      holds the lock of the buffer map. */
  datatype Task =
    | Ready
    | Pushed     // event buffered, notify still to come
    | Dropping   // buffer full, overflow flag not set yet
    | Flagged    // overflow flag set, notify still to come

  /** The blocking call. */
  datatype Waiter =
    | Away
    | Ensured(n: nat)                     // holds the session's notify `n`
    | Took(n: nat, got: seq<Event>)       // events drained, overflow flag not yet
    | Resetting                           // found something; replaces the notify next
    | Parked(n: nat)
    | Woken                               // drains once more
    | TookAgain(got: seq<Event>)

  /** `cleaning` counts the cleanups that have aborted the stream but not yet woken the
      waiter; `unreported` counts the events dropped since the last overflow report. */
  datatype State = State(slot: Slot, permits: set<nat>, next: nat, waiter: Waiter, tasks: map<nat, Task>,
                         holder: Option<nat>, cleaning: nat, unreported: nat)

  datatype Action =
    | Spawn(i: nat)
    | Abort(i: nat)
    | Receive(i: nat, e: Event)
    | SetFlag(i: nat)
    | Notify(i: nat)
      // the blocking call
    | Ensure
    | TakeEvents
    | TakeOverflow
    | Reset
    | Wake
    | Timeout
      // other calls for the same session
    | OtherEnsure
    | OtherTakeEvents
    | OtherTakeOverflow
    | OtherReset
      // cleanup
    | CleanAbort(i: nat)
    | CleanEvents
    | CleanOverflow
    | CleanNotify

  ghost function WithNotify(st: State): State {
    if st.slot.notify.Some? then st
    else st.(slot := st.slot.(notify := Some(st.next)), next := st.next + 1)
  }

  ghost function NotifyCurrent(st: State): State {
    if st.slot.notify.Some? then st.(permits := st.permits + {st.slot.notify.value}) else st
  }

  ghost function SetTask(st: State, i: nat, t: Task): State {
    st.(tasks := st.tasks[i := t])
  }

  ghost function TakePending(st: State): State {
    st.(slot := st.slot.(pending := []))
  }

  /** Clears the flag; if it was set, the drops so far are now reported. */
  ghost function TakeFlag(st: State): State {
    st.(slot := st.slot.(overflow := false), unreported := if st.slot.overflow then 0 else st.unreported)
  }

  ghost function Step(st: State, a: Action): State {
    match a
    case Spawn(i) => if i in st.tasks then st else SetTask(st, i, Ready)
    case Abort(i) =>
      if i !in st.tasks then st
      else st.(tasks := st.tasks - {i}, holder := if st.holder == Some(i) then None else st.holder)
    case Receive(i, e) =>
      if i !in st.tasks || st.tasks[i] != Ready || st.holder.Some? then st
      else
        (match Arrive(st.slot.pending, e)
         case Duplicate => st
         case Buffered => SetTask(st, i, Pushed).(slot := st.slot.(pending := st.slot.pending + [e]))
         case Dropped => SetTask(st, i, Dropping).(holder := Some(i), unreported := st.unreported + 1))
    case SetFlag(i) =>
      if i !in st.tasks || st.tasks[i] != Dropping then st
      else SetTask(st, i, Flagged).(slot := st.slot.(overflow := true))
    case Notify(i) =>
      if i !in st.tasks || !(st.tasks[i] == Pushed || st.tasks[i] == Flagged) then st
      else NotifyCurrent(SetTask(st, i, Ready).(holder := if st.holder == Some(i) then None else st.holder))
    case Ensure =>
      if !st.waiter.Away? then st
      else var st' := WithNotify(st); st'.(waiter := Ensured(st'.slot.notify.value))
    case TakeEvents =>
      if st.holder.Some? then st
      else if st.waiter.Ensured? then TakePending(st).(waiter := Took(st.waiter.n, st.slot.pending))
      else if st.waiter.Woken? then TakePending(st).(waiter := TookAgain(st.slot.pending))
      else st
    case TakeOverflow =>
      if st.waiter.Took? then
        TakeFlag(st).(waiter := if st.waiter.got == [] && !st.slot.overflow then Parked(st.waiter.n) else Resetting)
      else if st.waiter.TookAgain? then TakeFlag(st).(waiter := Away)
      else st
    case Reset =>
      if !st.waiter.Resetting? then st
      else st.(slot := st.slot.(notify := Some(st.next)), next := st.next + 1, waiter := Away)
    case Wake =>
      if st.waiter.Parked? && st.waiter.n in st.permits
      then st.(waiter := Woken, permits := st.permits - {st.waiter.n})
      else st
    case Timeout => if st.waiter.Parked? then st.(waiter := Away) else st
    case OtherEnsure => WithNotify(st)
    case OtherTakeEvents => if st.holder.Some? then st else TakePending(st)
    case OtherTakeOverflow => TakeFlag(st)
    case OtherReset => st.(slot := st.slot.(notify := Some(st.next)), next := st.next + 1)
    case CleanAbort(i) =>
      st.(tasks := st.tasks - {i}, holder := if st.holder == Some(i) then None else st.holder,
          cleaning := st.cleaning + 1, unreported := 0)
    case CleanEvents => if st.holder.Some? then st else TakePending(st)
    case CleanOverflow => st.(slot := st.slot.(overflow := false), unreported := 0)
    case CleanNotify =>
      if st.cleaning == 0 then st
      else var st' := NotifyCurrent(st); st'.(slot := st'.slot.(notify := None), cleaning := st.cleaning - 1)
  }

  ghost function Run(st: State, actions: seq<Action>): State {
    if actions == [] then st else Step(Run(st, actions[..|actions| - 1]), actions[|actions| - 1])
  }

  ghost predicate Init(st: State) {
    st == State(Slot([], false, None), {}, 0, Away, map[], None, 0, 0)
  }

  /** The notify the blocking call waits on, or will. */
  ghost function Handle(waiter: Waiter): Option<nat> {
    if waiter.Ensured? || waiter.Took? || waiter.Parked? then Some(waiter.n) else None
  }

  ghost predicate Notifying(tasks: map<nat, Task>) {
    exists i :: i in tasks && tasks[i] != Ready
  }

  /** Something is going to wake a waiter on `n`: a stored permit, a task between its push
      and its notify, or a cleanup that will still notify. */
  ghost predicate Wakeable(st: State, n: nat) {
    n in st.permits || Notifying(st.tasks) || st.cleaning > 0
  }

  /** The call has drained and there is something again that it is to be woken for. */
  ghost predicate Owed(st: State) {
    (st.waiter.Took? || st.waiter.Parked?) && (st.slot.pending != [] || (st.waiter.Parked? && st.slot.overflow))
  }

  /** Nothing but the task `i` is going to wake a waiter on `n`. */
  ghost predicate LastNotifier(st: State, i: nat, n: nat) {
    && n !in st.permits && st.cleaning == 0
    && i in st.tasks && st.tasks[i] != Ready && (forall j | j in st.tasks && j != i :: st.tasks[j] == Ready)
  }

  /** The two things the guarantee is limited to: no other call replaces the notify that a
      call holds without a permit, and no restart aborts the last task that is going to wake
      a call for which there is something. */
  ghost predicate Calm(st: State, a: Action) {
    match a
    case OtherReset => Handle(st.waiter).None? || Handle(st.waiter).value in st.permits
    case Abort(i) => !(Owed(st) && LastNotifier(st, i, st.waiter.n))
    case _ => true
  }

  ghost predicate CalmThroughout(st: State, actions: seq<Action>) {
    forall k | 0 <= k < |actions| :: Calm(Run(st, actions[..k]), actions[k])
  }

  ghost predicate Inv(st: State) {
    && WellKept(st.slot.pending)
    && (forall n: nat | n in st.permits :: n < st.next)
    && (st.slot.notify.Some? ==> st.slot.notify.value < st.next)
    && (Handle(st.waiter).Some? ==>
          && Handle(st.waiter).value < st.next
          && (st.slot.notify == Handle(st.waiter) || Handle(st.waiter).value in st.permits))
    && (Owed(st) ==> Wakeable(st, st.waiter.n))
  }

  lemma AbortKeeps(st: State, i: nat)
    requires Inv(st) && Calm(st, Abort(i))
    ensures Inv(Step(st, Abort(i)))
  {
    var after := Step(st, Abort(i));
    assert forall j | j != i :: (j in after.tasks <==> j in st.tasks) && (j in st.tasks ==> after.tasks[j] == st.tasks[j]);
  }

  lemma TaskStepKeeps(st: State, a: Action)
    requires Inv(st)
    requires a.Spawn? || a.Receive? || a.SetFlag? || a.Notify?
    ensures Inv(Step(st, a))
  {
    var after := Step(st, a);
    if after == st { return; }
    var i := a.i;
    assert forall j | j != i :: (j in after.tasks <==> j in st.tasks) && (j in st.tasks ==> after.tasks[j] == st.tasks[j]);
    if a.Receive? { ArrivalKeeps(st.slot.pending, a.e); }
    if a.Receive? || a.SetFlag? { assert after.tasks[i] != Ready; }
  }

  predicate OfCall(a: Action) {
    a.Ensure? || a.TakeEvents? || a.TakeOverflow? || a.Reset? || a.Wake? || a.Timeout?
  }

  lemma CallStepKeeps(st: State, a: Action)
    requires Inv(st) && OfCall(a)
    ensures Inv(Step(st, a))
  {
    assert Step(st, a).tasks == st.tasks;
  }

  lemma CleanAbortKeeps(st: State, i: nat)
    requires Inv(st)
    ensures Inv(Step(st, CleanAbort(i)))
  {
  }

  lemma OtherStepKeeps(st: State, a: Action)
    requires Inv(st) && Calm(st, a)
    requires !OfCall(a) && !(a.Spawn? || a.Abort? || a.Receive? || a.SetFlag? || a.Notify?)
    ensures Inv(Step(st, a))
  {
    if a.CleanAbort? {
      CleanAbortKeeps(st, a.i);
    } else {
      assert Step(st, a).tasks == st.tasks;
    }
  }

  lemma {:induction false} RunKeeps(st: State, actions: seq<Action>)
    requires Inv(st) && CalmThroughout(st, actions)
    ensures Inv(Run(st, actions))
  {
    if actions != [] {
      var k := |actions| - 1;
      forall j | 0 <= j < k ensures Calm(Run(st, actions[..k][..j]), actions[..k][j]) {
        assert actions[..k][..j] == actions[..j];
      }
      RunKeeps(st, actions[..k]);
      var mid, a := Run(st, actions[..k]), actions[k];
      if a.Abort? {
        AbortKeeps(mid, a.i);
      } else if a.Spawn? || a.Receive? || a.SetFlag? || a.Notify? {
        TaskStepKeeps(mid, a);
      } else if OfCall(a) {
        CallStepKeeps(mid, a);
      } else {
        OtherStepKeeps(mid, a);
      }
    }
  }

  // ---- Main results ----

  /** No lost wakeup: whenever the call is parked and there is something to report, a permit
      is stored or somebody is about to notify. */
  lemma {:induction false} NoLostWakeup(st: State, actions: seq<Action>)
    requires Init(st) && CalmThroughout(st, actions)
    ensures var end := Run(st, actions);
            end.waiter.Parked? && (end.slot.pending != [] || end.slot.overflow) ==> Wakeable(end, end.waiter.n)
  {
    RunKeeps(st, actions);
  }

  /** A notify by any task reaches the parked call, even if the notify it holds is no longer
      the session's current one. */
  lemma NotifyReachesWaiter(st: State, i: nat)
    requires Inv(st) && st.waiter.Parked?
    requires i in st.tasks && (st.tasks[i] == Pushed || st.tasks[i] == Flagged)
    ensures st.waiter.n in Step(st, Notify(i)).permits
    ensures Step(Step(st, Notify(i)), Wake).waiter.Woken?
  {
  }

  /** Likewise a cleanup. */
  lemma CleanupReachesWaiter(st: State)
    requires Inv(st) && st.waiter.Parked? && st.cleaning > 0
    ensures Step(Step(st, CleanNotify), Wake).waiter.Woken?
  {
  }

  /** The abort limit is exact: an abort leaves a drained call with something to report and
      nobody to wake it if and only if it takes away the last one that was going to. */
  lemma AbortStrandsIff(st: State, i: nat)
    requires Inv(st)
    ensures var after := Step(st, Abort(i));
            Owed(after) && !Wakeable(after, after.waiter.n) <==> Owed(st) && LastNotifier(st, i, st.waiter.n)
  {
    var after := Step(st, Abort(i));
    assert forall j | j != i :: (j in after.tasks <==> j in st.tasks) && (j in st.tasks ==> after.tasks[j] == st.tasks[j]);
    if Owed(st) && !LastNotifier(st, i, st.waiter.n) { AbortKeeps(st, i); }
  }

  /** The parked call holds a notify that is no longer the session's, and no permit. */
  ghost predicate Forgotten(st: State, n: nat) {
    st.waiter == Parked(n) && n !in st.permits && n < st.next && st.slot.notify != Some(n)
  }

  lemma ForgottenStep(st: State, a: Action, n: nat)
    requires Forgotten(st, n) && a != Timeout
    ensures Forgotten(Step(st, a), n)
  {
  }

  lemma {:induction false} ForgottenForEver(st: State, actions: seq<Action>, n: nat)
    requires Forgotten(st, n) && Timeout !in actions
    ensures Forgotten(Run(st, actions), n)
  {
    if actions != [] {
      var last := actions[|actions| - 1];
      assert last in actions;
      ForgottenForEver(st, actions[..|actions| - 1], n);
      ForgottenStep(Run(st, actions[..|actions| - 1]), last, n);
    }
  }

  /** So is the reset limit: once the notify of a parked call is replaced, whatever is buffered,
      notified, drained or cleaned up afterwards, the call is never woken and only its
      timeout ends it, if and only if it had no permit. */
  lemma ReplacedNotifyNeverWakes(st: State)
    requires Inv(st) && st.waiter.Parked?
    ensures st.waiter.n !in st.permits ==>
              forall actions | Timeout !in actions :: Run(Step(st, OtherReset), actions).waiter == st.waiter
    ensures st.waiter.n in st.permits ==> Step(Step(st, OtherReset), Wake).waiter.Woken?
  {
    var reset := Step(st, OtherReset);
    if st.waiter.n !in st.permits {
      forall actions | Timeout !in actions ensures Run(reset, actions).waiter == st.waiter {
        ForgottenForEver(reset, actions, st.waiter.n);
      }
    }
  }

  // ---- What a call and a task do when they are let ----

  /** The first drain of the call: it takes exactly what is buffered and the flag, and parks when
      there was neither; otherwise it reports, and replaces the notify by a fresh one. */
  lemma CallReportsWhatIsThere(st: State)
    requires st.waiter.Ensured? && st.holder.None?
    ensures var took := Step(st, TakeEvents);
            var decided := Step(took, TakeOverflow);
            && took.waiter == Took(st.waiter.n, st.slot.pending) && took.slot.pending == []
            && took.slot.overflow == st.slot.overflow && !decided.slot.overflow
            && decided.waiter == (if st.slot.pending == [] && !st.slot.overflow then Parked(st.waiter.n) else Resetting)
            && (decided.waiter.Resetting? ==>
                  var reset := Step(decided, Reset);
                  reset.waiter.Away? && reset.slot.notify == Some(st.next) && reset.permits == st.permits)
  {
  }

  /** A parked call is woken by its permit and by nothing else but its timeout, and then drains
      again and is done. */
  lemma WokenCallDrainsAgain(st: State)
    requires st.waiter.Parked? && st.holder.None?
    ensures Step(st, Timeout).waiter.Away? && Step(st, Timeout).slot == st.slot
    ensures st.waiter.n !in st.permits ==> Step(st, Wake) == st
    ensures st.waiter.n in st.permits ==>
              var woken := Step(st, Wake);
              var took := Step(woken, TakeEvents);
              && woken.permits == st.permits - {st.waiter.n}
              && took.waiter == TookAgain(st.slot.pending) && took.slot.pending == []
              && Step(took, TakeOverflow).waiter.Away? && !Step(took, TakeOverflow).slot.overflow
  {
  }

  /** What a task does with an event that is not a duplicate: it ends up ready, the event is
      buffered or, in a full buffer, dropped with the flag set, and the notify has a permit. */
  lemma TaskHandlesEvent(st: State, i: nat, e: Event)
    requires i in st.tasks && st.tasks[i] == Ready && st.holder.None?
    ensures Arrive(st.slot.pending, e) == Duplicate ==> Step(st, Receive(i, e)) == st
    ensures Arrive(st.slot.pending, e) != Duplicate ==>
            var received := Step(st, Receive(i, e));
            var end := Step(if Arrive(st.slot.pending, e) == Dropped then Step(received, SetFlag(i)) else received, Notify(i));
            && i in end.tasks && end.tasks[i] == Ready && end.holder.None?
            && end.slot.pending == AfterArrival(st.slot.pending, e)
            && (end.slot.overflow <==> st.slot.overflow || Arrive(st.slot.pending, e) == Dropped)
            && end.permits == st.permits + (if st.slot.notify.Some? then {st.slot.notify.value} else {})
  {
  }

  /** A new stream's task starts out ready. */
  lemma SpawnedIsReady(st: State, i: nat)
    requires i !in st.tasks
    ensures Step(st, Spawn(i)) == st.(tasks := st.tasks[i := Ready])
  {
  }

  /** The sections of another call: it makes a notify when there is none, takes what is
      buffered and the flag, and replaces the notify. */
  lemma OtherCallTakes(st: State)
    ensures Step(st, OtherEnsure).slot.notify.Some? && (st.slot.notify.Some? ==> Step(st, OtherEnsure) == st)
    ensures st.holder.None? ==> Step(st, OtherTakeEvents) == st.(slot := st.slot.(pending := []))
    ensures Step(st, OtherTakeOverflow).slot == st.slot.(overflow := false)
    ensures Step(st, OtherReset).slot == st.slot.(notify := Some(st.next)) && Step(st, OtherReset).next == st.next + 1
  {
  }

  /** A cleanup leaves nothing of the session, and a permit in the notify it had. */
  lemma CleanupForgets(st: State, i: nat)
    requires st.holder.None? || st.holder == Some(i)
    ensures var end := Step(Step(Step(Step(st, CleanAbort(i)), CleanEvents), CleanOverflow), CleanNotify);
            && i !in end.tasks && end.holder.None? && end.cleaning == st.cleaning && end.unreported == 0
            && end.slot.pending == [] && !end.slot.overflow && end.slot.notify.None?
            && end.permits == st.permits + (if st.slot.notify.Some? then {st.slot.notify.value} else {})
  {
  }

  // ---- Drops and reports ----

  ghost predicate SomeDropping(tasks: map<nat, Task>) {
    exists i :: i in tasks && tasks[i] == Dropping
  }

  /** Every drop not reported yet is covered by the flag, or its task is about to set it. */
  ghost predicate Covered(st: State) {
    st.unreported > 0 ==> st.slot.overflow || SomeDropping(st.tasks)
  }

  ghost predicate DropInv(st: State) {
    && WellKept(st.slot.pending)
    && Covered(st)
    && (forall i | i in st.tasks && (st.tasks[i] == Dropping || st.tasks[i] == Flagged) :: st.holder == Some(i))
  }

  /** A task is aborted, other than by a cleanup, between dropping an event and setting the
      flag. */
  ghost predicate AbortsDrop(st: State, a: Action) {
    a.Abort? && a.i in st.tasks && st.tasks[a.i] == Dropping
  }

  lemma SameDropping(tasks: map<nat, Task>, tasks': map<nat, Task>)
    requires forall i | i in tasks && tasks[i] == Dropping :: i in tasks' && tasks'[i] == Dropping
    ensures SomeDropping(tasks) ==> SomeDropping(tasks')
  {
    if SomeDropping(tasks) {
      var i :| i in tasks && tasks[i] == Dropping;
      assert i in tasks' && tasks'[i] == Dropping;
    }
  }

  lemma DropTaskStep(st: State, a: Action)
    requires DropInv(st) && !AbortsDrop(st, a)
    requires a.Spawn? || a.Abort? || a.Receive? || a.SetFlag? || a.Notify?
    ensures DropInv(Step(st, a))
  {
    var after := Step(st, a);
    if after == st { return; }
    match a
    case Spawn(i) => SameDropping(st.tasks, after.tasks);
    case Abort(i) => SameDropping(st.tasks, after.tasks);
    case Receive(i, e) =>
      ArrivalKeeps(st.slot.pending, e);
      if Arrive(st.slot.pending, e) == Dropped { assert after.tasks[i] == Dropping; }
      SameDropping(st.tasks, after.tasks);
    case SetFlag(i) =>
    case Notify(i) => SameDropping(st.tasks, after.tasks);
  }

  lemma DropCallStep(st: State, a: Action)
    requires DropInv(st)
    requires !(a.Spawn? || a.Abort? || a.Receive? || a.SetFlag? || a.Notify?)
    ensures DropInv(Step(st, a))
  {
    var after := Step(st, a);
    assert a.CleanAbort? || after.tasks == st.tasks;
  }

  lemma {:induction false} DropRun(st: State, actions: seq<Action>)
    requires DropInv(st)
    requires forall k | 0 <= k < |actions| :: !AbortsDrop(Run(st, actions[..k]), actions[k])
    ensures DropInv(Run(st, actions))
  {
    if actions != [] {
      var k := |actions| - 1;
      forall j | 0 <= j < k ensures !AbortsDrop(Run(st, actions[..k][..j]), actions[..k][j]) {
        assert actions[..k][..j] == actions[..j];
      }
      DropRun(st, actions[..k]);
      var mid, a := Run(st, actions[..k]), actions[k];
      if a.Spawn? || a.Abort? || a.Receive? || a.SetFlag? || a.Notify? {
        DropTaskStep(mid, a);
      } else {
        DropCallStep(mid, a);
      }
    }
  }

  /** Whatever other calls do and however the two locks of a drain are interleaved, every
      dropped event is covered by an overflow report made after the drop, by the flag, or its
      task is about to set the flag; so once no task is in its drop, the next drain reports
      it. The one thing ruled out is aborting a task inside its drop. */
  lemma {:induction false} DropsAreReported(st: State, actions: seq<Action>)
    requires Init(st)
    requires forall k | 0 <= k < |actions| :: !AbortsDrop(Run(st, actions[..k]), actions[k])
    ensures var end := Run(st, actions);
            && WellKept(end.slot.pending)
            && Covered(end)
            && (end.holder.None? ==> (end.unreported > 0 ==> end.slot.overflow) && TakeFlag(end).unreported == 0)
  {
    DropRun(st, actions);
  }

  /** Such an abort keeps the drop covered exactly when the flag is set already or a report
      was made since the drop. */
  lemma AbortedDropCoveredIff(st: State, i: nat)
    requires DropInv(st) && AbortsDrop(st, Abort(i))
    ensures Covered(Step(st, Abort(i))) <==> st.slot.overflow || st.unreported == 0
  {
    var after := Step(st, Abort(i));
    assert forall j | j in after.tasks :: after.tasks[j] != Dropping;
  }

  /** From every state with a full buffer and a clear flag: the next event is dropped, and if
      a restart then aborts its task, nothing says so. The buffer is unlocked again, no flag
      is set, and the drains report no overflow. */
  lemma AbortedDropIsNeverReported(st: State, i: nat, e: Event)
    requires DropInv(st) && i in st.tasks && st.tasks[i] == Ready && st.holder.None? && !st.slot.overflow
    requires Arrive(st.slot.pending, e) == Dropped
    ensures var end := Step(Step(st, Receive(i, e)), Abort(i));
            && AbortsDrop(Step(st, Receive(i, e)), Abort(i))
            && end.unreported > 0 && end.holder.None? && !Covered(end)
            && end.slot == st.slot && TakeFlag(end).unreported == end.unreported
  {
    var dropped := Step(st, Receive(i, e));
    DropTaskStep(st, Receive(i, e));
    AbortedDropCoveredIff(dropped, i);
  }

  function Filling(e: Event, n: nat): seq<Action> {
    if n == 0 then [Spawn(0)] else Filling(e, n - 1) + [Receive(0, e), Notify(0)]
  }

  /** Task 0 is ready and `n` events are buffered. */
  ghost predicate Filled(st: State, n: nat) {
    && |st.slot.pending| == n && !st.slot.overflow && st.slot.notify == None && st.holder.None?
    && st.tasks == map[0 := Ready] && st.unreported == 0
  }

  lemma FillOne(st: State, e: Event, n: nat)
    requires Filled(st, n) && e.id == "" && n < CAPACITY
    ensures Filled(Step(Step(st, Receive(0, e)), Notify(0)), n + 1)
  {
    assert Arrive(st.slot.pending, e) == Buffered;
    var pushed := Step(st, Receive(0, e));
    assert pushed.tasks == map[0 := Pushed];
    assert map[0 := Pushed][0 := Ready] == map[0 := Ready];
  }

  lemma RunTwo(st: State, actions: seq<Action>, a: Action, b: Action)
    ensures Run(st, actions + [a, b]) == Step(Step(Run(st, actions), a), b)
  {
    assert (actions + [a, b])[..|actions| + 1] == actions + [a];
    assert (actions + [a])[..|actions|] == actions;
  }

  /** Full buffers are reached: events without an id are never duplicates. */
  lemma {:induction false} FullBufferIsReachable(st: State, e: Event, n: nat)
    requires Init(st) && e.id == "" && n <= 100
    ensures Filled(Run(st, Filling(e, n)), n)
    ensures n == 100 ==> Arrive(Run(st, Filling(e, n)).slot.pending, e) == Dropped
  {
    if n == 0 {
      assert [Spawn(0)][..0] == [] && Run(st, []) == st;
    } else {
      FullBufferIsReachable(st, e, n - 1);
      RunTwo(st, Filling(e, n - 1), Receive(0, e), Notify(0));
      FillOne(Run(st, Filling(e, n - 1)), e, n - 1);
    }
  }

  // ---- The two limits in runs ----

  ghost predicate Stranded(st: State) {
    st.waiter.Parked? && st.slot.pending != [] && !Wakeable(st, st.waiter.n)
  }

  /** A state in which a call waits for the next event and nothing else is going on. */
  ghost predicate Waiting(st: State, i: nat) {
    && Inv(st) && st.waiter.Parked? && st.waiter.n !in st.permits && st.slot.pending == []
    && st.cleaning == 0 && st.holder.None?
    && i in st.tasks && forall j | j in st.tasks :: st.tasks[j] == Ready
  }

  /** If another call replaces the notify while one is waiting, the very next event strands
      the waiting call; without the replacement the same event wakes it. */
  lemma ResetByAnotherCallStrands(st: State, i: nat, e: Event)
    requires Waiting(st, i)
    ensures !Calm(st, OtherReset)
    ensures Stranded(Step(Step(Step(st, OtherReset), Receive(i, e)), Notify(i)))
    ensures Step(Step(Step(st, Receive(i, e)), Notify(i)), Wake).waiter.Woken?
  {
    var reset := Step(st, OtherReset);
    assert Arrive([], e) == Buffered;
    var pushed := Step(reset, Receive(i, e));
    assert pushed.tasks == st.tasks[i := Pushed];
    var notified := Step(pushed, Notify(i));
    assert notified.tasks == st.tasks[i := Ready];
    var plain := Step(st, Receive(i, e));
    assert plain.tasks[i] == Pushed;
  }

  /** Aborting a task between buffering and notifying strands the waiting call too. */
  lemma AbortBeforeNotifyStrands(st: State, i: nat, e: Event)
    requires Waiting(st, i)
    ensures !Calm(Step(st, Receive(i, e)), Abort(i))
    ensures Stranded(Step(Step(st, Receive(i, e)), Abort(i)))
  {
    assert Arrive([], e) == Buffered;
    var pushed := Step(st, Receive(i, e));
    assert pushed.tasks == st.tasks[i := Pushed];
  }

  /** Such waiting states are reachable. */
  lemma WaitingIsReachable(st: State)
    requires Init(st)
    ensures Waiting(Run(st, [Spawn(0), Ensure, TakeEvents, TakeOverflow]), 0)
  {
    var acts := [Spawn(0), Ensure, TakeEvents, TakeOverflow];
    var s1 := Step(st, Spawn(0));
    var s2 := Step(s1, Ensure);
    var s3 := Step(s2, TakeEvents);
    var s4 := Step(s3, TakeOverflow);
    assert acts[..3] == [Spawn(0), Ensure, TakeEvents] && acts[..3][..2] == [Spawn(0), Ensure]
        && acts[..3][..2][..1] == [Spawn(0)] && acts[..3][..2][..1][..0] == [];
    assert Run(st, acts[..3][..2][..1]) == s1;
    assert Run(st, acts[..3][..2]) == s2;
    assert Run(st, acts[..3]) == s3;
  }
}
