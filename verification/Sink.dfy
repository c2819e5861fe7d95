/** The analytics sink: a bounded channel, a batch sorted by table, and the loop that moves
    events from one to the other and flushes by size, by age and at the end. */
module Sink {
  import opened Common

  datatype SessionEvent = SessionEvent(row: nat)
  datatype ChangesetLifecycle = ChangesetLifecycle(row: nat)
  datatype VerificationRun = VerificationRun(row: nat)
  datatype ReviewResult = ReviewResult(row: nat)

  datatype AnalyticsEvent =
    | Session(s: SessionEvent)
    | Changeset(c: ChangesetLifecycle)
    | Verification(v: VerificationRun)
    | Review(r: ReviewResult)

  type Instant = nat

  /** Rows by table, each table in order. */
  datatype Rows = Rows(session: seq<SessionEvent>, changeset: seq<ChangesetLifecycle>,
                       verification: seq<VerificationRun>, review: seq<ReviewResult>)

  const NO_ROWS := Rows([], [], [], [])

  function Join(a: Rows, b: Rows): Rows {
    Rows(a.session + b.session, a.changeset + b.changeset, a.verification + b.verification, a.review + b.review)
  }

  function Size(a: Rows): nat {
    |a.session| + |a.changeset| + |a.verification| + |a.review|
  }

  function Single(e: AnalyticsEvent): (r: Rows)
    ensures Size(r) == 1
  {
    match e
    case Session(s) => Rows([s], [], [], [])
    case Changeset(c) => Rows([], [c], [], [])
    case Verification(v) => Rows([], [], [v], [])
    case Review(r) => Rows([], [], [], [r])
  }

  /** What a sequence of events amounts to, table by table. */
  function Sorted(events: seq<AnalyticsEvent>): Rows {
    if events == [] then NO_ROWS else Join(Single(events[0]), Sorted(events[1..]))
  }

  lemma JoinAssociates(a: Rows, b: Rows, c: Rows)
    ensures Join(Join(a, b), c) == Join(a, Join(b, c))
    ensures Join(NO_ROWS, a) == a == Join(a, NO_ROWS)
  {
  }

  lemma {:induction false} SortedSplits(a: seq<AnalyticsEvent>, b: seq<AnalyticsEvent>)
    ensures Sorted(a + b) == Join(Sorted(a), Sorted(b))
  {
    if a == [] {
      assert a + b == b;
      JoinAssociates(Sorted(b), NO_ROWS, NO_ROWS);
    } else {
      assert (a + b)[0] == a[0] && (a + b)[1..] == a[1..] + b;
      SortedSplits(a[1..], b);
      JoinAssociates(Single(a[0]), Sorted(a[1..]), Sorted(b));
    }
  }

  // ---- The batch ----

  datatype Batched = Batched(rows: Rows, firstPushedAt: Option<Instant>)

  const EMPTY := Batched(NO_ROWS, None)

  function Pushed(b: Batched, e: AnalyticsEvent, now: Instant): Batched {
    Batched(Join(b.rows, Single(e)), if b.firstPushedAt.None? then Some(now) else b.firstPushedAt)
  }

  class Batch {
    var session: seq<SessionEvent>
    var changeset: seq<ChangesetLifecycle>
    var verification: seq<VerificationRun>
    var review: seq<ReviewResult>
    var firstPushedAt: Option<Instant>

    constructor ()
      ensures Value() == EMPTY
    {
      session, changeset, verification, review, firstPushedAt := [], [], [], [], None;
    }

    ghost function Value(): Batched
      reads this
    {
      Batched(Rows(session, changeset, verification, review), firstPushedAt)
    }

    method Push(event: AnalyticsEvent, now: Instant)
      modifies this
      ensures Value() == Pushed(old(Value()), event, now)
    {
      if firstPushedAt.None? {
        firstPushedAt := Some(now);
      }
      match event
      case Session(r) => session := session + [r];
      case Changeset(r) => changeset := changeset + [r];
      case Verification(r) => verification := verification + [r];
      case Review(r) => review := review + [r];
    }

    function Len(): nat
      reads this
    {
      |session| + |changeset| + |verification| + |review|
    }

    /** Time since the oldest buffered row came in; nothing when there is none. */
    function Age(now: Instant): Instant
      reads this
      requires firstPushedAt.Some? ==> firstPushedAt.value <= now
    {
      if firstPushedAt.Some? then now - firstPushedAt.value else 0
    }

    /** Everything moves to a new batch and nothing stays. */
    method Take() returns (taken: Batch)
      modifies this
      ensures fresh(taken) && taken.Value() == old(Value())
      ensures Value() == EMPTY
    {
      taken := new Batch();
      taken.session, taken.changeset, taken.verification, taken.review, taken.firstPushedAt :=
        session, changeset, verification, review, firstPushedAt;
      session, changeset, verification, review, firstPushedAt := [], [], [], [], None;
    }
  }

  // ---- The sink as a machine ----

  datatype Config = Config(batchSize: nat, flushInterval: nat, channelCapacity: nat)

  /** A batch handed to `flush`, and when. */
  datatype Flush = Flush(batch: Batched, at: Instant)

  /** `accepted` are the events for which `emit` returned true and `pushes` the instants at
      which the loop took them into the batch; `open` while a sending handle is left. */
  datatype State = State(channel: seq<AnalyticsEvent>, batch: Batched, flushed: seq<Flush>,
                         accepted: seq<AnalyticsEvent>, pushes: seq<Instant>,
                         now: Instant, lastTick: Instant, open: bool, done: bool)

  datatype Turn =
    | Emit(event: AnalyticsEvent)
    | DropSenders
    | Receive
    | Tick
    | Advance(d: nat)

  const START := State([], EMPTY, [], [], [], 0, 0, true, false)

  /** What `emit` answers on a handle of a running sink. */
  predicate Accepts(config: Config, st: State) {
    st.open && !st.done && |st.channel| < config.channelCapacity
  }

  function FlushAll(st: State): State {
    st.(flushed := st.flushed + [Flush(st.batch, st.now)], batch := EMPTY)
  }

  function TakeIn(st: State): State
    requires st.channel != []
  {
    st.(channel := st.channel[1..], batch := Pushed(st.batch, st.channel[0], st.now), pushes := st.pushes + [st.now])
  }

  function Step(config: Config, st: State, turn: Turn): State {
    match turn
    case Emit(e) =>
      if Accepts(config, st) then st.(channel := st.channel + [e], accepted := st.accepted + [e]) else st
    case DropSenders => st.(open := false)
    case Advance(d) => st.(now := st.now + d)
    case Receive =>
      if st.done then st
      else if st.channel != [] then
        var took := TakeIn(st);
        if Size(took.batch.rows) >= config.batchSize then FlushAll(took) else took
      else if !st.open then (if Size(st.batch.rows) > 0 then FlushAll(st) else st).(done := true)
      else st
    case Tick =>
      if st.done then st
      else if Size(st.batch.rows) > 0 && st.batch.firstPushedAt.Some? && st.now - st.batch.firstPushedAt.value >= config.flushInterval then
        FlushAll(st).(lastTick := st.now)
      else st.(lastTick := st.now)
  }

  function Run(config: Config, turns: seq<Turn>): State {
    if turns == [] then START else Step(config, Run(config, turns[..|turns| - 1]), turns[|turns| - 1])
  }

  function AllRows(flushed: seq<Flush>): Rows {
    if flushed == [] then NO_ROWS else Join(AllRows(flushed[..|flushed| - 1]), flushed[|flushed| - 1].batch.rows)
  }

  // ---- Conservation ----

  /** Handed to flush, then in the batch, then in the channel: that is what was accepted. */
  predicate Conserved(st: State) {
    Join(Join(AllRows(st.flushed), st.batch.rows), Sorted(st.channel)) == Sorted(st.accepted)
  }

  lemma FlushConserves(st: State)
    requires Conserved(st)
    ensures Conserved(FlushAll(st))
  {
    assert FlushAll(st).flushed[..|st.flushed|] == st.flushed;
    JoinAssociates(AllRows(FlushAll(st).flushed), NO_ROWS, NO_ROWS);
  }

  lemma EmitConserves(st: State, e: AnalyticsEvent)
    requires Conserved(st)
    ensures Conserved(st.(channel := st.channel + [e], accepted := st.accepted + [e]))
  {
    SortedSplits(st.channel, [e]);
    SortedSplits(st.accepted, [e]);
    JoinAssociates(Join(AllRows(st.flushed), st.batch.rows), Sorted(st.channel), Sorted([e]));
  }

  lemma PushConserves(st: State)
    requires Conserved(st) && st.channel != []
    ensures Conserved(TakeIn(st))
  {
    JoinAssociates(AllRows(st.flushed), st.batch.rows, Single(st.channel[0]));
    JoinAssociates(Join(AllRows(st.flushed), st.batch.rows), Single(st.channel[0]), Sorted(st.channel[1..]));
  }

  lemma EmitStepConserves(config: Config, st: State, e: AnalyticsEvent)
    requires Conserved(st)
    ensures Conserved(Step(config, st, Emit(e)))
  {
    EmitConserves(st, e);
  }

  lemma SameRowsConserve(st: State, st': State)
    requires Conserved(st) && st'.flushed == st.flushed && st'.batch == st.batch
    requires st'.channel == st.channel && st'.accepted == st.accepted
    ensures Conserved(st')
  {
  }

  lemma TickIs(config: Config, st: State)
    ensures var after := Step(config, st, Tick);
            after == st || after == st.(lastTick := st.now) || after == FlushAll(st).(lastTick := st.now)
  {
  }

  lemma TickConserves(config: Config, st: State)
    requires Conserved(st)
    ensures Conserved(Step(config, st, Tick))
  {
    FlushConserves(st);
    TickIs(config, st);
    SameRowsConserve(st, st.(lastTick := st.now));
    SameRowsConserve(FlushAll(st), FlushAll(st).(lastTick := st.now));
  }

  lemma ClockConserves(config: Config, st: State, d: nat)
    requires Conserved(st)
    ensures Conserved(Step(config, st, Advance(d))) && Conserved(Step(config, st, DropSenders))
  {
  }

  lemma TakeInConserves(config: Config, st: State)
    requires Conserved(st) && st.channel != []
    ensures Conserved(Step(config, st, Receive))
  {
    PushConserves(st);
    FlushConserves(TakeIn(st));
  }

  lemma LastReceiveIs(config: Config, st: State)
    requires st.channel == []
    ensures var after := Step(config, st, Receive);
            after == st || after == st.(done := true) || after == FlushAll(st).(done := true)
  {
  }

  lemma ReceiveConserves(config: Config, st: State)
    requires Conserved(st)
    ensures Conserved(Step(config, st, Receive))
  {
    if st.channel == [] {
      LastReceiveIs(config, st);
      FlushConserves(st);
      SameRowsConserve(st, st.(done := true));
      SameRowsConserve(FlushAll(st), FlushAll(st).(done := true));
    } else {
      TakeInConserves(config, st);
    }
  }

  lemma StepConserves(config: Config, st: State, turn: Turn)
    requires Conserved(st)
    ensures Conserved(Step(config, st, turn))
  {
    match turn
    case Emit(e) => EmitStepConserves(config, st, e);
    case Receive => ReceiveConserves(config, st);
    case Tick => TickConserves(config, st);
    case Advance(d) => ClockConserves(config, st, d);
    case DropSenders => ClockConserves(config, st, 0);
  }

  /** The most rows a flush can have. */
  function Most(config: Config): nat { if config.batchSize == 0 then 1 else config.batchSize }

  predicate Shape(config: Config, st: State) {
    && (st.batch.firstPushedAt.Some? <==> Size(st.batch.rows) > 0)
    && (Size(st.batch.rows) == 0 || Size(st.batch.rows) < config.batchSize)
    && |st.channel| <= config.channelCapacity
    && (forall f | f in st.flushed :: f.batch.firstPushedAt.Some? && 0 < Size(f.batch.rows) <= Most(config))
    && (st.done ==> !st.open && st.channel == [] && st.batch == EMPTY)
    && (st.batch.firstPushedAt.Some? ==> st.batch.firstPushedAt.value <= st.now)
  }

  lemma StepKeepsShape(config: Config, st: State, turn: Turn)
    requires Shape(config, st)
    ensures Shape(config, Step(config, st, turn))
  {
    assert Size(st.batch.rows) == 0 ==> st.batch.rows == NO_ROWS;
  }

  lemma {:induction false} RunKeeps(config: Config, turns: seq<Turn>)
    ensures Conserved(Run(config, turns)) && Shape(config, Run(config, turns))
  {
    if turns == [] {
      JoinAssociates(NO_ROWS, NO_ROWS, NO_ROWS);
    } else {
      RunKeeps(config, turns[..|turns| - 1]);
      StepConserves(config, Run(config, turns[..|turns| - 1]), turns[|turns| - 1]);
      StepKeepsShape(config, Run(config, turns[..|turns| - 1]), turns[|turns| - 1]);
    }
  }

  /** In every run, table by table and in order, the flushed batches, the current batch and
      the channel hold exactly the accepted events, each once. Between turns the batch is
      below the batch size, its clock runs iff it has rows, and no flushed batch is empty or
      larger than the batch size. */
  lemma {:induction false} NothingLostOrDoubled(config: Config, turns: seq<Turn>)
    ensures var end := Run(config, turns);
            && Join(Join(AllRows(end.flushed), end.batch.rows), Sorted(end.channel)) == Sorted(end.accepted)
            && (end.batch.firstPushedAt.Some? <==> Size(end.batch.rows) > 0)
            && (Size(end.batch.rows) == 0 || Size(end.batch.rows) < config.batchSize)
            && (forall f | f in end.flushed :: 0 < Size(f.batch.rows) <= Most(config))
  {
    RunKeeps(config, turns);
  }

  /** When the loop has ended, everything accepted was handed to flush. */
  lemma FlushedOnClose(config: Config, turns: seq<Turn>)
    requires Run(config, turns).done
    ensures AllRows(Run(config, turns).flushed) == Sorted(Run(config, turns).accepted)
  {
    RunKeeps(config, turns);
    JoinAssociates(AllRows(Run(config, turns).flushed), NO_ROWS, NO_ROWS);
  }

  lemma Last(config: Config, turns: seq<Turn>, turn: Turn)
    ensures Run(config, turns + [turn]) == Step(config, Run(config, turns), turn)
  {
    assert (turns + [turn])[..|turns|] == turns;
  }

  function Receives(n: nat): (r: seq<Turn>)
    ensures |r| == n && forall i | 0 <= i < n :: r[i] == Receive
  {
    if n == 0 then [] else [Receive] + Receives(n - 1)
  }

  /** With the senders gone a receive ends the loop or shortens the channel. */
  lemma ReceiveGetsCloser(config: Config, st: State)
    requires !st.open
    ensures var after := Step(config, st, Receive);
            !after.open && (after.done || |after.channel| == |st.channel| - 1) && (st.done ==> after.done)
  {
  }

  /** Once the senders are gone the loop does end: as many receives as there are events in
      the channel, and one more. */
  lemma {:induction false} ClosingEnds(config: Config, turns: seq<Turn>, n: nat)
    requires !Run(config, turns).open && (|Run(config, turns).channel| < n || Run(config, turns).done)
    ensures Run(config, turns + Receives(n)).done
    decreases n
  {
    if n == 0 {
      assert turns + Receives(n) == turns;
    } else {
      Last(config, turns, Receive);
      ReceiveGetsCloser(config, Run(config, turns));
      ClosingEnds(config, turns + [Receive], n - 1);
      assert turns + Receives(n) == (turns + [Receive]) + Receives(n - 1);
    }
  }

  /** An emit is accepted exactly while there are senders, the loop runs and the channel has room;
      otherwise it changes nothing. */
  lemma EmitIsAcceptedIff(config: Config, st: State, e: AnalyticsEvent)
    ensures var after := Step(config, st, Emit(e));
            if st.open && !st.done && |st.channel| < config.channelCapacity
            then after == st.(channel := st.channel + [e], accepted := st.accepted + [e])
            else after == st
  {
  }

  /** The senders gone, the loop ends after the events still in the channel and one receive
      more, whatever state the run was in. */
  lemma DroppingSendersEnds(config: Config, turns: seq<Turn>)
    ensures var n := |Run(config, turns).channel| + 1;
            Run(config, (turns + [DropSenders]) + Receives(n)).done
  {
    Last(config, turns, DropSenders);
    ClosingEnds(config, turns + [DropSenders], |Run(config, turns).channel| + 1);
  }

  /** The batch was full, or an interval old. */
  predicate HasReason(config: Config, f: Flush) {
    || Size(f.batch.rows) >= config.batchSize
    || (f.batch.firstPushedAt.Some? && f.at >= f.batch.firstPushedAt.value + config.flushInterval)
  }

  lemma StepFlushesForAReason(config: Config, st: State, turn: Turn)
    requires Shape(config, st)
    ensures var after := Step(config, st, turn);
            && (after.flushed == st.flushed || (after.flushed == st.flushed + [Flush(after.flushed[|st.flushed|].batch, st.now)]
                && after.batch == EMPTY && (HasReason(config, after.flushed[|st.flushed|]) || (after.done && !st.done))))
  {
  }

  lemma DoneStaysDone(config: Config, st: State, turn: Turn)
    ensures st.done ==> Step(config, st, turn).done && Step(config, st, turn).flushed == st.flushed
  {
  }

  ghost predicate AllHaveReasons(config: Config, st: State) {
    forall i | 0 <= i < |st.flushed| :: HasReason(config, st.flushed[i]) || (st.done && i == |st.flushed| - 1)
  }

  lemma ReasonsStep(config: Config, st: State, turn: Turn)
    requires Shape(config, st) && AllHaveReasons(config, st)
    ensures AllHaveReasons(config, Step(config, st, turn))
  {
    DoneStaysDone(config, st, turn);
    StepFlushesForAReason(config, st, turn);
    var after := Step(config, st, turn);
    forall i | 0 <= i < |after.flushed| ensures HasReason(config, after.flushed[i]) || (after.done && i == |after.flushed| - 1) {
      if i < |st.flushed| { assert after.flushed[i] == st.flushed[i]; }
    }
  }

  lemma {:induction false} ReasonsRun(config: Config, turns: seq<Turn>)
    ensures AllHaveReasons(config, Run(config, turns))
  {
    if turns != [] {
      ReasonsRun(config, turns[..|turns| - 1]);
      RunKeeps(config, turns[..|turns| - 1]);
      ReasonsStep(config, Run(config, turns[..|turns| - 1]), turns[|turns| - 1]);
    }
  }

  /** In every run a batch was flushed because it was full or, at a tick, an interval old; only the
      last flush of an ended loop needs no such reason. */
  lemma FlushesHaveReasons(config: Config, turns: seq<Turn>, i: nat)
    requires i < |Run(config, turns).flushed|
    ensures var end := Run(config, turns);
            || Size(end.flushed[i].batch.rows) >= config.batchSize
            || (end.flushed[i].batch.firstPushedAt.Some?
                && end.flushed[i].at >= end.flushed[i].batch.firstPushedAt.value + config.flushInterval)
            || (end.done && i == |end.flushed| - 1)
  {
    ReasonsRun(config, turns);
    assert HasReason(config, Run(config, turns).flushed[i]) || (Run(config, turns).done && i == |Run(config, turns).flushed| - 1);
  }

  // ---- How long a row waits ----

  /** The ticks are served on time: at no point is the last one more than an interval ago. */
  predicate OnTime(config: Config, turns: seq<Turn>) {
    var st := Run(config, turns);
    && (st.done || st.now - st.lastTick <= config.flushInterval)
    && (turns == [] || OnTime(config, turns[..|turns| - 1]))
  }

  predicate AgeInv(config: Config, st: State) {
    && st.lastTick <= st.now
    && Size(st.batch.rows) <= |st.pushes|
    && (st.batch.firstPushedAt.Some? ==>
          st.batch.firstPushedAt.value <= st.now && st.lastTick < st.batch.firstPushedAt.value + config.flushInterval)
    && (forall i | |st.pushes| - Size(st.batch.rows) <= i < |st.pushes| ::
          st.batch.firstPushedAt.Some? && st.batch.firstPushedAt.value <= st.pushes[i] <= st.now)
    && (forall f | f in st.flushed && f.batch.firstPushedAt.Some? ::
          f.at < f.batch.firstPushedAt.value + 2 * config.flushInterval)
  }

  lemma AgeStep(config: Config, st: State, turn: Turn)
    requires config.flushInterval > 0 && Shape(config, st) && AgeInv(config, st)
    requires st.done || st.now - st.lastTick <= config.flushInterval
    ensures AgeInv(config, Step(config, st, turn))
  {
    match turn
    case Receive =>
      if !st.done && st.channel != [] {
        TakeInAges(config, st);
        FlushAges(config, TakeIn(st));
      } else {
        FlushAges(config, st);
      }
    case Tick => FlushAges(config, st);
    case _ =>
  }

  lemma TakeInAges(config: Config, st: State)
    requires config.flushInterval > 0 && Shape(config, st) && AgeInv(config, st) && st.channel != []
    ensures AgeInv(config, TakeIn(st)) && TakeIn(st).batch.firstPushedAt.Some?
  {
    assert Size(TakeIn(st).batch.rows) == Size(st.batch.rows) + 1;
  }

  lemma FlushAges(config: Config, st: State)
    requires AgeInv(config, st) && (st.done || st.now - st.lastTick <= config.flushInterval)
    ensures st.done || AgeInv(config, FlushAll(st))
  {
  }

  lemma {:induction false} AgeRun(config: Config, turns: seq<Turn>)
    requires config.flushInterval > 0 && OnTime(config, turns)
    ensures AgeInv(config, Run(config, turns))
  {
    if turns != [] {
      var before := turns[..|turns| - 1];
      RunKeeps(config, before);
      AgeRun(config, before);
      AgeStep(config, Run(config, before), turns[|turns| - 1]);
    }
  }

  /** With ticks served on time, every row waits less than two intervals in the batch: those
      still there, counting from their own push, and every flushed batch from its first. */
  lemma NoRowWaitsTwoIntervals(config: Config, turns: seq<Turn>)
    requires config.flushInterval > 0 && OnTime(config, turns)
    ensures var end := Run(config, turns);
            && Size(end.batch.rows) <= |end.pushes|
            && (forall i | |end.pushes| - Size(end.batch.rows) <= i < |end.pushes| ::
                  end.now < end.pushes[i] + 2 * config.flushInterval)
            && (forall f | f in end.flushed ::
                  f.batch.firstPushedAt.Some? && f.at < f.batch.firstPushedAt.value + 2 * config.flushInterval)
  {
    RunKeeps(config, turns);
    AgeRun(config, turns);
  }

  lemma Extend(config: Config, turns: seq<Turn>, turn: Turn)
    ensures Run(config, turns + [turn]) == Step(config, Run(config, turns), turn)
    ensures OnTime(config, turns) ==>
              var st := Run(config, turns + [turn]);
              OnTime(config, turns + [turn]) == (st.done || st.now - st.lastTick <= config.flushInterval)
  {
    Last(config, turns, turn);
    assert (turns + [turn])[..|turns|] == turns;
  }

  /** Two intervals is the exact bound: a row that comes in just after a tick is too young
      at the next one, and is still there at the end of the second interval. */
  lemma AlmostTwoIntervalsHappens(config: Config, e: AnalyticsEvent)
    requires config.flushInterval > 0 && config.batchSize > 1 && config.channelCapacity > 0
    ensures var turns := [Advance(1)] + [Emit(e)] + [Receive] + [Advance(config.flushInterval - 1)] + [Tick]
                         + [Advance(config.flushInterval)];
            var end := Run(config, turns);
            && OnTime(config, turns) && Size(end.batch.rows) == 1 && end.pushes == [1]
            && end.now == 1 + (2 * config.flushInterval - 1)
  {
    var one := [Advance(1)];
    var two := one + [Emit(e)];
    var three := two + [Receive];
    var four := three + [Advance(config.flushInterval - 1)];
    var five := four + [Tick];
    Extend(config, [], Advance(1));
    assert [] + one == one;
    Extend(config, one, Emit(e));
    Extend(config, two, Receive);
    Extend(config, three, Advance(config.flushInterval - 1));
    Extend(config, four, Tick);
    Extend(config, five, Advance(config.flushInterval));
  }

  // ---- The loop ----

  /** `run_sink`, with the branch that `select!` takes in each round, and what the senders
      do in between, given by the turns. */
  method RunSink(config: Config, turns: seq<Turn>) returns (end: State)
    ensures end == Run(config, turns)
  {
    end := START;
    var batch := new Batch();
    for i := 0 to |turns|
      invariant fresh(batch) && batch.Value() == end.batch
      invariant end == Run(config, turns[..i])
    {
      RunKeeps(config, turns[..i]);
      assert turns[..i + 1][..i] == turns[..i];
      match turns[i] {
        case Receive =>
          if !end.done && end.channel != [] {
            batch.Push(end.channel[0], end.now);
            end := TakeIn(end);
            if batch.Len() >= config.batchSize {
              var taken := batch.Take();
              end := HandOver(end, taken);
            }
          } else if !end.done && !end.open {
            if batch.Len() > 0 {
              var taken := batch.Take();
              end := HandOver(end, taken);
            }
            end := end.(done := true);
          }
        case Tick =>
          if !end.done {
            if batch.Len() > 0 && batch.Age(end.now) >= config.flushInterval {
              var taken := batch.Take();
              end := HandOver(end, taken);
            }
            end := end.(lastTick := end.now);
          }
        case other => end := Step(config, end, other);
      }
    }
    assert turns[..|turns|] == turns;
  }

  method HandOver(st: State, taken: Batch) returns (after: State)
    requires taken.Value() == st.batch
    ensures after == FlushAll(st)
  {
    var batch := Batched(Rows(taken.session, taken.changeset, taken.verification, taken.review), taken.firstPushedAt);
    after := st.(flushed := st.flushed + [Flush(batch, st.now)], batch := EMPTY);
  }
}
