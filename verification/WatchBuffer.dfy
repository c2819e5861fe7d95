/** The bounded, de-duplicating event buffer of a watching session, and the server maps that
    hold it. */
module WatchBuffer {
  import opened Common

  const CAPACITY: nat := 100

  datatype Event = Event(id: string, eventType: string, session: string, repo: string)

  predicate HasId(buffer: seq<Event>, id: string) {
    exists i | 0 <= i < |buffer| :: buffer[i].id == id
  }

  predicate IsDuplicate(buffer: seq<Event>, e: Event) {
    e.id != "" && HasId(buffer, e.id)
  }

  datatype Arrival = Duplicate | Buffered | Dropped

  function Arrive(buffer: seq<Event>, e: Event): Arrival {
    if IsDuplicate(buffer, e) then Duplicate
    else if |buffer| < CAPACITY then Buffered
    else Dropped
  }

  function AfterArrival(buffer: seq<Event>, e: Event): seq<Event> {
    if Arrive(buffer, e) == Buffered then buffer + [e] else buffer
  }

  /** The arrivals without repeated ids: what an unbounded buffer would hold. */
  function Dedup(arrivals: seq<Event>): seq<Event> {
    if arrivals == [] then []
    else
      var k := |arrivals| - 1;
      var d := Dedup(arrivals[..k]);
      if IsDuplicate(d, arrivals[k]) then d else d + [arrivals[k]]
  }

  /** Where the log keeps what: an arrival is kept when it has no id or none before it has
      the same. */
  ghost predicate IsFirst(arrivals: seq<Event>, i: nat) {
    i < |arrivals| && (arrivals[i].id == "" || forall j | 0 <= j < i :: arrivals[j].id != arrivals[i].id)
  }

  /** The places of the kept arrivals, in order. */
  ghost function Firsts(arrivals: seq<Event>): (places: seq<nat>)
    ensures forall a | 0 <= a < |places| :: places[a] < |arrivals|
  {
    if arrivals == [] then []
    else
      var k := |arrivals| - 1;
      Firsts(arrivals[..k]) + if IsFirst(arrivals, k) then [k] else []
  }

  lemma {:induction false} IdsKept(arrivals: seq<Event>, id: string)
    ensures HasId(Dedup(arrivals), id) <==> exists i :: 0 <= i < |arrivals| && arrivals[i].id == id
  {
    if arrivals != [] {
      var k := |arrivals| - 1;
      var d, all := Dedup(arrivals[..k]), Dedup(arrivals);
      IdsKept(arrivals[..k], id);
      if i :| 0 <= i < |d| && d[i].id == id { assert all[i].id == id; }
      if arrivals[k].id == id && !IsDuplicate(d, arrivals[k]) { assert all[|d|].id == id; }
      if i :| 0 <= i < k && arrivals[..k][i].id == id { assert arrivals[i].id == id; }
    }
  }

  lemma LastIsFirst(arrivals: seq<Event>)
    requires arrivals != []
    ensures var k := |arrivals| - 1; IsFirst(arrivals, k) <==> !IsDuplicate(Dedup(arrivals[..k]), arrivals[k])
  {
    var k := |arrivals| - 1;
    var front := arrivals[..k];
    IdsKept(front, arrivals[k].id);
    forall j | 0 <= j < k ensures front[j] == arrivals[j] { }
    if i :| 0 <= i < |front| && front[i].id == arrivals[k].id { assert arrivals[i].id == arrivals[k].id; }
  }

  ghost predicate PlacesRight(arrivals: seq<Event>) {
    forall i: nat :: i in Firsts(arrivals) <==> IsFirst(arrivals, i)
  }

  lemma FirstsOneMore(arrivals: seq<Event>)
    requires arrivals != [] && PlacesRight(arrivals[..|arrivals| - 1])
    ensures PlacesRight(arrivals)
  {
    var k := |arrivals| - 1;
    var front := arrivals[..k];
    forall i: nat ensures i in Firsts(arrivals) <==> IsFirst(arrivals, i) {
      assert i in Firsts(arrivals) <==> i in Firsts(front) || (i == k && IsFirst(arrivals, k));
      if i < k { assert forall j | 0 <= j <= i :: front[j] == arrivals[j]; }
    }
  }

  /** The log has, in order, what is at those places. */
  ghost predicate TakenFrom(log: seq<Event>, arrivals: seq<Event>, places: seq<nat>) {
    && |log| == |places|
    && forall a | 0 <= a < |places| :: places[a] < |arrivals| && log[a] == arrivals[places[a]]
  }

  lemma TakenOneMore(arrivals: seq<Event>, log: seq<Event>, places: seq<nat>)
    requires arrivals != [] && TakenFrom(log, arrivals[..|arrivals| - 1], places)
    ensures TakenFrom(log, arrivals, places)
    ensures TakenFrom(log + [arrivals[|arrivals| - 1]], arrivals, places + [|arrivals| - 1])
  {
  }

  lemma {:induction false} DedupIsTaken(arrivals: seq<Event>)
    ensures PlacesRight(arrivals)
    ensures TakenFrom(Dedup(arrivals), arrivals, Firsts(arrivals))
  {
    if arrivals != [] {
      var front := arrivals[..|arrivals| - 1];
      DedupIsTaken(front);
      FirstsOneMore(arrivals);
      LastIsFirst(arrivals);
      TakenOneMore(arrivals, Dedup(front), Firsts(front));
    }
  }

  lemma {:induction false} FirstsAscend(arrivals: seq<Event>)
    ensures forall a, b | 0 <= a < b < |Firsts(arrivals)| :: Firsts(arrivals)[a] < Firsts(arrivals)[b]
  {
    if arrivals != [] { FirstsAscend(arrivals[..|arrivals| - 1]); }
  }

  /** The log is exactly the arrivals, in order, that have no id or are the first with theirs:
      every id that came is in it, and every arrival without an id as often as it came. */
  lemma DedupIsTheFirsts(arrivals: seq<Event>)
    ensures var places := Firsts(arrivals);
            && (forall i: nat :: i in places <==>
                  i < |arrivals| && (arrivals[i].id == "" || forall j | 0 <= j < i :: arrivals[j].id != arrivals[i].id))
            && (forall a, b | 0 <= a < b < |places| :: places[a] < places[b])
            && |Dedup(arrivals)| == |places| && (forall a | 0 <= a < |places| :: Dedup(arrivals)[a] == arrivals[places[a]])
  {
    DedupIsTaken(arrivals);
    FirstsAscend(arrivals);
    forall i: nat ensures i in Firsts(arrivals) <==> IsFirst(arrivals, i) { }
  }

  ghost predicate UniqueIds(buffer: seq<Event>) {
    forall i, j | 0 <= i < j < |buffer| :: buffer[i].id != "" ==> buffer[i].id != buffer[j].id
  }

  ghost predicate WellKept(buffer: seq<Event>) {
    |buffer| <= CAPACITY && UniqueIds(buffer)
  }

  lemma ArrivalKeeps(buffer: seq<Event>, e: Event)
    requires WellKept(buffer)
    ensures WellKept(AfterArrival(buffer, e))
  {
    if Arrive(buffer, e) == Buffered {
      forall i | 0 <= i < |buffer| && buffer[i].id != "" ensures buffer[i].id != e.id {
        if buffer[i].id == e.id { assert HasId(buffer, e.id); }
      }
    }
  }

  /** What the log says, cut at the capacity. */
  function Kept(arrivals: seq<Event>): seq<Event> {
    var d := Dedup(arrivals);
    if |d| <= CAPACITY then d else d[..CAPACITY]
  }

  /** All of a log of up to 100 events is kept, and the first 100 of a longer one. */
  lemma KeptUpTo(arrivals: seq<Event>)
    ensures var d, kept := Dedup(arrivals), Kept(arrivals);
            && |kept| == (if |d| <= 100 then |d| else 100) && (forall i | 0 <= i < |kept| :: kept[i] == d[i])
  {
  }

  /** One more arrival: the buffer follows the log, and something was dropped by now exactly
      when the log is longer than the capacity. */
  lemma ArrivalFollowsLog(arrivals: seq<Event>, e: Event)
    ensures AfterArrival(Kept(arrivals), e) == Kept(arrivals + [e])
    ensures (|Dedup(arrivals)| > CAPACITY || Arrive(Kept(arrivals), e) == Dropped) <==> |Dedup(arrivals + [e])| > CAPACITY
    ensures arrivals == [] ==> Arrive(Kept(arrivals), e) == Buffered
  {
    var d, kept := Dedup(arrivals), Kept(arrivals);
    assert (arrivals + [e])[..|arrivals|] == arrivals;
    if |d| > CAPACITY {
      assert forall i | 0 <= i < |kept| :: kept[i] == d[i];
      if HasId(kept, e.id) {
        var i :| 0 <= i < |kept| && kept[i].id == e.id;
        assert d[i].id == e.id;
      }
    }
  }

  // ---- A buffer whose drains are atomic ----

  datatype Action = Arrives(e: Event) | Drain

  datatype Drained = Drained(events: seq<Event>, overflowed: bool)

  /** `since` is everything that arrived since the last drain; `reports` what each drain
      returned. */
  datatype Buffer = Buffer(events: seq<Event>, overflow: bool, since: seq<Event>, reports: seq<(Drained, seq<Event>)>)

  function Step(b: Buffer, a: Action): Buffer {
    match a
    case Arrives(e) =>
      b.(events := AfterArrival(b.events, e),
         overflow := b.overflow || Arrive(b.events, e) == Dropped,
         since := b.since + [e])
    case Drain => Buffer([], false, [], b.reports + [(Drained(b.events, b.overflow), b.since)])
  }

  function Run(actions: seq<Action>): Buffer {
    if actions == [] then Buffer([], false, [], [])
    else Step(Run(actions[..|actions| - 1]), actions[|actions| - 1])
  }

  /** Bounded, duplicate-free, and at every moment a refinement of the arrival log: each
      drain returns the first CAPACITY de-duplicated arrivals since the drain before it, and
      reports an overflow exactly when there were more. */
  lemma {:induction false} BufferRefinesLog(actions: seq<Action>)
    ensures var b := Run(actions);
            && WellKept(b.events)
            && b.events == Kept(b.since)
            && (b.overflow <==> |Dedup(b.since)| > 100)
            && forall i | 0 <= i < |b.reports| ::
                 && b.reports[i].0.events == Kept(b.reports[i].1)
                 && (b.reports[i].0.overflowed <==> |Dedup(b.reports[i].1)| > 100)
  {
    if actions != [] {
      var b := Run(actions[..|actions| - 1]);
      BufferRefinesLog(actions[..|actions| - 1]);
      match actions[|actions| - 1] {
        case Arrives(e) =>
          ArrivalKeeps(b.events, e);
          ArrivalFollowsLog(b.since, e);
        case Drain =>
      }
    }
  }

  // ---- The server's maps ----

  type Session = nat

  /** What the server keeps for one session. */
  datatype Slot = Slot(pending: seq<Event>, overflow: bool, notify: Option<nat>)

  /** What a drain reports of these arrivals. */
  function ReportOf(arrivals: seq<Event>): Drained {
    Drained(Kept(arrivals), |Dedup(arrivals)| > CAPACITY)
  }

  lemma ReportOfNext(arrivals: seq<Event>, e: Event)
    ensures ReportOf(arrivals + [e]) ==
            Drained(AfterArrival(ReportOf(arrivals).events, e),
                    ReportOf(arrivals).overflowed || Arrive(ReportOf(arrivals).events, e) == Dropped)
    ensures arrivals == [] ==> Arrive(ReportOf(arrivals).events, e) != Duplicate
  {
    ArrivalFollowsLog(arrivals, e);
  }

  /** `Notify` objects are numbered; `permits` are those with a stored permit. */
  class WatchMaps {
    var pending: map<Session, seq<Event>>
    var overflow: map<Session, bool>
    var notify: map<Session, nat>
    var permits: set<nat>
    var next: nat

    ghost function View(s: Session): Slot
      reads this
    {
      Slot(if s in pending then pending[s] else [],
           s in overflow && overflow[s],
           if s in notify then Some(notify[s]) else None)
    }

    ghost predicate Valid()
      reads this
    {
      && (forall s | s in pending :: WellKept(pending[s]))
      && (forall n | n in permits :: n < next)
      && (forall s | s in notify :: notify[s] < next)
      && (forall s, t | s in notify && t in notify && s != t :: notify[s] != notify[t])
    }

    constructor ()
      ensures Valid() && permits == {} && forall s :: View(s) == Slot([], false, None)
    {
      pending, overflow, notify, permits, next := map[], map[], map[], {}, 0;
    }

    /** The stream task's critical section: de-duplicate, then push or drop. */
    method BufferEvent(s: Session, e: Event) returns (r: Arrival)
      requires Valid()
      modifies this`pending, this`overflow
      ensures Valid()
      ensures r == Arrive(old(View(s)).pending, e)
      ensures View(s) == old(View(s)).(pending := AfterArrival(old(View(s)).pending, e),
                                       overflow := old(View(s)).overflow || r == Dropped)
      ensures r == Duplicate <==>
                e.id != "" && exists i :: 0 <= i < |old(View(s)).pending| && old(View(s)).pending[i].id == e.id
      ensures r == Dropped <==> r != Duplicate && |old(View(s)).pending| == 100
      ensures View(s).pending == if r == Buffered then old(View(s)).pending + [e] else old(View(s)).pending
      ensures forall t | t != s :: View(t) == old(View(t))
    {
      var events := if s in pending then pending[s] else [];
      assert events == View(s).pending && WellKept(events);
      ArrivalKeeps(events, e);
      r := Arrive(events, e);
      if r == Buffered { events := events + [e]; }
      pending := pending[s := events];
      if r == Dropped { overflow := overflow[s := true]; }
    }

    /** Wakes the waiter on the session's current notify, or stores a permit in it. */
    method NotifyOne(s: Session)
      requires Valid()
      modifies this`permits
      ensures Valid()
      ensures permits == if s in notify then old(permits) + {notify[s]} else old(permits)
    {
      if s in notify { permits := permits + {notify[s]}; }
    }

    method EnsureNotify(s: Session) returns (n: nat)
      requires Valid()
      modifies this`notify, this`next
      ensures Valid()
      ensures View(s) == old(View(s)).(notify := Some(n))
      ensures old(View(s)).notify.Some? ==> n == old(View(s)).notify.value
      ensures old(View(s)).notify.None? ==> n == old(next) && n !in permits
      ensures forall t | t != s :: View(t) == old(View(t))
    {
      if s !in notify {
        notify, next := notify[s := next], next + 1;
      }
      n := notify[s];
    }

    method ResetNotify(s: Session)
      requires Valid()
      modifies this`notify, this`next
      ensures Valid()
      ensures View(s) == old(View(s)).(notify := Some(old(next))) && old(next) !in permits
      ensures forall t | t != s :: View(t) == old(View(t))
    {
      notify, next := notify[s := next], next + 1;
    }

    /** Returns and clears the buffer and the overflow flag. */
    method Drain(s: Session) returns (d: Drained)
      requires Valid()
      modifies this`pending, this`overflow
      ensures Valid()
      ensures d == Drained(old(View(s)).pending, old(View(s)).overflow)
      ensures View(s) == old(View(s)).(pending := [], overflow := false)
      ensures forall t | t != s :: View(t) == old(View(t))
    {
      var events := if s in pending then pending[s] else [];
      pending := pending - {s};
      var overflowed := s in overflow && overflow[s];
      overflow := overflow - {s};
      d := Drained(events, overflowed);
    }

    /** The stream task receives `events` one after the other, waking the session each time
        something was buffered or dropped. */
    method Deliver(s: Session, events: seq<Event>)
      requires Valid()
      requires View(s).pending == [] && !View(s).overflow
      modifies this`pending, this`overflow, this`permits
      ensures Valid()
      ensures View(s) == old(View(s)).(pending := Kept(events), overflow := |Dedup(events)| > CAPACITY)
      ensures permits == if events != [] && s in notify then old(permits) + {notify[s]} else old(permits)
      ensures forall t | t != s :: View(t) == old(View(t))
    {
      for i := 0 to |events|
        invariant Valid()
        invariant Report(s) == ReportOf(events[..i])
        invariant permits == if i > 0 && s in notify then old(permits) + {notify[s]} else old(permits)
        invariant forall t | t != s :: View(t) == old(View(t))
      {
        assert events[..i + 1] == events[..i] + [events[i]];
        ReportOfNext(events[..i], events[i]);
        assert i == 0 ==> events[..i] == [];
        DeliverOne(s, events[i]);
      }
      assert events[..|events|] == events;
    }

    /** What a drain would report now. */
    ghost function Report(s: Session): Drained
      reads this
    {
      Drained(View(s).pending, View(s).overflow)
    }

    method DeliverOne(s: Session, e: Event)
      requires Valid()
      modifies this`pending, this`overflow, this`permits
      ensures Valid()
      ensures var r := Arrive(old(View(s)).pending, e);
              && Report(s) == Drained(AfterArrival(old(View(s)).pending, e), old(View(s)).overflow || r == Dropped)
              && permits == if r != Duplicate && s in notify then old(permits) + {notify[s]} else old(permits)
      ensures forall t | t != s :: View(t) == old(View(t))
    {
      var r := BufferEvent(s, e);
      if r != Duplicate { NotifyOne(s); }
    }

    /** dk_watch once its stream runs: report what is buffered and replace the notify, or,
        when blocking and there is nothing, wait for `meanwhile`. The call wakes after any
        non-empty part of it, `wakeAt` events, reports those and leaves the rest buffered. A
        permit left over from before wakes it at once, with nothing to report. */
    method DkWatch(s: Session, blocking: bool, meanwhile: seq<Event>, wakeAt: nat) returns (d: Drained, woke: bool)
      requires Valid()
      requires wakeAt <= |meanwhile| && (wakeAt == 0 <==> meanwhile == [])
      modifies this
      ensures Valid()
      ensures var v := old(View(s));
              if v.pending != [] || v.overflow then
                && d == Drained(v.pending, v.overflow) && !woke
                && View(s).pending == [] && !View(s).overflow && View(s).notify.Some? && View(s).notify.value !in permits
              else if blocking && v.notify.Some? && v.notify.value in old(permits) then
                d == Drained([], false) && woke && v.notify.value !in permits
              else if blocking then
                && d == Drained(Kept(meanwhile[..wakeAt]), |Dedup(meanwhile[..wakeAt])| > 100) && (woke <==> meanwhile != [])
                && View(s).pending == Kept(meanwhile[wakeAt..]) && (View(s).overflow <==> |Dedup(meanwhile[wakeAt..])| > 100)
                && View(s).notify.Some? && (View(s).notify.value in permits <==> wakeAt < |meanwhile|)
              else d == Drained([], false) && !woke
      ensures forall t | t != s :: View(t) == old(View(t))
    {
      var n := EnsureNotify(s);
      d := Drain(s);
      woke := false;
      if d.events != [] || d.overflowed {
        ResetNotify(s);
        return;
      }
      if !blocking { return; }
      if n in permits {
        permits := permits - {n};
        d := Drain(s);
        return d, true;
      }
      d, woke := WaitFor(s, n, meanwhile, wakeAt);
    }

    /** The wait on notify `n`, which has no permit. */
    method WaitFor(s: Session, n: nat, meanwhile: seq<Event>, wakeAt: nat) returns (d: Drained, woke: bool)
      requires Valid() && Report(s) == Drained([], false) && s in notify && notify[s] == n && n !in permits
      requires wakeAt <= |meanwhile| && (wakeAt == 0 <==> meanwhile == [])
      modifies this`pending, this`overflow, this`permits
      ensures Valid()
      ensures d == ReportOf(meanwhile[..wakeAt]) && (woke <==> meanwhile != [])
      ensures Report(s) == ReportOf(meanwhile[wakeAt..]) && (n in permits <==> wakeAt < |meanwhile|)
      ensures forall t | t != s :: View(t) == old(View(t))
    {
      if meanwhile == [] {
        return Drained([], false), false;
      }
      Deliver(s, meanwhile[..wakeAt]);
      permits := permits - {n};
      d := Drain(s);
      woke := true;
      Deliver(s, meanwhile[wakeAt..]);
    }

    /** Forgets the session, leaving a permit for a call that is waiting on its notify. */
    method Cleanup(s: Session)
      requires Valid()
      modifies this`pending, this`overflow, this`notify, this`permits
      ensures Valid()
      ensures View(s) == Slot([], false, None)
      ensures permits == if old(View(s)).notify.Some? then old(permits) + {old(View(s)).notify.value} else old(permits)
      ensures forall t | t != s :: View(t) == old(View(t))
    {
      pending := pending - {s};
      overflow := overflow - {s};
      if s in notify {
        permits := permits + {notify[s]};
        notify := notify - {s};
      }
    }
  }
}
