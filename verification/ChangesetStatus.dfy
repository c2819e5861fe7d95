/** Changeset states: their names, the documented transitions, and the guarded updates that
    approve and resolve make while anything else may write the status too. */
module ChangesetStatus {
  import opened Common

  datatype ChangesetState = Draft | Submitted | Verifying | Approved | Rejected | Merged | Closed

  function AsStr(s: ChangesetState): string {
    match s
    case Draft => "draft"
    case Submitted => "submitted"
    case Verifying => "verifying"
    case Approved => "approved"
    case Rejected => "rejected"
    case Merged => "merged"
    case Closed => "closed"
  }

  function Parse(s: string): Option<ChangesetState> {
    if s == "draft" then Some(Draft)
    else if s == "submitted" then Some(Submitted)
    else if s == "verifying" then Some(Verifying)
    else if s == "approved" then Some(Approved)
    else if s == "rejected" then Some(Rejected)
    else if s == "merged" then Some(Merged)
    else if s == "closed" then Some(Closed)
    else None
  }

  /** The names are parsed back, and nothing else is. */
  lemma NamesRoundTrip(s: ChangesetState, text: string)
    ensures Parse(text) == Some(s) <==> text == AsStr(s)
  {
    match s
    case Draft => assert AsStr(s)[0] == 'd';
    case Submitted => assert AsStr(s)[0] == 's';
    case Verifying => assert AsStr(s)[0] == 'v';
    case Approved => assert AsStr(s)[0] == 'a';
    case Rejected => assert AsStr(s)[0] == 'r';
    case Merged => assert AsStr(s)[0] == 'm';
    case Closed => assert AsStr(s)[0] == 'c';
  }

  lemma NamesAre()
    ensures Parse("draft") == Some(Draft) && Parse("submitted") == Some(Submitted) && Parse("verifying") == Some(Verifying)
    ensures Parse("approved") == Some(Approved) && Parse("rejected") == Some(Rejected)
    ensures Parse("merged") == Some(Merged) && Parse("closed") == Some(Closed)
  {
  }

  predicate CanTransitionTo(from: ChangesetState, target: ChangesetState) {
    target == Closed ||
    (from, target) in {(Draft, Submitted), (Submitted, Verifying), (Verifying, Approved), (Verifying, Rejected), (Approved, Merged)}
  }

  /** Where the documented transitions lead from each state. */
  lemma TransitionsAre(to: ChangesetState)
    ensures CanTransitionTo(Draft, to) <==> to == Submitted || to == Closed
    ensures CanTransitionTo(Submitted, to) <==> to == Verifying || to == Closed
    ensures CanTransitionTo(Verifying, to) <==> to == Approved || to == Rejected || to == Closed
    ensures CanTransitionTo(Approved, to) <==> to == Merged || to == Closed
    ensures CanTransitionTo(Rejected, to) || CanTransitionTo(Merged, to) || CanTransitionTo(Closed, to) <==> to == Closed
  {
  }

  /** How far along the documented life of a changeset a state is. */
  function Stage(s: ChangesetState): nat {
    match s
    case Draft => 0
    case Submitted => 1
    case Verifying => 2
    case Approved => 3
    case Rejected => 3
    case Merged => 4
    case Closed => 5
  }

  predicate Follows(states: seq<ChangesetState>) {
    forall i | 0 < i < |states| :: CanTransitionTo(states[i - 1], states[i])
  }

  /** Along documented transitions a changeset never goes back; one that is merged was
      verified and approved just before. */
  lemma {:induction false} TransitionsGoForward(states: seq<ChangesetState>, i: nat, j: nat)
    requires Follows(states) && i <= j < |states|
    ensures Stage(states[i]) <= Stage(states[j])
    ensures i < j && states[j] != Closed ==> Stage(states[i]) < Stage(states[j])
    ensures i + 2 <= j && states[j] == Merged ==> states[j - 1] == Approved && states[j - 2] == Verifying
    decreases j
  {
    if i < j {
      TransitionsGoForward(states, i, j - 1);
      assert CanTransitionTo(states[j - 1], states[j]);
      if i + 2 <= j { assert CanTransitionTo(states[j - 2], states[j - 1]); }
    }
  }

  // ---- The table of changesets ----

  type Id = nat

  datatype Row = Row(state: string, reason: string)

  datatype Write = Write(id: Id, row: Row)

  predicate Approvable(s: ChangesetState) { s == Submitted || s == Verifying || s == Rejected }

  const RESOLVABLE := ["draft", "submitted", "verifying", "rejected"]

  /** Approving skips the documented table unless the changeset is being verified. */
  lemma ApproveFollowsTableIffVerifying(s: ChangesetState)
    requires Approvable(s)
    ensures CanTransitionTo(s, Approved) <==> s == Verifying
  {
  }

  /** The guarded update: one atomic statement. */
  predicate Matches(rows: map<Id, Row>, id: Id, expected: seq<string>) {
    id in rows && rows[id].state in expected
  }

  function UpdatedIf(rows: map<Id, Row>, id: Id, row: Row, expected: seq<string>): map<Id, Row> {
    if Matches(rows, id, expected) then rows[id := row] else rows
  }

  function Written(rows: map<Id, Row>, w: Write): map<Id, Row> {
    if w.id in rows then rows[w.id := w.row] else rows
  }

  // ---- Approvals and resolutions among other writers ----

  datatype Origin = Approve | Resolve | Other

  /** One change of a status, and what made it. */
  datatype Change = Change(id: Id, from: string, to: string, origin: Origin)

  /** An approve call that has read the state. */
  datatype Call = Call(id: Id, current: ChangesetState)

  datatype State = State(rows: map<Id, Row>, calls: map<nat, Call>, changes: seq<Change>)

  datatype Action =
    | Read(c: nat, id: Id)
    | Decide(c: nat, reason: string)
    | ResolveIt(id: Id, reason: string)
    | WriteIt(w: Write)

  function Recorded(st: State, rows: map<Id, Row>, id: Id, origin: Origin): State {
    if id in st.rows && id in rows && rows != st.rows
    then st.(rows := rows, changes := st.changes + [Change(id, st.rows[id].state, rows[id].state, origin)])
    else st
  }

  function Step(st: State, a: Action): State {
    match a
    case Read(c, id) =>
      if c in st.calls || id !in st.rows then st
      else
        var current := Parse(st.rows[id].state);
        if current.None? || !Approvable(current.value) then st else st.(calls := st.calls[c := Call(id, current.value)])
    case Decide(c, reason) =>
      if c !in st.calls then st
      else
        var call := st.calls[c];
        Recorded(st.(calls := st.calls - {c}),
                 UpdatedIf(st.rows, call.id, Row("approved", reason), [AsStr(call.current)]), call.id, Approve)
    case ResolveIt(id, reason) => Recorded(st, UpdatedIf(st.rows, id, Row("submitted", reason), RESOLVABLE), id, Resolve)
    case WriteIt(w) => Recorded(st, Written(st.rows, w), w.id, Other)
  }

  function Run(rows: map<Id, Row>, actions: seq<Action>): State {
    if actions == [] then State(rows, map[], [])
    else Step(Run(rows, actions[..|actions| - 1]), actions[|actions| - 1])
  }

  predicate Sound(c: Change) {
    match c.origin
    case Approve => c.to == "approved" && c.from in ["submitted", "verifying", "rejected"]
    case Resolve => c.to == "submitted" && c.from in ["draft", "submitted", "verifying", "rejected"]
    case Other => true
  }

  /** The state of one changeset after its part of some changes. */
  function StateAfter(first: string, changes: seq<Change>, id: Id): string {
    if changes == [] then first
    else
      var last := changes[|changes| - 1];
      if last.id == id then last.to else StateAfter(first, changes[..|changes| - 1], id)
  }

  /** Every change starts from the state the changes before it led to. */
  predicate Chained(rows: map<Id, Row>, changes: seq<Change>) {
    forall i | 0 <= i < |changes| ::
      changes[i].id in rows && changes[i].from == StateAfter(rows[changes[i].id].state, changes[..i], changes[i].id)
  }

  predicate Inv(rows: map<Id, Row>, st: State) {
    && st.rows.Keys == rows.Keys
    && (forall c | c in st.calls :: Approvable(st.calls[c].current))
    && (forall x | x in st.changes :: Sound(x))
    && Chained(rows, st.changes)
    && (forall id | id in rows :: st.rows[id].state == StateAfter(rows[id].state, st.changes, id))
  }

  lemma ChainedOneMore(rows: map<Id, Row>, changes: seq<Change>, c: Change)
    requires Chained(rows, changes) && c.id in rows && c.from == StateAfter(rows[c.id].state, changes, c.id)
    ensures Chained(rows, changes + [c])
  {
    var all := changes + [c];
    forall i | 0 <= i < |all|
      ensures all[i].id in rows && all[i].from == StateAfter(rows[all[i].id].state, all[..i], all[i].id)
    {
      if i < |changes| {
        assert all[..i] == changes[..i] && all[i] == changes[i];
      } else {
        assert all[..i] == changes;
      }
    }
  }

  lemma RecordedKeeps(rows: map<Id, Row>, st: State, row: Row, id: Id, origin: Origin)
    requires Inv(rows, st) && id in st.rows
    requires Sound(Change(id, st.rows[id].state, row.state, origin))
    ensures Inv(rows, Recorded(st, st.rows[id := row], id, origin))
  {
    var c := Change(id, st.rows[id].state, row.state, origin);
    ChainedOneMore(rows, st.changes, c);
    assert (st.changes + [c])[..|st.changes|] == st.changes;
  }

  lemma ReadKeeps(rows: map<Id, Row>, st: State, c: nat, id: Id)
    requires Inv(rows, st)
    ensures Inv(rows, Step(st, Read(c, id)))
  {
  }

  lemma DecideKeeps(rows: map<Id, Row>, st: State, c: nat, reason: string)
    requires Inv(rows, st)
    ensures Inv(rows, Step(st, Decide(c, reason)))
  {
    if c in st.calls {
      var call := st.calls[c];
      var left := st.(calls := st.calls - {c});
      assert Inv(rows, left);
      if Matches(st.rows, call.id, [AsStr(call.current)]) {
        RecordedKeeps(rows, left, Row("approved", reason), call.id, Approve);
      }
    }
  }

  lemma ResolveKeeps(rows: map<Id, Row>, st: State, id: Id, reason: string)
    requires Inv(rows, st)
    ensures Inv(rows, Step(st, ResolveIt(id, reason)))
  {
    if Matches(st.rows, id, RESOLVABLE) { RecordedKeeps(rows, st, Row("submitted", reason), id, Resolve); }
  }

  lemma WriteKeeps(rows: map<Id, Row>, st: State, w: Write)
    requires Inv(rows, st)
    ensures Inv(rows, Step(st, WriteIt(w)))
  {
    if w.id in st.rows { RecordedKeeps(rows, st, w.row, w.id, Other); }
  }

  lemma StepKeeps(rows: map<Id, Row>, st: State, a: Action)
    requires Inv(rows, st)
    ensures Inv(rows, Step(st, a))
  {
    match a
    case Read(c, id) => ReadKeeps(rows, st, c, id);
    case Decide(c, reason) => DecideKeeps(rows, st, c, reason);
    case ResolveIt(id, reason) => ResolveKeeps(rows, st, id, reason);
    case WriteIt(w) => WriteKeeps(rows, st, w);
  }

  /** However approvals, resolutions and arbitrary writes interleave: a change made by an
      approval leads in one step from submitted, verifying or rejected to approved, and one
      made by a resolution from draft, submitted, verifying or rejected to submitted, so
      never from approved, merged or closed; each starts where the ones before it led. */
  lemma {:induction false} GuardedChangesOnly(rows: map<Id, Row>, actions: seq<Action>)
    ensures var end := Run(rows, actions);
            && (forall x | x in end.changes && x.origin == Approve ::
                  x.to == "approved" && x.from in {"submitted", "verifying", "rejected"})
            && (forall x | x in end.changes && x.origin == Resolve ::
                  && x.to == "submitted" && x.from in {"draft", "submitted", "verifying", "rejected"}
                  && x.from !in {"approved", "merged", "closed"})
            && Chained(rows, end.changes) && Inv(rows, end)
  {
    if actions != [] {
      GuardedChangesOnly(rows, actions[..|actions| - 1]);
      StepKeeps(rows, Run(rows, actions[..|actions| - 1]), actions[|actions| - 1]);
    }
  }

  lemma StepSettles(st: State, a: Action)
    ensures Step(st, a).rows.Keys == st.rows.Keys
  {
  }

  /** A read state, the call that goes on with it, and nothing else. */
  lemma ReadTakesIff(st: State, c: nat, id: Id)
    requires c !in st.calls && id in st.rows
    ensures Step(st, Read(c, id)).rows == st.rows
    ensures c in Step(st, Read(c, id)).calls <==> st.rows[id].state in {"submitted", "verifying", "rejected"}
    ensures c in Step(st, Read(c, id)).calls ==>
              Step(st, Read(c, id)).calls[c].id == id && AsStr(Step(st, Read(c, id)).calls[c].current) == st.rows[id].state
  {
    NamesAre();
    if Parse(st.rows[id].state).Some? { NamesRoundTrip(Parse(st.rows[id].state).value, st.rows[id].state); }
  }

  lemma {:induction false} CallWaits(st: State, actions: seq<Action>, c: nat)
    requires c in st.calls && forall a | a in actions :: !a.Decide? || a.c != c
    ensures c in RunFrom(st, actions).calls && RunFrom(st, actions).calls[c] == st.calls[c]
    ensures RunFrom(st, actions).rows.Keys == st.rows.Keys
  {
    if actions != [] {
      assert actions[|actions| - 1] in actions;
      CallWaits(st, actions[..|actions| - 1], c);
      StepSettles(RunFrom(st, actions[..|actions| - 1]), actions[|actions| - 1]);
    }
  }

  function RunFrom(st: State, actions: seq<Action>): State {
    if actions == [] then st else Step(RunFrom(st, actions[..|actions| - 1]), actions[|actions| - 1])
  }

  /** Whatever else is approved, resolved and written in between, an approval of a changeset
      that was submitted, verifying or rejected takes effect exactly when it is in that very
      state again at the update. */
  lemma ApprovalTakesEffectIff(st: State, c: nat, id: Id, between: seq<Action>, reason: string)
    requires c !in st.calls && id in st.rows && st.rows[id].state in {"submitted", "verifying", "rejected"}
    requires forall a | a in between :: !a.Decide? || a.c != c
    ensures var mid := RunFrom(Step(st, Read(c, id)), between);
            var end := Step(mid, Decide(c, reason));
            && id in mid.rows
            && end.rows == if mid.rows[id].state == st.rows[id].state then mid.rows[id := Row("approved", reason)] else mid.rows
  {
    ReadTakesIff(st, c, id);
    CallWaits(Step(st, Read(c, id)), between, c);
    var mid := RunFrom(Step(st, Read(c, id)), between);
    if mid.rows[id].state == st.rows[id].state { assert mid.rows[id := Row("approved", reason)].Keys == mid.rows.Keys; }
  }

  /** A resolution takes effect exactly on a draft, submitted, verifying or rejected one. */
  lemma ResolutionTakesEffectIff(st: State, id: Id, reason: string)
    ensures Step(st, ResolveIt(id, reason)).rows ==
            if id in st.rows && st.rows[id].state in {"draft", "submitted", "verifying", "rejected"}
            then st.rows[id := Row("submitted", reason)] else st.rows
  {
  }

  // ---- The handlers ----

  datatype Reply = Refused | Replied(newState: string)

  function ReasonFor(overrideReason: Option<string>): string {
    if overrideReason.Some? then overrideReason.value else "approved via agent protocol"
  }

  class ChangesetStore {
    var rows: map<Id, Row>

    /** Whether a row was updated. */
    method UpdateStatusIfWithReason(id: Id, newStatus: string, expected: seq<string>, reason: string) returns (ok: bool)
      modifies this
      ensures ok <==> id in old(rows) && old(rows)[id].state in expected
      ensures rows == if ok then old(rows)[id := Row(newStatus, reason)] else old(rows)
    {
      ok := id in rows && rows[id].state in expected;
      if ok {
        rows := rows[id := Row(newStatus, reason)];
      }
    }

    /** What others write between the read and the guarded update of an approval. */
    method Meanwhile(writes: seq<Write>)
      modifies this
      ensures rows == AllWritten(old(rows), writes)
    {
      for i := 0 to |writes|
        invariant rows == AllWritten(old(rows), writes[..i])
      {
        assert writes[..i + 1][..i] == writes[..i];
        if writes[i].id in rows {
          rows := rows[writes[i].id := writes[i].row];
        }
      }
      assert writes[..|writes|] == writes;
    }

    /** The answer is yes exactly when the state read was one that can be approved and is
        still the state at the update; then this changeset, and only it, becomes approved.
        Otherwise the table is what the others made it. */
    method HandleApprove(id: Id, overrideReason: Option<string>, meanwhile: seq<Write>) returns (reply: Reply)
      modifies this
      ensures reply == Refused || reply == Replied("approved")
      ensures var now := AllWritten(old(rows), meanwhile);
              var read := if id in old(rows) then Parse(old(rows)[id].state) else None;
              && (reply.Replied? <==>
                    id in old(rows) && old(rows)[id].state in {"submitted", "verifying", "rejected"}
                    && id in now && now[id].state == old(rows)[id].state)
              && (reply.Replied? ==>
                    rows == now[id := Row("approved", if overrideReason.Some? then overrideReason.value else "approved via agent protocol")])
              && (reply.Refused? ==> rows == if read in {Some(Submitted), Some(Verifying), Some(Rejected)} then now else old(rows))
    {
      if id !in rows {
        return Refused;
      }
      var current := Parse(rows[id].state);
      if current.None? || !Approvable(current.value) {
        return Refused;
      }
      Meanwhile(meanwhile);
      var ok := UpdateStatusIfWithReason(id, "approved", [AsStr(current.value)], ReasonFor(overrideReason));
      reply := if ok then Replied("approved") else Refused;
    }

    /** The reply says submitted whatever the guarded update did: it is true exactly when the
        changeset was in one of the four states the update expects. */
    method HandleResolve(id: Id, mode: string) returns (reply: Reply)
      requires id in rows
      modifies this
      ensures reply == Replied("submitted") && id in rows
      ensures rows[id].state == "submitted" <==> old(rows)[id].state in {"draft", "submitted", "verifying", "rejected"}
      ensures old(rows)[id].state !in {"draft", "submitted", "verifying", "rejected"} ==> rows == old(rows)
      ensures rows.Keys == old(rows).Keys
      ensures forall i | i != id && i in old(rows) :: i in rows && rows[i] == old(rows)[i]
    {
      var _ := UpdateStatusIfWithReason(id, "submitted", RESOLVABLE, "conflicts resolved via " + mode + " mode");
      reply := Replied("submitted");
    }
  }

  function AllWritten(rows: map<Id, Row>, writes: seq<Write>): map<Id, Row> {
    if writes == [] then rows else Written(AllWritten(rows, writes[..|writes| - 1]), writes[|writes| - 1])
  }

  /** One write after the others: it sets a row that is there and makes none. */
  lemma AllWrittenIs(rows: map<Id, Row>, writes: seq<Write>, w: Write)
    ensures AllWritten(rows, []) == rows
    ensures AllWritten(rows, writes + [w]) ==
            if w.id in AllWritten(rows, writes) then AllWritten(rows, writes)[w.id := w.row] else AllWritten(rows, writes)
  {
    assert (writes + [w])[..|writes|] == writes;
  }
}
