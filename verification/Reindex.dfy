/** Incremental re-indexing: the symbol table, the call edges and the search index while a set
    of changed files is visited one after the other. One repository. */
module Reindex {
  import opened Common

  // Names, paths and kinds are only compared.
  type Name = nat
  type Path = nat

  datatype Symbol = Symbol(id: nat, name: Name, qualifiedName: Name, file: Path)

  datatype RawCallEdge = RawCallEdge(callerName: Name, calleeName: Name, kind: nat)

  datatype CallEdge = CallEdge(caller: nat, callee: nat, kind: nat)

  /** What a visit to a file meets. */
  datatype Outcome = Gone | Unsupported | Failed | Parsed(symbols: seq<Symbol>, calls: seq<RawCallEdge>)

  datatype Visit = Visit(path: Path, outcome: Outcome)

  /** `table` holds the rows by qualified name; `staged` is what the search index will show
      at the next commit and `committed` what it shows now. */
  datatype State = State(table: map<Name, Symbol>, edges: set<CallEdge>, staged: set<nat>, committed: set<nat>)

  function Ids(table: map<Name, Symbol>): set<nat> {
    set q | q in table :: table[q].id
  }

  function IdsOfFile(table: map<Name, Symbol>, path: Path): set<nat> {
    set q | q in table && table[q].file == path :: table[q].id
  }

  ghost predicate Inv(st: State) {
    && (forall q | q in st.table :: st.table[q].qualifiedName == q)
    && (forall p, q | p in st.table && q in st.table && p != q :: st.table[p].id != st.table[q].id)
    && (forall e | e in st.edges :: e.caller in Ids(st.table) && e.callee in Ids(st.table))
    && Ids(st.table) <= st.staged
  }

  /** Out of the index entries, the edges and the table go those of the file. */
  function Cleared(st: State, path: Path): State {
    var ids := IdsOfFile(st.table, path);
    st.(staged := st.staged - ids,
        edges := (set e | e in st.edges && e.caller !in ids && e.callee !in ids),
        table := map q | q in st.table && st.table[q].file != path :: st.table[q])
  }

  function Renamed(id: nat, from: nat, to: nat): nat { if id == from then to else id }

  /** The insert-or-update by qualified name: an updated row gets the new id, and the edges of
      the old one follow. */
  function Upserted(st: State, sym: Symbol): State {
    var q := sym.qualifiedName;
    if q in st.table then
      var was := st.table[q].id;
      st.(table := st.table[q := sym], staged := st.staged + {sym.id},
          edges := set e | e in st.edges :: CallEdge(Renamed(e.caller, was, sym.id), Renamed(e.callee, was, sym.id), e.kind))
    else st.(table := st.table[q := sym], staged := st.staged + {sym.id})
  }

  /** The edges after a conflicting upsert: those of other rows stay, and those of the old row
      are now those of the new id. */
  lemma EdgesFollow(st: State, sym: Symbol, caller: nat, callee: nat, kind: nat)
    requires sym.qualifiedName in st.table && forall e | e in st.edges :: e.caller != sym.id && e.callee != sym.id
    requires st.table[sym.qualifiedName].id != sym.id
    ensures var was, edges := st.table[sym.qualifiedName].id, Upserted(st, sym).edges;
            && (caller != sym.id && callee != sym.id ==>
                  (CallEdge(caller, callee, kind) in edges <==>
                     CallEdge(caller, callee, kind) in st.edges && caller != was && callee != was))
            && (callee != sym.id ==>
                  (CallEdge(sym.id, callee, kind) in edges <==> CallEdge(was, callee, kind) in st.edges && callee != was))
            && (caller != sym.id ==>
                  (CallEdge(caller, sym.id, kind) in edges <==> CallEdge(caller, was, kind) in st.edges && caller != was))
            && (CallEdge(sym.id, sym.id, kind) in edges <==> CallEdge(was, was, kind) in st.edges)
  {
    var was := st.table[sym.qualifiedName].id;
    forall e | e in st.edges
      ensures CallEdge(Renamed(e.caller, was, sym.id), Renamed(e.callee, was, sym.id), e.kind) in Upserted(st, sym).edges
    {
    }
    assert CallEdge(caller, callee, kind) in st.edges && caller != was && callee != was ==>
             CallEdge(Renamed(caller, was, sym.id), Renamed(callee, was, sym.id), kind) == CallEdge(caller, callee, kind);
    assert CallEdge(was, callee, kind) in st.edges && callee != was ==>
             CallEdge(Renamed(was, was, sym.id), Renamed(callee, was, sym.id), kind) == CallEdge(sym.id, callee, kind);
    assert CallEdge(caller, was, kind) in st.edges && caller != was ==>
             CallEdge(Renamed(caller, was, sym.id), Renamed(was, was, sym.id), kind) == CallEdge(caller, sym.id, kind);
    assert CallEdge(was, was, kind) in st.edges ==>
             CallEdge(Renamed(was, was, sym.id), Renamed(was, was, sym.id), kind) == CallEdge(sym.id, sym.id, kind);
  }

  /** A conflicting upsert replaces the row and enters the new id into the index. */
  lemma UpsertReplaces(st: State, sym: Symbol)
    ensures var after := Upserted(st, sym);
            && sym.qualifiedName in after.table && after.table[sym.qualifiedName] == sym
            && after.table.Keys == st.table.Keys + {sym.qualifiedName}
            && (forall q | q in st.table && q != sym.qualifiedName :: after.table[q] == st.table[q])
            && after.staged == st.staged + {sym.id} && after.committed == st.committed
            && (sym.qualifiedName !in st.table ==> after.edges == st.edges)
  {
  }

  function UpsertedAll(st: State, symbols: seq<Symbol>): State {
    if symbols == [] then st else Upserted(UpsertedAll(st, symbols[..|symbols| - 1]), symbols[|symbols| - 1])
  }

  function Visited(st: State, v: Visit): State {
    if v.outcome.Parsed? then UpsertedAll(Cleared(st, v.path), v.outcome.symbols) else Cleared(st, v.path)
  }

  function VisitedAll(st: State, visits: seq<Visit>): State {
    if visits == [] then st else Visited(VisitedAll(st, visits[..|visits| - 1]), visits[|visits| - 1])
  }

  /** Parsed ids are new and parsed symbols carry their file. */
  ghost predicate Fresh(st: State, symbols: seq<Symbol>, path: Path) {
    && (forall s | s in symbols :: s.id !in st.staged && s.file == path)
    && (forall i, j | 0 <= i < j < |symbols| :: symbols[i].id != symbols[j].id)
  }

  ghost predicate FreshRun(st: State, visits: seq<Visit>) {
    visits == [] ||
    (var before, last := visits[..|visits| - 1], visits[|visits| - 1];
     && FreshRun(st, before)
     && (last.outcome.Parsed? ==> Fresh(Cleared(VisitedAll(st, before), last.path), last.outcome.symbols, last.path)))
  }

  // ---- The index against the table ----

  /** Index entries without a row. */
  function Stale(st: State): set<nat> { st.staged - Ids(st.table) }

  lemma ClearedKeeps(st: State, path: Path)
    requires Inv(st)
    ensures Inv(Cleared(st, path)) && Stale(Cleared(st, path)) == Stale(st)
    ensures Cleared(st, path).staged <= st.staged
    ensures Ids(Cleared(st, path).table) == Ids(st.table) - IdsOfFile(st.table, path)
  {
    var after, ids := Cleared(st, path), IdsOfFile(st.table, path);
    assert forall q | q in after.table :: after.table[q].id !in ids;
    forall id ensures id in Ids(after.table) <==> id in Ids(st.table) && id !in ids {
      if id in Ids(st.table) && id !in ids {
        var q :| q in st.table && st.table[q].id == id;
        assert st.table[q].file != path;
        assert q in after.table;
      }
    }
  }

  lemma UpsertedKeeps(st: State, sym: Symbol)
    requires Inv(st) && sym.id !in st.staged
    ensures Inv(Upserted(st, sym))
    ensures Stale(Upserted(st, sym)) ==
            Stale(st) + if sym.qualifiedName in st.table then {st.table[sym.qualifiedName].id} else {}
  {
    var after, q := Upserted(st, sym), sym.qualifiedName;
    var gone := if q in st.table then {st.table[q].id} else {};
    forall id ensures id in Ids(after.table) <==> id == sym.id || (id in Ids(st.table) && id !in gone) {
      if id == sym.id { assert after.table[q].id == id; }
      if id in Ids(st.table) && id !in gone {
        var p :| p in st.table && st.table[p].id == id;
        assert p != q && after.table[p].id == id;
      }
      if id in Ids(after.table) && id != sym.id {
        var p :| p in after.table && after.table[p].id == id;
        assert p != q && p in st.table && st.table[p].id == id;
      }
    }
  }

  /** No symbol of the parse is stored under a name that has a row already. */
  predicate NoConflict(st: State, symbols: seq<Symbol>) {
    symbols == [] ||
    (NoConflict(st, symbols[..|symbols| - 1])
     && symbols[|symbols| - 1].qualifiedName !in UpsertedAll(st, symbols[..|symbols| - 1]).table)
  }

  predicate NoConflictRun(st: State, visits: seq<Visit>) {
    visits == [] ||
    (var before, last := visits[..|visits| - 1], visits[|visits| - 1];
     && NoConflictRun(st, before)
     && (last.outcome.Parsed? ==> NoConflict(Cleared(VisitedAll(st, before), last.path), last.outcome.symbols)))
  }

  /** One more symbol stored: a conflict, and only a conflict, adds a stale entry. */
  lemma UpsertAddsStale(st: State, sym: Symbol)
    requires Inv(st) && sym.id !in st.staged
    ensures Inv(Upserted(st, sym)) && Upserted(st, sym).staged == st.staged + {sym.id}
    ensures Stale(st) <= Stale(Upserted(st, sym))
    ensures Stale(Upserted(st, sym)) == Stale(st) <==> sym.qualifiedName !in st.table
  {
    UpsertedKeeps(st, sym);
    if sym.qualifiedName in st.table {
      assert st.table[sym.qualifiedName].id in Ids(st.table);
    }
  }

  lemma {:induction false} UpsertedAllKeeps(st: State, symbols: seq<Symbol>, path: Path)
    requires Inv(st) && Fresh(st, symbols, path)
    ensures var after := UpsertedAll(st, symbols);
            && Inv(after) && Stale(st) <= Stale(after) && after.staged == st.staged + (set s | s in symbols :: s.id)
            && (Stale(after) == Stale(st) <==> NoConflict(st, symbols))
  {
    if symbols != [] {
      var front, last := symbols[..|symbols| - 1], symbols[|symbols| - 1];
      UpsertedAllKeeps(st, front, path);
      assert symbols == front + [last] && last in symbols;
      UpsertAddsStale(UpsertedAll(st, front), last);
    }
  }

  lemma {:induction false} VisitedAllKeeps(st: State, visits: seq<Visit>)
    requires Inv(st) && FreshRun(st, visits)
    ensures var after := VisitedAll(st, visits);
            && Inv(after) && Stale(st) <= Stale(after) && (Stale(after) == Stale(st) <==> NoConflictRun(st, visits))
  {
    if visits != [] {
      var front, last := visits[..|visits| - 1], visits[|visits| - 1];
      VisitedAllKeeps(st, front);
      var before := VisitedAll(st, front);
      ClearedKeeps(before, last.path);
      if last.outcome.Parsed? {
        UpsertedAllKeeps(Cleared(before, last.path), last.outcome.symbols, last.path);
      }
    }
  }

  /** Starting in agreement, the index entries are exactly the ids of the table at the end
      if and only if no symbol was stored under a name that had a row already; an entry made
      stale that way is never taken out again. */
  lemma IndexAgreesIffNoConflict(st: State, visits: seq<Visit>)
    requires Inv(st) && FreshRun(st, visits) && st.staged == Ids(st.table)
    ensures var after := VisitedAll(st, visits); after.staged == Ids(after.table) <==> NoConflictRun(st, visits)
  {
    VisitedAllKeeps(st, visits);
    var after := VisitedAll(st, visits);
    assert Stale(st) == {};
    assert forall id | id in after.staged :: id in Ids(after.table) || id in Stale(after);
  }

  lemma StaleStaysStale(st: State, visits: seq<Visit>)
    requires Inv(st) && FreshRun(st, visits)
    ensures Stale(st) <= Stale(VisitedAll(st, visits))
  {
    VisitedAllKeeps(st, visits);
  }

  /** When every qualified name belongs to one file and a parse names each symbol once, there
      is no conflict. */
  ghost predicate Owned(owner: map<Name, Path>, st: State) {
    forall q | q in st.table :: q in owner && owner[q] == st.table[q].file
  }

  /** The symbols are of the file and named after it, each name once. */
  ghost predicate SymbolsOwned(owner: map<Name, Path>, path: Path, symbols: seq<Symbol>) {
    symbols == [] ||
    (var front, last := symbols[..|symbols| - 1], symbols[|symbols| - 1];
     && SymbolsOwned(owner, path, front)
     && last.file == path && last.qualifiedName in owner && owner[last.qualifiedName] == path
     && last.qualifiedName !in QualifiedNames(front))
  }

  ghost predicate ParseOwned(owner: map<Name, Path>, v: Visit) {
    v.outcome.Parsed? ==> SymbolsOwned(owner, v.path, v.outcome.symbols)
  }

  lemma OwnedOneMore(owner: map<Name, Path>, st: State, front: seq<Symbol>, last: Symbol)
    requires NoConflict(st, front) && Owned(owner, UpsertedAll(st, front))
    requires last.qualifiedName !in UpsertedAll(st, front).table
    requires last.qualifiedName in owner && owner[last.qualifiedName] == last.file
    ensures NoConflict(st, front + [last]) && Owned(owner, UpsertedAll(st, front + [last]))
    ensures UpsertedAll(st, front + [last]).table.Keys == UpsertedAll(st, front).table.Keys + {last.qualifiedName}
    ensures QualifiedNames(front + [last]) == QualifiedNames(front) + {last.qualifiedName}
  {
    assert (front + [last])[..|front|] == front;
    OwnedUpsert(owner, UpsertedAll(st, front), last);
  }

  /** Into a table without names of the file, a parse that names each symbol once goes without
      a conflict. */
  lemma {:induction false} OwnedParse(owner: map<Name, Path>, st: State, path: Path, symbols: seq<Symbol>)
    requires Owned(owner, st) && SymbolsOwned(owner, path, symbols)
    requires forall q | q in st.table :: owner[q] != path
    ensures NoConflict(st, symbols) && Owned(owner, UpsertedAll(st, symbols))
    ensures UpsertedAll(st, symbols).table.Keys == st.table.Keys + QualifiedNames(symbols)
  {
    if symbols == [] {
      assert QualifiedNames(symbols) == {};
    } else {
      var front, last := symbols[..|symbols| - 1], symbols[|symbols| - 1];
      assert symbols == front + [last];
      OwnedParse(owner, st, path, front);
      OwnedOneMore(owner, st, front, last);
    }
  }

  lemma OwnedCleared(owner: map<Name, Path>, st: State, path: Path)
    requires Owned(owner, st)
    ensures Owned(owner, Cleared(st, path))
    ensures forall q | q in Cleared(st, path).table :: owner[q] != path
  {
  }

  lemma OwnedUpsert(owner: map<Name, Path>, st: State, sym: Symbol)
    requires Owned(owner, st) && sym.qualifiedName in owner && owner[sym.qualifiedName] == sym.file
    ensures Owned(owner, Upserted(st, sym)) && Upserted(st, sym).table == st.table[sym.qualifiedName := sym]
  {
  }

  function QualifiedNames(symbols: seq<Symbol>): set<Name> {
    set s | s in symbols :: s.qualifiedName
  }

  lemma {:induction false} OwnedNamesNeverConflict(owner: map<Name, Path>, st: State, visits: seq<Visit>)
    requires Owned(owner, st) && forall v | v in visits :: ParseOwned(owner, v)
    ensures NoConflictRun(st, visits) && Owned(owner, VisitedAll(st, visits))
  {
    if visits != [] {
      var front, last := visits[..|visits| - 1], visits[|visits| - 1];
      OwnedNamesNeverConflict(owner, st, front);
      assert last in visits;
      if last.outcome.Parsed? {
        OwnedCleared(owner, VisitedAll(st, front), last.path);
        OwnedParse(owner, Cleared(VisitedAll(st, front), last.path), last.path, last.outcome.symbols);
      }
    }
  }

  // ---- The edges ----

  /** The edges both of whose ends have a row. */
  ghost function Between(edges: set<CallEdge>, ids: set<nat>): set<CallEdge> {
    set e | e in edges && e.caller in ids && e.callee in ids
  }

  lemma {:induction false} ParseKeepsEdges(st: State, symbols: seq<Symbol>)
    requires NoConflict(st, symbols)
    ensures UpsertedAll(st, symbols).edges == st.edges
    ensures forall id :: id in Ids(UpsertedAll(st, symbols).table) <==> id in Ids(st.table) || exists s :: s in symbols && s.id == id
  {
    if symbols != [] {
      var front, last := symbols[..|symbols| - 1], symbols[|symbols| - 1];
      ParseKeepsEdges(st, front);
      assert symbols == front + [last];
      var before := UpsertedAll(st, front).table;
      var after := before[last.qualifiedName := last];
      forall id ensures id in Ids(after) <==> id in Ids(before) || id == last.id {
        if id in Ids(before) {
          var q :| q in before && before[q].id == id;
          assert q != last.qualifiedName && after[q].id == id;
        }
        if id == last.id { assert after[last.qualifiedName].id == id; }
      }
    }
  }

  /** Without a conflict an edge from before survives exactly when both its ends do. */
  lemma {:induction false} EdgesLiveWithTheirEnds(st: State, visits: seq<Visit>)
    requires Inv(st) && FreshRun(st, visits) && NoConflictRun(st, visits)
    requires forall v | v in visits && v.outcome.Parsed? :: forall s | s in v.outcome.symbols :: s.id !in Ids(st.table)
    ensures VisitedAll(st, visits).edges == Between(st.edges, Ids(VisitedAll(st, visits).table))
  {
    if visits != [] {
      var front, last := visits[..|visits| - 1], visits[|visits| - 1];
      assert last in visits;
      EdgesLiveWithTheirEnds(st, front);
      VisitedAllKeeps(st, front);
      var before := VisitedAll(st, front);
      var cleared := Cleared(before, last.path);
      ClearedKeeps(before, last.path);
      assert cleared.edges == Between(st.edges, Ids(cleared.table));
      if last.outcome.Parsed? {
        ParseKeepsEdges(cleared, last.outcome.symbols);
      }
    }
  }

  // ---- The rows of a file ----

  function Rows(table: map<Name, Symbol>, path: Path): set<Symbol> {
    set q | q in table && table[q].file == path :: table[q]
  }

  /** What the rows of a file should be: its latest parse, nothing when it is gone or not
      supported, and what they were when it was not visited. */
  function LatestRows(st: State, visits: seq<Visit>, path: Path): set<Symbol> {
    if visits == [] then Rows(st.table, path)
    else
      var last := visits[|visits| - 1];
      if last.path != path then LatestRows(st, visits[..|visits| - 1], path)
      else if last.outcome.Parsed? then Elements(last.outcome.symbols) else {}
  }

  /** A file's latest visit decides; without one its rows are as before. */
  lemma {:induction false} LatestVisitDecides(st: State, visits: seq<Visit>, path: Path, i: nat)
    requires i < |visits| && visits[i].path == path && forall j | i < j < |visits| :: visits[j].path != path
    ensures visits[i].outcome.Parsed? ==> forall s :: s in LatestRows(st, visits, path) <==> s in visits[i].outcome.symbols
    ensures !visits[i].outcome.Parsed? ==> LatestRows(st, visits, path) == {}
    decreases |visits|
  {
    if i < |visits| - 1 {
      LatestVisitDecides(st, visits[..|visits| - 1], path, i);
    }
  }

  lemma {:induction false} UnvisitedStays(st: State, visits: seq<Visit>, path: Path)
    requires forall v | v in visits :: v.path != path
    ensures forall s :: s in LatestRows(st, visits, path) <==>
              exists q :: q in st.table && st.table[q] == s && s.file == path
  {
    if visits != [] {
      assert visits[|visits| - 1] in visits;
      UnvisitedStays(st, visits[..|visits| - 1], path);
    }
  }

  lemma RowsWith(table: map<Name, Symbol>, sym: Symbol, path: Path)
    requires sym.qualifiedName !in table
    ensures Rows(table[sym.qualifiedName := sym], path) == Rows(table, path) + if path == sym.file then {sym} else {}
  {
    var after := table[sym.qualifiedName := sym];
    forall r | r in Rows(table, path) ensures r in Rows(after, path) {
      var q :| q in table && table[q].file == path && table[q] == r;
      assert q in after && after[q] == r;
    }
    assert after[sym.qualifiedName] == sym;
  }

  lemma {:induction false} ParseRows(st: State, symbols: seq<Symbol>, file: Path, path: Path)
    requires NoConflict(st, symbols) && forall s | s in symbols :: s.file == file
    ensures Rows(UpsertedAll(st, symbols).table, path) ==
            Rows(st.table, path) + if path == file then Elements(symbols) else {}
  {
    if symbols != [] {
      var front, last := symbols[..|symbols| - 1], symbols[|symbols| - 1];
      ParseRows(st, front, file, path);
      assert symbols == front + [last] && last in symbols;
      RowsWith(UpsertedAll(st, front).table, last, path);
      assert Elements(symbols) == Elements(front) + {last};
    }
  }

  lemma ClearedRows(st: State, file: Path, path: Path)
    ensures Rows(Cleared(st, file).table, path) == if path == file then {} else Rows(st.table, path)
  {
    var after := Cleared(st, file).table;
    if path != file {
      forall r | r in Rows(st.table, path) ensures r in Rows(after, path) {
        var q :| q in st.table && st.table[q].file == path && st.table[q] == r;
        assert q in after && after[q] == r;
      }
    }
  }

  /** Without a conflict the rows of every changed file are exactly its latest parse, and the
      rows of every other file are as before. */
  lemma {:induction false} RowsAreLatest(st: State, visits: seq<Visit>, path: Path)
    requires NoConflictRun(st, visits)
    requires forall v | v in visits && v.outcome.Parsed? :: forall s | s in v.outcome.symbols :: s.file == v.path
    ensures Rows(VisitedAll(st, visits).table, path) == LatestRows(st, visits, path)
  {
    if visits != [] {
      var front, last := visits[..|visits| - 1], visits[|visits| - 1];
      assert last in visits;
      RowsAreLatest(st, front, path);
      ClearedRows(VisitedAll(st, front), last.path, path);
      if last.outcome.Parsed? {
        ParseRows(Cleared(VisitedAll(st, front), last.path), last.outcome.symbols, last.path, path);
      }
    }
  }

  // ---- Call edges ----

  function NameToId(symbols: seq<Symbol>): map<Name, nat> {
    if symbols == [] then map[]
    else
      var last := symbols[|symbols| - 1];
      NameToId(symbols[..|symbols| - 1])[last.name := last.id][last.qualifiedName := last.id]
  }

  predicate IsNamed(s: Symbol, n: Name) { s.name == n || s.qualifiedName == n }

  /** A name resolves exactly when some symbol has it, plain or qualified, and then to the
      last such symbol. */
  lemma {:induction false} ResolvesToLast(symbols: seq<Symbol>, n: Name)
    ensures n in NameToId(symbols) <==> exists i :: 0 <= i < |symbols| && IsNamed(symbols[i], n)
    ensures n in NameToId(symbols) ==>
              exists i :: 0 <= i < |symbols| && IsNamed(symbols[i], n) && NameToId(symbols)[n] == symbols[i].id
                          && forall j | i < j < |symbols| :: !IsNamed(symbols[j], n)
  {
    if symbols != [] {
      var k := |symbols| - 1;
      ResolvesToLast(symbols[..k], n);
      if IsNamed(symbols[k], n) {
        assert NameToId(symbols)[n] == symbols[k].id;
      } else if n in NameToId(symbols) {
        var i :| 0 <= i < k && IsNamed(symbols[..k][i], n) && NameToId(symbols[..k])[n] == symbols[..k][i].id
                 && forall j | i < j < k :: !IsNamed(symbols[..k][j], n);
        assert forall j | i < j < k :: symbols[..k][j] == symbols[j];
        assert IsNamed(symbols[i], n) && NameToId(symbols)[n] == symbols[i].id;
      }
    }
  }

  predicate Resolves(raw: RawCallEdge, symbols: seq<Symbol>) {
    raw.callerName in NameToId(symbols) && raw.calleeName in NameToId(symbols)
  }

  function ResolvedEdge(raw: RawCallEdge, symbols: seq<Symbol>): CallEdge
    requires Resolves(raw, symbols)
  {
    CallEdge(NameToId(symbols)[raw.callerName], NameToId(symbols)[raw.calleeName], raw.kind)
  }

  /** It goes from the last symbol of the caller's name to the last of the callee's. */
  lemma ResolvedEdgeGoes(raw: RawCallEdge, symbols: seq<Symbol>)
    requires Resolves(raw, symbols)
    ensures ResolvedEdge(raw, symbols).kind == raw.kind
    ensures exists i :: 0 <= i < |symbols| && IsNamed(symbols[i], raw.callerName) && ResolvedEdge(raw, symbols).caller == symbols[i].id
                        && forall j | i < j < |symbols| :: symbols[j].name != raw.callerName && symbols[j].qualifiedName != raw.callerName
    ensures exists i :: 0 <= i < |symbols| && IsNamed(symbols[i], raw.calleeName) && ResolvedEdge(raw, symbols).callee == symbols[i].id
                        && forall j | i < j < |symbols| :: symbols[j].name != raw.calleeName && symbols[j].qualifiedName != raw.calleeName
  {
    ResolvesToLast(symbols, raw.callerName);
    ResolvesToLast(symbols, raw.calleeName);
    var i :| 0 <= i < |symbols| && IsNamed(symbols[i], raw.callerName) && NameToId(symbols)[raw.callerName] == symbols[i].id
             && forall j | i < j < |symbols| :: !IsNamed(symbols[j], raw.callerName);
    assert forall j | i < j < |symbols| :: symbols[j].name != raw.callerName && symbols[j].qualifiedName != raw.callerName by {
      forall j | i < j < |symbols| ensures symbols[j].name != raw.callerName && symbols[j].qualifiedName != raw.callerName {
        assert !IsNamed(symbols[j], raw.callerName);
      }
    }
    var k :| 0 <= k < |symbols| && IsNamed(symbols[k], raw.calleeName) && NameToId(symbols)[raw.calleeName] == symbols[k].id
             && forall j | k < j < |symbols| :: !IsNamed(symbols[j], raw.calleeName);
    forall j | k < j < |symbols| ensures symbols[j].name != raw.calleeName && symbols[j].qualifiedName != raw.calleeName {
      assert !IsNamed(symbols[j], raw.calleeName);
    }
  }

  /** The resolved edges in the order of the raw ones. */
  function ResolvedEdges(rawEdges: seq<RawCallEdge>, symbols: seq<Symbol>): seq<CallEdge> {
    if rawEdges == [] then []
    else
      var last := rawEdges[|rawEdges| - 1];
      ResolvedEdges(rawEdges[..|rawEdges| - 1], symbols) + if Resolves(last, symbols) then [ResolvedEdge(last, symbols)] else []
  }

  /** An edge comes out for exactly the raw edges both of whose names resolve. */
  method ResolveCallEdges(rawEdges: seq<RawCallEdge>, symbols: seq<Symbol>) returns (edges: seq<CallEdge>)
    ensures edges == ResolvedEdges(rawEdges, symbols)
    ensures forall e :: e in edges <==> exists r :: r in rawEdges && Resolves(r, symbols) && e == ResolvedEdge(r, symbols)
    ensures |edges| == |rawEdges| <==> forall r | r in rawEdges :: Resolves(r, symbols)
  {
    var nameToId := map[];
    for i := 0 to |symbols|
      invariant nameToId == NameToId(symbols[..i])
    {
      assert symbols[..i + 1][..i] == symbols[..i];
      nameToId := nameToId[symbols[i].name := symbols[i].id];
      nameToId := nameToId[symbols[i].qualifiedName := symbols[i].id];
    }
    assert symbols[..|symbols|] == symbols;
    edges := [];
    for i := 0 to |rawEdges|
      invariant |edges| <= i
      invariant edges == ResolvedEdges(rawEdges[..i], symbols)
      invariant forall e :: e in edges <==>
                  exists k :: 0 <= k < i && Resolves(rawEdges[k], symbols) && e == ResolvedEdge(rawEdges[k], symbols)
      invariant |edges| == i <==> forall k | 0 <= k < i :: Resolves(rawEdges[k], symbols)
    {
      var raw := rawEdges[i];
      assert rawEdges[..i + 1][..i] == rawEdges[..i];
      if raw.callerName in nameToId && raw.calleeName in nameToId {
        edges := edges + [CallEdge(nameToId[raw.callerName], nameToId[raw.calleeName], raw.kind)];
      }
    }
    assert rawEdges[..|rawEdges|] == rawEdges;
  }

  function AllSymbols(visits: seq<Visit>): seq<Symbol> {
    if visits == [] then []
    else
      var last := visits[|visits| - 1].outcome;
      AllSymbols(visits[..|visits| - 1]) + if last.Parsed? then last.symbols else []
  }

  function AllCalls(visits: seq<Visit>): seq<RawCallEdge> {
    if visits == [] then []
    else
      var last := visits[|visits| - 1].outcome;
      AllCalls(visits[..|visits| - 1]) + if last.Parsed? then last.calls else []
  }

  ghost predicate DistinctPaths(visits: seq<Visit>) {
    forall i, j | 0 <= i < j < |visits| :: visits[i].path != visits[j].path
  }

  /** Without a conflict and with every file changed once, every parsed symbol has a row at
      the end, so every resolved edge has both its ends in the table. */
  lemma {:induction false} ParsedSymbolsHaveRows(st: State, visits: seq<Visit>, s: Symbol)
    requires NoConflictRun(st, visits) && DistinctPaths(visits) && s in AllSymbols(visits)
    requires forall v | v in visits && v.outcome.Parsed? :: forall s | s in v.outcome.symbols :: s.file == v.path
    ensures s in Rows(VisitedAll(st, visits).table, s.file) && s.id in Ids(VisitedAll(st, visits).table)
    ensures exists v :: v in visits && v.path == s.file
  {
    var front, last := visits[..|visits| - 1], visits[|visits| - 1];
    assert last in visits;
    RowsAreLatest(st, visits, s.file);
    if last.outcome.Parsed? && s in last.outcome.symbols {
      assert s in LatestRows(st, visits, s.file);
    } else {
      ParsedSymbolsHaveRows(st, front, s);
      RowsAreLatest(st, front, s.file);
      var v :| v in front && v.path == s.file;
      var i :| 0 <= i < |front| && front[i] == v;
      assert visits[i] == v;
    }
  }

  ghost predicate EndsInTable(edges: seq<CallEdge>, table: map<Name, Symbol>) {
    forall e | e in edges :: e.caller in Ids(table) && e.callee in Ids(table)
  }

  /** How many edges come before the first that lacks an end. */
  function Insertable(edges: seq<CallEdge>, table: map<Name, Symbol>): (n: nat)
    ensures n <= |edges|
  {
    if edges == [] || edges[0].caller !in Ids(table) || edges[0].callee !in Ids(table) then 0
    else 1 + Insertable(edges[1..], table)
  }

  function InsertedOf(edges: seq<CallEdge>, table: map<Name, Symbol>): seq<CallEdge> { edges[..Insertable(edges, table)] }

  lemma {:induction false} InsertableIsFirst(edges: seq<CallEdge>, table: map<Name, Symbol>)
    ensures var n := Insertable(edges, table);
            && (forall i | 0 <= i < n :: edges[i].caller in Ids(table) && edges[i].callee in Ids(table))
            && (n < |edges| ==> edges[n].caller !in Ids(table) || edges[n].callee !in Ids(table))
            && (n == |edges| <==> EndsInTable(edges, table))
  {
    if edges != [] && edges[0].caller in Ids(table) && edges[0].callee in Ids(table) {
      InsertableIsFirst(edges[1..], table);
      assert forall i | 0 < i < |edges| :: edges[i] == edges[1..][i - 1];
      assert edges == [edges[0]] + edges[1..];
    } else if edges != [] {
      assert edges[0] in edges;
    }
  }

  lemma ResolvedEndsInTable(st: State, visits: seq<Visit>, r: RawCallEdge)
    requires NoConflictRun(st, visits) && DistinctPaths(visits) && Resolves(r, AllSymbols(visits))
    requires forall v | v in visits && v.outcome.Parsed? :: forall s | s in v.outcome.symbols :: s.file == v.path
    ensures var e, table := ResolvedEdge(r, AllSymbols(visits)), VisitedAll(st, visits).table;
            e.caller in Ids(table) && e.callee in Ids(table)
  {
    var symbols := AllSymbols(visits);
    ResolvesToLast(symbols, r.callerName);
    ResolvesToLast(symbols, r.calleeName);
    forall s | s in symbols ensures s.id in Ids(VisitedAll(st, visits).table) { ParsedSymbolsHaveRows(st, visits, s); }
  }

  // ---- The engine ----

  class Engine {
    var symbols: map<Name, Symbol>
    var callEdges: set<CallEdge>
    var staged: set<nat>
    var committed: set<nat>

    ghost function Now(): State
      reads this
    {
      State(symbols, callEdges, staged, committed)
    }

    /** Old rows, edges and index entries of one file go. */
    method RemoveFile(path: Path)
      modifies this
      ensures Now() == Cleared(old(Now()), path)
    {
      var oldIds := IdsOfFile(symbols, path);
      staged := staged - oldIds;
      callEdges := set e | e in callEdges && e.caller !in oldIds && e.callee !in oldIds;
      symbols := map q | q in symbols && symbols[q].file != path :: symbols[q];
    }

    method UpsertSymbol(sym: Symbol)
      modifies this
      ensures Now() == Upserted(old(Now()), sym)
    {
      var q := sym.qualifiedName;
      if q in symbols {
        var was := symbols[q].id;
        callEdges := set e | e in callEdges :: CallEdge(Renamed(e.caller, was, sym.id), Renamed(e.callee, was, sym.id), e.kind);
      }
      symbols := symbols[q := sym];
      staged := staged + {sym.id};
    }

    method StoreParse(parsed: seq<Symbol>)
      modifies this
      ensures Now() == UpsertedAll(old(Now()), parsed)
    {
      for i := 0 to |parsed|
        invariant Now() == UpsertedAll(old(Now()), parsed[..i])
      {
        assert parsed[..i + 1][..i] == parsed[..i];
        UpsertSymbol(parsed[i]);
      }
      assert parsed[..|parsed|] == parsed;
    }

    /** The table refuses an edge without both ends, and the edges before the first such stay;
        inserting one twice changes nothing. */
    method InsertEdges(edges: seq<CallEdge>) returns (ok: bool)
      modifies this`callEdges
      ensures ok <==> EndsInTable(edges, symbols)
      ensures callEdges == old(callEdges) + Elements(InsertedOf(edges, symbols))
      ensures ok ==> callEdges == old(callEdges) + Elements(edges)
      ensures forall e | e in callEdges :: e in old(callEdges) || (e in edges && e.caller in Ids(symbols) && e.callee in Ids(symbols))
    {
      InsertableIsFirst(edges, symbols);
      for i := 0 to |edges|
        invariant i <= Insertable(edges, symbols)
        invariant callEdges == old(callEdges) + Elements(edges[..i])
      {
        assert edges[..i + 1] == edges[..i] + [edges[i]];
        if edges[i].caller !in Ids(symbols) || edges[i].callee !in Ids(symbols) {
          return false;
        }
        callEdges := callEdges + {edges[i]};
      }
      return true;
    }

    /** One pass over the changed files. It fails at the first file that cannot be read or
        parsed, with that file's old rows gone and nothing committed. Otherwise the index is
        committed and the edges resolved among all the symbols just parsed are inserted in
        order; the first without both ends in the table is an error, with those before it in
        and none after it. */
    method UpdateFilesByRoot(visits: seq<Visit>) returns (ok: bool)
      modifies this
      ensures (exists i :: 0 <= i < |visits| && visits[i].outcome.Failed?) ==>
                !ok && exists i :: 0 <= i < |visits| && visits[i].outcome.Failed?
                                   && (forall j | 0 <= j < i :: !visits[j].outcome.Failed?)
                                   && Now() == VisitedAll(old(Now()), visits[..i + 1])
      ensures (forall i | 0 <= i < |visits| :: !visits[i].outcome.Failed?) ==>
                var end := VisitedAll(old(Now()), visits);
                && symbols == end.table && staged == end.staged && committed == end.staged
                && callEdges == end.edges + Elements(InsertedOf(ResolvedEdges(AllCalls(visits), AllSymbols(visits)), end.table))
                && (ok <==> forall r | r in AllCalls(visits) && Resolves(r, AllSymbols(visits)) ::
                              EndsInTable([ResolvedEdge(r, AllSymbols(visits))], end.table))
                && (ok ==> forall e :: e in callEdges <==>
                             e in end.edges || exists r :: r in AllCalls(visits) && Resolves(r, AllSymbols(visits))
                                                          && e == ResolvedEdge(r, AllSymbols(visits)))
    {
      var visited, allSymbols, allRawEdges := VisitFiles(visits);
      if !visited { return false; }
      committed := staged;
      ok := ResolveAndInsert(allRawEdges, allSymbols);
    }

    /** The loop over the files, up to the first that fails. */
    method VisitFiles(visits: seq<Visit>) returns (ok: bool, allSymbols: seq<Symbol>, allRawEdges: seq<RawCallEdge>)
      modifies this
      ensures ok <==> forall i | 0 <= i < |visits| :: !visits[i].outcome.Failed?
      ensures ok ==> Now() == VisitedAll(old(Now()), visits) && allSymbols == AllSymbols(visits) && allRawEdges == AllCalls(visits)
      ensures !ok ==> exists i :: 0 <= i < |visits| && visits[i].outcome.Failed?
                                  && (forall j | 0 <= j < i :: !visits[j].outcome.Failed?)
                                  && Now() == VisitedAll(old(Now()), visits[..i + 1])
    {
      allSymbols, allRawEdges := [], [];
      for i := 0 to |visits|
        invariant Now() == VisitedAll(old(Now()), visits[..i])
        invariant forall j | 0 <= j < i :: !visits[j].outcome.Failed?
        invariant allSymbols == AllSymbols(visits[..i]) && allRawEdges == AllCalls(visits[..i])
      {
        assert visits[..i + 1][..i] == visits[..i];
        RemoveFile(visits[i].path);
        match visits[i].outcome {
          case Gone =>
          case Unsupported =>
          case Failed => return false, [], [];
          case Parsed(parsed, calls) =>
            StoreParse(parsed);
            allSymbols := allSymbols + parsed;
            allRawEdges := allRawEdges + calls;
        }
      }
      assert visits[..|visits|] == visits;
      ok := true;
    }

    method ResolveAndInsert(rawEdges: seq<RawCallEdge>, parsed: seq<Symbol>) returns (ok: bool)
      modifies this`callEdges
      ensures callEdges == old(callEdges) + Elements(InsertedOf(ResolvedEdges(rawEdges, parsed), symbols))
      ensures ok <==> forall r | r in rawEdges && Resolves(r, parsed) :: EndsInTable([ResolvedEdge(r, parsed)], symbols)
      ensures ok ==> forall e :: e in callEdges <==>
                e in old(callEdges) || exists r :: r in rawEdges && Resolves(r, parsed) && e == ResolvedEdge(r, parsed)
    {
      var edges := ResolveCallEdges(rawEdges, parsed);
      ok := InsertEdges(edges);
    }
  }
}
