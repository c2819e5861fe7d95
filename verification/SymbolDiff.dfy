/** The per-symbol diff that decides which locks a file write has to take. */
module SymbolDiff {
  import opened Common

  type Path = string
  type Name = string

  datatype Span = Span(startByte: nat, endByte: nat)

  datatype Symbol = Symbol(name: Name, kind: string, span: Span)

  /** A file content together with the symbols parsed from it. */
  datatype Version = Version(symbols: seq<Symbol>, content: Bytes) {
    function Upto(k: nat): Version
      requires k <= |symbols|
    {
      Version(symbols[..k], content)
    }
  }

  /** The parser registry: which paths it supports, and what it makes of a content
      (`None` is a parse error). Nothing else is assumed of it. */
  datatype Parser = Parser(supports: Path -> bool, parse: (Path, Bytes) -> Option<seq<Symbol>>)

  datatype ChangeType = Added | Modified | Deleted

  /** What the RPC response lists. */
  datatype SymbolChange = SymbolChange(name: Name, kind: string)

  /** What locks and events are made of. */
  datatype Detail = Detail(name: Name, path: Path, change: ChangeType, kind: string)

  // ---- What the diff means, name by name ----

  predicate Fits(sym: Symbol, content: Bytes) {
    sym.span.startByte <= sym.span.endByte <= |content|
  }

  function Text(sym: Symbol, content: Bytes): Bytes
    requires Fits(sym, content)
  {
    content[sym.span.startByte..sym.span.endByte]
  }

  ghost predicate FirstAt(syms: seq<Symbol>, n: Name, i: nat) {
    i < |syms| && syms[i].name == n && forall j | 0 <= j < i :: syms[j].name != n
  }

  function FirstNamed(syms: seq<Symbol>, n: Name): (r: Option<Symbol>)
    ensures r.Some? ==> exists i: nat :: FirstAt(syms, n, i) && syms[i] == r.value
    ensures r.None? ==> forall i | 0 <= i < |syms| :: syms[i].name != n
  {
    if syms == [] then None
    else
      var k := |syms| - 1;
      var earlier := FirstNamed(syms[..k], n);
      if earlier.Some? then
        (assert exists i: nat :: FirstAt(syms, n, i) && syms[i] == earlier.value by {
           var i: nat :| FirstAt(syms[..k], n, i) && syms[..k][i] == earlier.value;
           assert FirstAt(syms, n, i);
         }
         earlier)
      else if syms[k].name == n then
        (assert forall j | 0 <= j < k :: syms[..k][j] == syms[j];
         assert FirstAt(syms, n, k);
         Some(syms[k]))
      else
        (assert forall j | 0 <= j < k :: syms[..k][j] == syms[j];
         None)
  }

  lemma FirstNamedAt(syms: seq<Symbol>, n: Name, i: nat)
    requires FirstAt(syms, n, i)
    ensures FirstNamed(syms, n) == Some(syms[i])
  {
    var r := FirstNamed(syms, n);
    assert syms[i].name == n;
    var k: nat :| FirstAt(syms, n, k) && syms[k] == r.value;
  }

  /** The text under `n` of the first symbol of that name whose span is usable. */
  function FirstText(v: Version, n: Name): Option<Bytes>
    decreases |v.symbols|
  {
    if v.symbols == [] then None
    else
      var k := |v.symbols| - 1;
      var earlier := FirstText(v.Upto(k), n);
      var last := v.symbols[k];
      if earlier.Some? then earlier
      else if last.name == n && Fits(last, v.content) then Some(Text(last, v.content))
      else None
  }

  function Names(syms: seq<Symbol>): set<Name> {
    set s | s in syms :: s.name
  }

  /** How the diff classifies one name; `None` means it is not reported. */
  function ChangeOf(was: Version, now: Version, n: Name)
    : Option<ChangeType>
  {
    match FirstNamed(now.symbols, n)
    case None => if FirstNamed(was.symbols, n).Some? then Some(Deleted) else None
    case Some(sym) =>
      if !Fits(sym, now.content) then None
      else
        match FirstText(was, n)
        case None => Some(Added)
        case Some(text) => if text != Text(sym, now.content) then Some(Modified) else None
  }

  /** The names a write of `content` over `base` reports as changed. */
  ghost function ChangedNames(p: Parser, path: Path, base: Bytes, content: Bytes, isNew: bool): set<Name> {
    if !p.supports(path) || p.parse(path, content).None? then {}
    else
      var now := Version(p.parse(path, content).value, content);
      if isNew || base == [] || p.parse(path, base).None? then Names(now.symbols)
      else
        var was := Version(p.parse(path, base).value, base);
        set n | n in Names(now.symbols) + Names(was.symbols) && ChangeOf(was, now, n).Some?
  }

  function DetailNames(details: seq<Detail>): set<Name> {
    set d | d in details :: d.name
  }

  ghost predicate RightDetail(d: Detail, path: Path, was: Version, now: Version)
  {
    && d.path == path
    && ChangeOf(was, now, d.name) == Some(d.change)
    && var src := FirstNamed(if d.change == Deleted then was.symbols else now.symbols, d.name);
    src.Some? && d.kind == src.value.kind
  }

  ghost predicate DistinctNames(details: seq<Detail>) {
    forall i, j | 0 <= i < j < |details| :: details[i].name != details[j].name
  }

  /** `details` lists exactly the changed names, each once, classified by `ChangeOf`. */
  ghost predicate IsDiff(details: seq<Detail>, path: Path, was: Version, now: Version)
  {
    && DistinctNames(details)
    && (forall d | d in details :: RightDetail(d, path, was, now))
    && (forall n :: ChangeOf(was, now, n).Some? <==> n in DetailNames(details))
  }

  function AllAs(syms: seq<Symbol>, path: Path, change: ChangeType): (r: seq<Detail>)
    ensures |r| == |syms|
    ensures DetailNames(r) == Names(syms)
  {
    var r := seq(|syms|, i requires 0 <= i < |syms| => Detail(syms[i].name, path, change, syms[i].kind));
    assert forall n :: n in DetailNames(r) <==> n in Names(syms) by {
      forall i | 0 <= i < |syms| ensures r[i].name in Names(syms) && syms[i].name in DetailNames(r) {
        assert r[i] in r && syms[i] in syms;
      }
    }
    r
  }

  function AsChanges(details: seq<Detail>): seq<SymbolChange> {
    seq(|details|, i requires 0 <= i < |details| => SymbolChange(details[i].name, details[i].kind))
  }

  // ---- The code ----

  method OldTexts(was: Version) returns (texts: map<Name, Bytes>)
    ensures forall n :: (n in texts <==> FirstText(was, n).Some?)
    ensures forall n | n in texts :: FirstText(was, n) == Some(texts[n])
  {
    texts := map[];
    for i := 0 to |was.symbols|
      invariant forall n :: n in texts <==> FirstText(was.Upto(i), n).Some?
      invariant forall n | n in texts :: FirstText(was.Upto(i), n) == Some(texts[n])
    {
      assert was.Upto(i + 1).Upto(i) == was.Upto(i);
      var sym := was.symbols[i];
      if Fits(sym, was.content) && sym.name !in texts {
        texts := texts[sym.name := Text(sym, was.content)];
      }
    }
    assert was.Upto(|was.symbols|) == was;
  }

  lemma AppendDetail(details: seq<Detail>, d: Detail)
    requires DistinctNames(details) && d.name !in DetailNames(details)
    ensures DistinctNames(details + [d])
    ensures DetailNames(details + [d]) == DetailNames(details) + {d.name}
  {
    forall j | 0 <= j < |details| ensures details[j].name != d.name {
      assert details[j] in details;
    }
  }

  method DiffKept(path: Path, was: Version, now: Version)
    returns (details: seq<Detail>)
    ensures DistinctNames(details)
    ensures forall d | d in details :: d.change != Deleted && RightDetail(d, path, was, now)
    ensures forall n | n in Names(now.symbols) && ChangeOf(was, now, n).Some? :: n in DetailNames(details)
  {
    var texts := OldTexts(was);
    details := [];
    var seen: set<Name> := {};
    for i := 0 to |now.symbols|
      invariant seen == Names(now.symbols[..i])
      invariant DetailNames(details) <= seen
      invariant DistinctNames(details)
      invariant forall d | d in details :: d.change != Deleted && RightDetail(d, path, was, now)
      invariant forall n | n in seen && ChangeOf(was, now, n).Some? :: n in DetailNames(details)
    {
      var sym := now.symbols[i];
      assert now.symbols[..i + 1] == now.symbols[..i] + [sym];
      if sym.name in seen { continue; }
      assert FirstAt(now.symbols, sym.name, i) by {
        forall j | 0 <= j < i ensures now.symbols[j].name != sym.name {
          assert now.symbols[..i][j] in now.symbols[..i];
        }
      }
      FirstNamedAt(now.symbols, sym.name, i);
      seen := seen + {sym.name};
      if !Fits(sym, now.content) { continue; }
      if sym.name !in texts {
        AppendDetail(details, Detail(sym.name, path, Added, sym.kind));
        details := details + [Detail(sym.name, path, Added, sym.kind)];
      } else if texts[sym.name] != Text(sym, now.content) {
        AppendDetail(details, Detail(sym.name, path, Modified, sym.kind));
        details := details + [Detail(sym.name, path, Modified, sym.kind)];
      }
    }
    assert now.symbols[..|now.symbols|] == now.symbols;
  }

  ghost predicate GoneRight(d: Detail, path: Path, was: Version) {
    && d.path == path && d.change == Deleted
    && FirstNamed(was.symbols, d.name).Some? && d.kind == FirstNamed(was.symbols, d.name).value.kind
  }

  method GoneDetail(path: Path, was: Version, n: Name) returns (d: Detail)
    requires n in Names(was.symbols)
    ensures d.name == n && GoneRight(d, path, was)
  {
    NamesFirst(was.symbols, n);
    d := Detail(n, path, Deleted, FirstNamed(was.symbols, n).value.kind);
  }

  ghost predicate AllGone(details: seq<Detail>, path: Path, was: Version, names: set<Name>) {
    && DistinctNames(details) && DetailNames(details) == names
    && forall d | d in details :: GoneRight(d, path, was)
  }

  lemma OneMoreGone(details: seq<Detail>, path: Path, was: Version, names: set<Name>, d: Detail)
    requires AllGone(details, path, was, names) && GoneRight(d, path, was) && d.name !in names
    ensures AllGone(details + [d], path, was, names + {d.name})
  {
    AppendDetail(details, d);
  }

  /** One old name: reported unless the new content has it. */
  method DeletedOne(path: Path, was: Version, newNames: set<Name>, details: seq<Detail>, n: Name, ghost done: set<Name>)
    returns (more: seq<Detail>)
    requires n in Names(was.symbols) && n !in done && AllGone(details, path, was, done)
    ensures AllGone(more, path, was, if n in newNames then done else done + {n})
  {
    more := details;
    if n !in newNames {
      var d := GoneDetail(path, was, n);
      OneMoreGone(details, path, was, done, d);
      more := details + [d];
    }
  }

  method DiffDeleted(path: Path, was: Version, now: Version) returns (details: seq<Detail>)
    ensures DistinctNames(details)
    ensures DetailNames(details) == Names(was.symbols) - Names(now.symbols)
    ensures forall d | d in details :: GoneRight(d, path, was)
  {
    details := [];
    var oldNames, newNames := Names(was.symbols), Names(now.symbols);
    var left := oldNames;
    ghost var done: set<Name> := {};
    while left != {}
      invariant left <= oldNames && done == oldNames - left - newNames
      invariant AllGone(details, path, was, done)
      decreases |left|
    {
      var n :| n in left;
      details := DeletedOne(path, was, newNames, details, n, done);
      done := if n in newNames then done else done + {n};
      left := left - {n};
    }
    assert done == oldNames - newNames;
  }

  /** Parses both contents and reports what changed. When the base is absent or
      unparseable every new symbol is reported, in parse order and with repetitions. */
  method DetectSymbolChanges(p: Parser, path: Path, base: Bytes, content: Bytes, isNew: bool)
    returns (changes: seq<SymbolChange>, details: seq<Detail>)
    ensures DetailNames(details) == ChangedNames(p, path, base, content, isNew)
    ensures !p.supports(path) || p.parse(path, content).None? ==> details == []
    ensures p.supports(path) && p.parse(path, content).Some? && (isNew || base == []) ==>
              var symbols := p.parse(path, content).value;
              |details| == |symbols| && forall i | 0 <= i < |symbols| :: details[i] == Detail(symbols[i].name, path, Added, symbols[i].kind)
    ensures p.supports(path) && p.parse(path, content).Some? && !isNew && base != [] && p.parse(path, base).None? ==>
              var symbols := p.parse(path, content).value;
              |details| == |symbols| && forall i | 0 <= i < |symbols| :: details[i] == Detail(symbols[i].name, path, Modified, symbols[i].kind)
    ensures p.supports(path) && p.parse(path, content).Some? && !isNew && base != [] && p.parse(path, base).Some? ==>
              IsDiff(details, path, Version(p.parse(path, base).value, base), Version(p.parse(path, content).value, content))
    ensures |changes| <= |details|
    ensures forall i | 0 <= i < |changes| :: changes[i] == SymbolChange(details[i].name, details[i].kind)
    ensures forall d | d in details[..|changes|] :: d.change != Deleted
    ensures forall d | d in details[|changes|..] :: d.change == Deleted
  {
    if !p.supports(path) { return [], []; }
    var parsed := p.parse(path, content);
    if parsed.None? { return [], []; }
    var now := Version(parsed.value, content);
    if isNew || base == [] {
      details := AllAs(now.symbols, path, Added);
      changes := AsChanges(details);
      assert details[..|changes|] == details;
      return;
    }
    var parsedBase := p.parse(path, base);
    if parsedBase.None? {
      details := AllAs(now.symbols, path, Modified);
      changes := AsChanges(details);
      assert details[..|changes|] == details;
      return;
    }
    var was := Version(parsedBase.value, base);
    var kept := DiffKept(path, was, now);
    var gone := DiffDeleted(path, was, now);
    details := kept + gone;
    changes := AsChanges(kept);
    assert details[..|changes|] == kept && details[|changes|..] == gone;
    KeptAndGone(kept, gone, path, was, now);
  }

  lemma KeptAndGone(kept: seq<Detail>, gone: seq<Detail>, path: Path, was: Version, now: Version)
    requires DistinctNames(kept) && DistinctNames(gone)
    requires forall d | d in kept :: d.change != Deleted && RightDetail(d, path, was, now)
    requires forall n | n in Names(now.symbols) && ChangeOf(was, now, n).Some? :: n in DetailNames(kept)
    requires DetailNames(gone) == Names(was.symbols) - Names(now.symbols)
    requires forall d | d in gone :: GoneRight(d, path, was)
    ensures IsDiff(kept + gone, path, was, now)
    ensures DetailNames(kept + gone) == set n | n in Names(now.symbols) + Names(was.symbols) && ChangeOf(was, now, n).Some?
  {
    var all := kept + gone;
    assert DetailNames(all) == DetailNames(kept) + DetailNames(gone);
    forall n
      ensures n in Names(now.symbols) <==> FirstNamed(now.symbols, n).Some?
      ensures n in Names(was.symbols) <==> FirstNamed(was.symbols, n).Some?
    {
      NamesFirst(now.symbols, n);
      NamesFirst(was.symbols, n);
    }
    forall i, j | 0 <= i < j < |all| ensures all[i].name != all[j].name {
      if i < |kept| <= j {
        assert kept[i] in kept && gone[j - |kept|] in gone;
        assert gone[j - |kept|].name in DetailNames(gone);
      }
    }
    forall n | n in DetailNames(kept) ensures n in Names(now.symbols) {
      var d :| d in kept && d.name == n;
    }
    forall d | d in gone ensures RightDetail(d, path, was, now) {
      assert d.name in DetailNames(gone);
    }
  }

  lemma NamesFirst(syms: seq<Symbol>, n: Name)
    ensures n in Names(syms) <==> FirstNamed(syms, n).Some?
  {
    if n in Names(syms) {
      var s :| s in syms && s.name == n;
    }
    var r := FirstNamed(syms, n);
    if r.Some? {
      var i: nat :| FirstAt(syms, n, i) && syms[i] == r.value;
      assert syms[i] in syms;
    }
  }

  // ---- What counts as changed, for any spans ----

  /** At `j` is the first symbol called `n` whose span lies in the content. */
  ghost predicate FirstUsable(v: Version, n: Name, j: nat) {
    && j < |v.symbols| && v.symbols[j].name == n
    && v.symbols[j].span.startByte <= v.symbols[j].span.endByte <= |v.content|
    && forall k | 0 <= k < j && v.symbols[k].name == n ::
         !(v.symbols[k].span.startByte <= v.symbols[k].span.endByte <= |v.content|)
  }

  lemma UsableInFront(v: Version, n: Name, j: nat)
    requires v.symbols != [] && FirstUsable(v.Upto(|v.symbols| - 1), n, j)
    ensures FirstUsable(v, n, j) && v.symbols[j] == v.Upto(|v.symbols| - 1).symbols[j]
  {
  }

  lemma NoneUsableInFront(v: Version, n: Name)
    requires v.symbols != []
    requires var front := v.Upto(|v.symbols| - 1);
             forall j: nat | j < |front.symbols| && front.symbols[j].name == n ::
               !(front.symbols[j].span.startByte <= front.symbols[j].span.endByte <= |v.content|)
    ensures forall j: nat | j < |v.symbols| - 1 && v.symbols[j].name == n ::
              !(v.symbols[j].span.startByte <= v.symbols[j].span.endByte <= |v.content|)
  {
    forall j: nat | j < |v.symbols| - 1 ensures v.Upto(|v.symbols| - 1).symbols[j] == v.symbols[j] { }
  }

  lemma {:induction false} FirstTextAt(v: Version, n: Name)
    ensures FirstText(v, n).None? <==>
              forall j: nat | j < |v.symbols| && v.symbols[j].name == n ::
                !(v.symbols[j].span.startByte <= v.symbols[j].span.endByte <= |v.content|)
    ensures FirstText(v, n).Some? ==>
              exists j: nat :: FirstUsable(v, n, j) && FirstText(v, n).value == v.content[v.symbols[j].span.startByte..v.symbols[j].span.endByte]
    decreases |v.symbols|
  {
    if v.symbols != [] {
      var k := |v.symbols| - 1;
      var front := v.Upto(k);
      FirstTextAt(front, n);
      if FirstText(front, n).Some? {
        var j: nat :| FirstUsable(front, n, j)
                      && FirstText(front, n).value == v.content[front.symbols[j].span.startByte..front.symbols[j].span.endByte];
        UsableInFront(v, n, j);
      } else {
        NoneUsableInFront(v, n);
        if FirstText(v, n).Some? { assert FirstUsable(v, n, k); }
      }
    }
  }

  lemma FirstUsableIsOne(v: Version, n: Name, j: nat)
    requires FirstUsable(v, n, j)
    ensures FirstText(v, n) == Some(v.content[v.symbols[j].span.startByte..v.symbols[j].span.endByte])
  {
    FirstTextAt(v, n);
    var k: nat :| FirstUsable(v, n, k) && FirstText(v, n).value == v.content[v.symbols[k].span.startByte..v.symbols[k].span.endByte];
    assert k == j;
  }

  /** Deleted: the old content has the name and the new one has not. */
  lemma DeletedIff(was: Version, now: Version, n: Name)
    ensures ChangeOf(was, now, n) == Some(Deleted) <==>
              && (exists j: nat :: j < |was.symbols| && was.symbols[j].name == n)
              && (forall i: nat | i < |now.symbols| :: now.symbols[i].name != n)
  {
    if j: nat :| j < |was.symbols| && was.symbols[j].name == n {
      assert FirstNamed(was.symbols, n).Some?;
    }
  }

  /** Added: the first new symbol of the name has a usable span and no old one has. */
  lemma AddedIff(was: Version, now: Version, n: Name, i: nat)
    requires FirstAt(now.symbols, n, i)
    ensures ChangeOf(was, now, n) == Some(Added) <==>
              && now.symbols[i].span.startByte <= now.symbols[i].span.endByte <= |now.content|
              && (forall j: nat | j < |was.symbols| && was.symbols[j].name == n ::
                    !(was.symbols[j].span.startByte <= was.symbols[j].span.endByte <= |was.content|))
  {
    FirstNamedAt(now.symbols, n, i);
    FirstTextAt(was, n);
  }

  /** Modified: the first new symbol of the name has a usable span, and its text is not that of
      the first old one that has. */
  lemma ModifiedIff(was: Version, now: Version, n: Name, i: nat)
    requires FirstAt(now.symbols, n, i)
    ensures ChangeOf(was, now, n) == Some(Modified) <==>
              && now.symbols[i].span.startByte <= now.symbols[i].span.endByte <= |now.content|
              && exists j: nat :: FirstUsable(was, n, j)
                   && was.content[was.symbols[j].span.startByte..was.symbols[j].span.endByte] !=
                      now.content[now.symbols[i].span.startByte..now.symbols[i].span.endByte]
  {
    FirstNamedAt(now.symbols, n, i);
    FirstTextAt(was, n);
    forall j: nat | FirstUsable(was, n, j)
      ensures FirstText(was, n) == Some(was.content[was.symbols[j].span.startByte..was.symbols[j].span.endByte])
    {
      FirstUsableIsOne(was, n, j);
    }
  }

  /** Between two contents that parse with usable spans: the name is new, or gone, or the text
      of its first occurrence is not what it was. */
  ghost predicate NameChanges(was: seq<Symbol>, base: Bytes, now: seq<Symbol>, content: Bytes, n: Name)
    requires forall k: nat | k < |was| :: was[k].span.startByte <= was[k].span.endByte <= |base|
    requires forall k: nat | k < |now| :: now[k].span.startByte <= now[k].span.endByte <= |content|
  {
    || ((exists i: nat :: i < |now| && now[i].name == n) && (forall j: nat | j < |was| :: was[j].name != n))
    || ((exists j: nat :: j < |was| && was[j].name == n) && (forall i: nat | i < |now| :: now[i].name != n))
    || (exists i: nat, j: nat :: FirstAt(now, n, i) && FirstAt(was, n, j) &&
          base[was[j].span.startByte..was[j].span.endByte] != content[now[i].span.startByte..now[i].span.endByte])
  }

  lemma FirstExists(syms: seq<Symbol>, n: Name)
    ensures (exists i: nat :: FirstAt(syms, n, i)) <==> exists i: nat :: i < |syms| && syms[i].name == n
  {
    if i: nat :| i < |syms| && syms[i].name == n { assert FirstNamed(syms, n).Some?; }
  }

  lemma FirstIsUsable(v: Version, n: Name, j: nat)
    requires forall k: nat | k < |v.symbols| :: v.symbols[k].span.startByte <= v.symbols[k].span.endByte <= |v.content|
    ensures AllFit(v)
    ensures FirstUsable(v, n, j) <==> FirstAt(v.symbols, n, j)
  {
  }

  lemma NameChangesIff(was: Version, now: Version, n: Name)
    requires forall k: nat | k < |was.symbols| :: was.symbols[k].span.startByte <= was.symbols[k].span.endByte <= |was.content|
    requires forall k: nat | k < |now.symbols| :: now.symbols[k].span.startByte <= now.symbols[k].span.endByte <= |now.content|
    ensures NameChanges(was.symbols, was.content, now.symbols, now.content, n) <==> ChangeOf(was, now, n).Some?
  {
    DeletedIff(was, now, n);
    FirstExists(now.symbols, n);
    FirstExists(was.symbols, n);
    forall i: nat, j: nat | FirstAt(now.symbols, n, i) && FirstAt(was.symbols, n, j)
      ensures ChangeOf(was, now, n) == Some(Modified) <==>
                was.content[was.symbols[j].span.startByte..was.symbols[j].span.endByte] !=
                now.content[now.symbols[i].span.startByte..now.symbols[i].span.endByte]
      ensures ChangeOf(was, now, n) != Some(Added)
    {
      ModifiedIff(was, now, n, i);
      AddedIff(was, now, n, i);
      FirstIsUsable(was, n, j);
      forall k: nat | FirstUsable(was, n, k) ensures k == j { FirstIsUsable(was, n, k); }
    }
    if i: nat :| FirstAt(now.symbols, n, i) {
      AddedIff(was, now, n, i);
      ModifiedIff(was, now, n, i);
      if !exists j: nat :: FirstAt(was.symbols, n, j) {
        forall j: nat | j < |was.symbols| ensures was.symbols[j].name != n { }
      }
    }
  }

  /** The names that a write changes: none without a parse of the content, all of the content's
      without a parse of a base, and else those that change between the two. */
  lemma ChangedNamesAre(p: Parser, path: Path, base: Bytes, content: Bytes, isNew: bool, n: Name)
    ensures !p.supports(path) || p.parse(path, content).None? ==> n !in ChangedNames(p, path, base, content, isNew)
    ensures p.supports(path) && p.parse(path, content).Some? && (isNew || base == [] || p.parse(path, base).None?) ==>
              (n in ChangedNames(p, path, base, content, isNew) <==>
                 exists i: nat :: i < |p.parse(path, content).value| && p.parse(path, content).value[i].name == n)
    ensures p.supports(path) && p.parse(path, content).Some? && !isNew && base != [] && p.parse(path, base).Some? ==>
              (n in ChangedNames(p, path, base, content, isNew) <==>
                 ChangeOf(Version(p.parse(path, base).value, base), Version(p.parse(path, content).value, content), n).Some?)
  {
    if p.supports(path) && p.parse(path, content).Some? {
      var now := p.parse(path, content).value;
      forall i: nat | i < |now| && now[i].name == n ensures n in Names(now) { assert now[i] in now; }
      NamesFirst(now, n);
      if !isNew && base != [] && p.parse(path, base).Some? { NamesFirst(p.parse(path, base).value, n); }
    }
  }

  // ---- Exactness, for contents whose spans are usable ----

  ghost predicate AllFit(v: Version) {
    forall s | s in v.symbols :: Fits(s, v.content)
  }

  lemma {:induction false} FirstTextIsFirstNamed(v: Version, n: Name)
    requires AllFit(v)
    ensures FirstText(v, n).Some? <==> FirstNamed(v.symbols, n).Some?
    ensures FirstNamed(v.symbols, n).Some? ==> FirstNamed(v.symbols, n).value in v.symbols
    ensures FirstNamed(v.symbols, n).Some? ==> FirstText(v, n) == Some(Text(FirstNamed(v.symbols, n).value, v.content))
    decreases |v.symbols|
  {
    if v.symbols != [] {
      var k := |v.symbols| - 1;
      assert forall s | s in v.symbols[..k] :: s in v.symbols;
      FirstTextIsFirstNamed(v.Upto(k), n);
      assert v.symbols[k] in v.symbols;
    }
  }

  lemma ChangeMeans(was: Version, now: Version, n: Name)
    requires AllFit(was) && AllFit(now)
    ensures ChangeOf(was, now, n) == Some(Added) <==> n in Names(now.symbols) - Names(was.symbols)
    ensures ChangeOf(was, now, n) == Some(Deleted) <==> n in Names(was.symbols) - Names(now.symbols)
    ensures ChangeOf(was, now, n) == Some(Modified) <==>
              n in Names(was.symbols) && n in Names(now.symbols) && FirstText(was, n) != FirstText(now, n)
  {
    NamesFirst(now.symbols, n);
    NamesFirst(was.symbols, n);
    FirstTextIsFirstNamed(now, n);
    FirstTextIsFirstNamed(was, n);
  }

  lemma ReportedAs(details: seq<Detail>, path: Path, was: Version, now: Version, n: Name, c: ChangeType)
    requires IsDiff(details, path, was, now)
    ensures (exists d :: d in details && d.change == c && d.name == n) <==> ChangeOf(was, now, n) == Some(c)
  {
    forall d | d in details ensures ChangeOf(was, now, d.name) == Some(d.change) {
      assert RightDetail(d, path, was, now);
    }
    if ChangeOf(was, now, n) == Some(c) {
      assert n in DetailNames(details);
      var d :| d in details && d.name == n;
    }
  }

  lemma ReportedOnce(details: seq<Detail>)
    requires DistinctNames(details)
    ensures |details| == |DetailNames(details)|
  {
    var names := seq(|details|, i requires 0 <= i < |details| => details[i].name);
    NoDuplicatesSize(names);
    assert Elements(names) == DetailNames(details) by {
      forall i | 0 <= i < |details| ensures details[i].name in Elements(names) && names[i] in DetailNames(details) {
        assert details[i] in details && names[i] in names;
      }
    }
  }

  ghost function NamesAs(details: seq<Detail>, c: ChangeType): set<Name> {
    set d | d in details && d.change == c :: d.name
  }

  /** added = new minus old, deleted = old minus new, modified = shared names whose
      first-occurrence text differs; every reported name is reported once. */
  lemma {:induction false} DiffIsExact(details: seq<Detail>, path: Path, was: Version, now: Version)
    requires IsDiff(details, path, was, now)
    requires AllFit(was) && AllFit(now)
    ensures NamesAs(details, Added) == Names(now.symbols) - Names(was.symbols)
    ensures NamesAs(details, Deleted) == Names(was.symbols) - Names(now.symbols)
    ensures forall n :: n in NamesAs(details, Modified) <==>
              n in Names(was.symbols) && n in Names(now.symbols) && FirstText(was, n) != FirstText(now, n)
    ensures |details| == |DetailNames(details)|
  {
    forall n, c: ChangeType ensures n in NamesAs(details, c) <==> ChangeOf(was, now, n) == Some(c) {
      ReportedAs(details, path, was, now, n, c);
    }
    forall n: Name
      ensures n in NamesAs(details, Added) <==> n in Names(now.symbols) - Names(was.symbols)
      ensures n in NamesAs(details, Deleted) <==> n in Names(was.symbols) - Names(now.symbols)
      ensures n in NamesAs(details, Modified) <==>
                n in Names(was.symbols) && n in Names(now.symbols) && FirstText(was, n) != FirstText(now, n)
    {
      ChangeMeans(was, now, n);
    }
    ReportedOnce(details);
  }

  /** Writing back the content already there reports nothing. */
  lemma SelfDiffIsEmpty(v: Version, n: Name)
    requires AllFit(v)
    ensures ChangeOf(v, v, n) == None
  {
    FirstTextIsFirstNamed(v, n);
  }

  function Swapped(c: Option<ChangeType>): Option<ChangeType> {
    match c
    case Some(Added) => Some(Deleted)
    case Some(Deleted) => Some(Added)
    case _ => c
  }

  /** Exchanging the two sides exchanges added with deleted and keeps modified. */
  lemma SwapDiff(was: Version, now: Version, n: Name)
    requires AllFit(was) && AllFit(now)
    ensures ChangeOf(now, was, n) == Swapped(ChangeOf(was, now, n))
  {
    FirstTextIsFirstNamed(now, n);
    FirstTextIsFirstNamed(was, n);
  }
}
