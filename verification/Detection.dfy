/** Auto-detecting a verification workflow from the files at the root of a repository and in
    its immediate subdirectories. */
module Detection {
  import opened Common
  import opened Ordering
  import opened Scheduler

  /** Which of the marker files exist in a directory. */
  datatype Markers = Markers(cargo: bool, package: bool, bunLock: bool, bunLockb: bool, pyproject: bool, requirements: bool,
                             goMod: bool)

  /** One entry of a directory listing. */
  datatype Entry = Entry(name: string, isDir: bool, markers: Markers)

  // ---- Steps and their names ----

  datatype Language = Rust | Bun | Node | Python | Go

  datatype Kind = Check | Test | Install | InstallDeps | Build | Vet

  /** A step: in which directory (the root is ""), for which language, which kind. */
  datatype Id = Id(dir: string, language: Language, kind: Kind)

  function Label(language: Language): (s: string)
    ensures '(' !in s
  {
    match language
    case Rust => "rust"
    case Bun => "bun"
    case Node => "node"
    case Python => "python"
    case Go => "go"
  }

  function Suffix(kind: Kind): (s: string)
    ensures ':' !in s
  {
    match kind
    case Check => "check"
    case Test => "test"
    case Install => "install"
    case InstallDeps => "install-deps"
    case Build => "build"
    case Vet => "vet"
  }

  function NamePrefix(dir: string, language: Language): string {
    if dir == "" then Label(language) else Label(language) + "(" + dir + ")"
  }

  function NameOf(id: Id): string { NamePrefix(id.dir, id.language) + ":" + Suffix(id.kind) }

  lemma FirstSeparator(a: string, b: string, a': string, b': string, c: char)
    requires a + [c] + b == a' + [c] + b' && c !in a && c !in a'
    ensures a == a' && b == b'
  {
    var s := a + [c] + b;
    assert s[|a|] == c && s[|a'|] == c;
    assert forall i | 0 <= i < |a| :: s[i] == a[i] && s[i] in a;
    assert forall i | 0 <= i < |a'| :: s[i] == a'[i] && s[i] in a';
    assert |a| == |a'|;
    assert s[|a| + 1..] == b && s[|a| + 1..] == b';
  }

  lemma LastSeparator(a: string, b: string, a': string, b': string, c: char)
    requires a + [c] + b == a' + [c] + b' && c !in b && c !in b'
    ensures a == a' && b == b'
  {
    var s := a + [c] + b;
    assert s[|a|] == c && s[|a'|] == c;
    assert forall i | |a| < i < |s| :: s[i] == b[i - |a| - 1] && s[i] in b;
    assert forall i | |a'| < i < |s| :: s[i] == b'[i - |a'| - 1] && s[i] in b';
    assert |a| == |a'|;
    assert s[..|a|] == a && s[..|a|] == a' && s[|a| + 1..] == b && s[|a| + 1..] == b';
  }

  lemma LabelsTellApart(x: Language, y: Language)
    requires Label(x) == Label(y)
    ensures x == y
  {
    assert Label(x)[0] == Label(y)[0];
  }

  lemma SuffixesTellApart(x: Kind, y: Kind)
    requires Suffix(x) == Suffix(y)
    ensures x == y
  {
    assert Suffix(x)[0] == Suffix(y)[0] && |Suffix(x)| == |Suffix(y)|;
  }

  /** The name of a step tells its directory, language and kind, whatever characters the name
      of the directory has. */
  lemma NamesTellApart(x: Id, y: Id)
    requires NameOf(x) == NameOf(y)
    ensures x == y
  {
    var p, q := NamePrefix(x.dir, x.language), NamePrefix(y.dir, y.language);
    LastSeparator(p, Suffix(x.kind), q, Suffix(y.kind), ':');
    SuffixesTellApart(x.kind, y.kind);
    assert x.dir != "" ==> p == Label(x.language) + ['('] + (x.dir + ")") && '(' in p;
    assert y.dir != "" ==> q == Label(y.language) + ['('] + (y.dir + ")") && '(' in q;
    if x.dir != "" && y.dir != "" {
      FirstSeparator(Label(x.language), x.dir + ")", Label(y.language), y.dir + ")", '(');
      assert (x.dir + ")")[..|x.dir|] == x.dir && (y.dir + ")")[..|x.dir|] == y.dir;
    }
    LabelsTellApart(x.language, y.language);
  }

  function RunOf(language: Language, kind: Kind): string {
    match (language, kind)
    case (Rust, Check) => "cargo check"
    case (Rust, _) => "cargo test"
    case (Bun, Install) => "bun install --frozen-lockfile"
    case (Bun, _) => "bun test"
    case (Node, Install) => "npm ci"
    case (Node, _) => "npm test"
    case (Python, Install) => "pip install -e ."
    case (Python, InstallDeps) => "pip install -r requirements.txt"
    case (Python, _) => "pytest"
    case (Go, Build) => "go build ./..."
    case (Go, Vet) => "go vet ./..."
    case (Go, _) => "go test ./..."
  }

  function StepOf(id: Id): Step {
    var installs := id.kind == Install || id.kind == InstallDeps;
    Step(NameOf(id), RunOf(id.language, id.kind), if installs then 120 else 60, true, !installs,
         if id.dir == "" then None else Some(id.dir))
  }

  function StepsOf(ids: seq<Id>): (steps: seq<Step>)
    ensures |steps| == |ids| && forall i | 0 <= i < |ids| :: steps[i] == StepOf(ids[i])
  {
    seq(|ids|, i requires 0 <= i < |ids| => StepOf(ids[i]))
  }

  // ---- Which steps a directory gets ----

  function LanguageOfPackage(m: Markers): Language { if m.bunLock || m.bunLockb then Bun else Node }

  /** The languages found in a directory. */
  function Languages(m: Markers): set<Language> {
    (if m.cargo then {Rust} else {}) + (if m.package then {LanguageOfPackage(m)} else {})
    + (if m.pyproject || m.requirements then {Python} else {}) + (if m.goMod then {Go} else {})
  }

  /** The kinds of step a language has, given the markers. */
  predicate Applies(language: Language, kind: Kind, m: Markers) {
    match language
    case Rust => kind == Check || kind == Test
    case Bun => kind == Install || kind == Test
    case Node => kind == Install || kind == Test
    case Python => kind == Test || (kind == Install && m.pyproject) || (kind == InstallDeps && m.requirements)
    case Go => kind == Build || kind == Vet || kind == Test
  }

  /** A directory gets a step when the language is found in it, the kind applies, and, below
      the root, the language is not found at the root. */
  predicate Wanted(id: Id, dir: string, m: Markers, root: Markers) {
    id.dir == dir && id.language in Languages(m) && Applies(id.language, id.kind, m)
    && (dir == "" || id.language !in Languages(root))
  }

  function PlanOf(dir: string, language: Language, m: Markers): seq<Id> {
    match language
    case Rust => [Id(dir, Rust, Check), Id(dir, Rust, Test)]
    case Python =>
      (if m.pyproject then [Id(dir, Python, Install)] else [])
      + (if m.requirements then [Id(dir, Python, InstallDeps)] else []) + [Id(dir, Python, Test)]
    case Go => [Id(dir, Go, Build), Id(dir, Go, Vet), Id(dir, Go, Test)]
    case other => [Id(dir, other, Install), Id(dir, other, Test)]
  }

  function PlanIf(dir: string, language: Language, m: Markers, root: Markers): seq<Id> {
    if language in Languages(m) && (dir == "" || language !in Languages(root)) then PlanOf(dir, language, m) else []
  }

  /** The steps of one directory in order. */
  function Plan(dir: string, m: Markers, root: Markers): seq<Id> {
    PlanIf(dir, Rust, m, root) + PlanIf(dir, LanguageOfPackage(m), m, root) + PlanIf(dir, Python, m, root) + PlanIf(dir, Go, m, root)
  }

  lemma PlanOfExact(dir: string, language: Language, m: Markers, id: Id)
    ensures id in PlanOf(dir, language, m) <==> id == Id(dir, language, id.kind) && Applies(language, id.kind, m)
  {
    var same := Id(dir, language, id.kind);
    assert same in PlanOf(dir, language, m) <==> Applies(language, id.kind, m);
  }

  lemma PlanIfExact(dir: string, language: Language, m: Markers, root: Markers, id: Id)
    ensures id in PlanIf(dir, language, m, root) <==> Wanted(id, dir, m, root) && id.language == language
  {
    PlanOfExact(dir, language, m, id);
  }

  lemma PlanOfOnce(dir: string, language: Language, m: Markers)
    ensures NoDuplicates(PlanOf(dir, language, m))
    ensures forall id | id in PlanOf(dir, language, m) :: id.language == language
  {
    var plan := PlanOf(dir, language, m);
    assert forall i, j | 0 <= i < j < |plan| :: plan[i].kind != plan[j].kind;
  }

  lemma PlanIfOnce(dir: string, language: Language, m: Markers, root: Markers)
    ensures NoDuplicates(PlanIf(dir, language, m, root))
    ensures forall id | id in PlanIf(dir, language, m, root) :: id.language == language
  {
    PlanOfOnce(dir, language, m);
  }

  lemma AppendNoDuplicates(a: seq<Id>, b: seq<Id>)
    requires NoDuplicates(a) && NoDuplicates(b) && forall x, y | x in a && y in b :: x.language != y.language
    ensures NoDuplicates(a + b)
  {
    var s := a + b;
    forall i, j | 0 <= i < j < |s| ensures s[i] != s[j] {
      if i < |a| && |a| <= j { assert s[i] in a && s[j] in b; }
    }
  }

  /** A directory gets exactly the wanted steps, each once. */
  lemma {:induction false} PlanExact(dir: string, m: Markers, root: Markers)
    ensures NoDuplicates(Plan(dir, m, root))
    ensures forall id :: id in Plan(dir, m, root) <==> Wanted(id, dir, m, root)
  {
    PlanOnce(dir, m, root);
    var l := LanguageOfPackage(m);
    forall id ensures id in Plan(dir, m, root) <==> Wanted(id, dir, m, root) {
      PlanIfExact(dir, Rust, m, root, id);
      PlanIfExact(dir, l, m, root, id);
      PlanIfExact(dir, Python, m, root, id);
      PlanIfExact(dir, Go, m, root, id);
    }
  }

  lemma PlanOnce(dir: string, m: Markers, root: Markers)
    ensures NoDuplicates(Plan(dir, m, root))
  {
    var l := LanguageOfPackage(m);
    var p1, p2 := PlanIf(dir, Rust, m, root), PlanIf(dir, l, m, root);
    var p3, p4 := PlanIf(dir, Python, m, root), PlanIf(dir, Go, m, root);
    PlanIfOnce(dir, Rust, m, root);
    PlanIfOnce(dir, l, m, root);
    PlanIfOnce(dir, Python, m, root);
    PlanIfOnce(dir, Go, m, root);
    AppendNoDuplicates(p1, p2);
    AppendNoDuplicates(p1 + p2, p3);
    AppendNoDuplicates(p1 + p2 + p3, p4);
  }

  // ---- What that means, marker by marker ----

  function Prefixed(tool: string, dir: string, suffix: string): string {
    (if dir == "" then tool else tool + "(" + dir + ")") + suffix
  }

  function In(dir: string): Option<string> { if dir == "" then None else Some(dir) }

  lemma NameIs(dir: string, language: Language, kind: Kind)
    ensures NameOf(Id(dir, language, kind)) == Prefixed(Label(language), dir, ":" + Suffix(kind))
  {
    assert NamePrefix(dir, language) + ":" + Suffix(kind) == NamePrefix(dir, language) + (":" + Suffix(kind));
  }

  lemma KindsNamed()
    ensures ":" + Suffix(Check) == ":check" && ":" + Suffix(Test) == ":test" && ":" + Suffix(Install) == ":install"
    ensures ":" + Suffix(InstallDeps) == ":install-deps" && ":" + Suffix(Build) == ":build" && ":" + Suffix(Vet) == ":vet"
  {
  }

  /** A Cargo manifest: check and test, unless the root has one too. */
  lemma RustSteps(dir: string, m: Markers, root: Markers)
    ensures StepsOf(PlanIf(dir, Rust, m, root)) ==
            if m.cargo && (dir == "" || !root.cargo) then
              [Step(Prefixed("rust", dir, ":check"), "cargo check", 60, true, true, In(dir)),
               Step(Prefixed("rust", dir, ":test"), "cargo test", 60, true, true, In(dir))]
            else []
  {
    KindsNamed();
    NameIs(dir, Rust, Check);
    NameIs(dir, Rust, Test);
    assert Rust in Languages(m) <==> m.cargo;
    assert Rust in Languages(root) <==> root.cargo;
  }

  /** A package manifest: install and test with bun if there is a lock file of it, else with npm,
      unless the root has a package for the same one of the two. */
  lemma PackageManifestSteps(dir: string, m: Markers, root: Markers)
    ensures StepsOf(PlanIf(dir, LanguageOfPackage(m), m, root)) ==
            var bun, rootBun := m.bunLock || m.bunLockb, root.bunLock || root.bunLockb;
            if m.package && (dir == "" || !(root.package && bun == rootBun)) then
              if bun then
                [Step(Prefixed("bun", dir, ":install"), "bun install --frozen-lockfile", 120, true, false, In(dir)),
                 Step(Prefixed("bun", dir, ":test"), "bun test", 60, true, true, In(dir))]
              else
                [Step(Prefixed("node", dir, ":install"), "npm ci", 120, true, false, In(dir)),
                 Step(Prefixed("node", dir, ":test"), "npm test", 60, true, true, In(dir))]
            else []
  {
    var l := LanguageOfPackage(m);
    KindsNamed();
    NameIs(dir, l, Install);
    NameIs(dir, l, Test);
    assert l in Languages(m) <==> m.package;
    assert l in Languages(root) <==> root.package && (m.bunLock || m.bunLockb) == (root.bunLock || root.bunLockb);
  }

  lemma PythonStep(dir: string, kind: Kind)
    requires kind == Install || kind == InstallDeps || kind == Test
    ensures StepsOf([Id(dir, Python, kind)]) ==
            [if kind == Install then Step(Prefixed("python", dir, ":install"), "pip install -e .", 120, true, false, In(dir))
             else if kind == InstallDeps
             then Step(Prefixed("python", dir, ":install-deps"), "pip install -r requirements.txt", 120, true, false, In(dir))
             else Step(Prefixed("python", dir, ":test"), "pytest", 60, true, true, In(dir))]
  {
    KindsNamed();
    NameIs(dir, Python, kind);
  }

  lemma PythonParts(dir: string, m: Markers)
    ensures StepsOf(PlanOf(dir, Python, m)) ==
            (if m.pyproject then StepsOf([Id(dir, Python, Install)]) else [])
            + (if m.requirements then StepsOf([Id(dir, Python, InstallDeps)]) else []) + StepsOf([Id(dir, Python, Test)])
  {
  }

  /** A Python project: the installs that its files ask for and pytest, unless the root is one
      too. */
  lemma PythonProjectSteps(dir: string, m: Markers, root: Markers)
    ensures StepsOf(PlanIf(dir, Python, m, root)) ==
            if (m.pyproject || m.requirements) && (dir == "" || !(root.pyproject || root.requirements)) then
              (if m.pyproject then [Step(Prefixed("python", dir, ":install"), "pip install -e .", 120, true, false, In(dir))] else [])
              + (if m.requirements
                 then [Step(Prefixed("python", dir, ":install-deps"), "pip install -r requirements.txt", 120, true, false, In(dir))]
                 else [])
              + [Step(Prefixed("python", dir, ":test"), "pytest", 60, true, true, In(dir))]
            else []
  {
    PythonParts(dir, m);
    PythonStep(dir, Install);
    PythonStep(dir, InstallDeps);
    PythonStep(dir, Test);
    assert Python in Languages(m) <==> m.pyproject || m.requirements;
    assert Python in Languages(root) <==> root.pyproject || root.requirements;
  }

  /** A Go module: build, vet and test, unless the root is one too. */
  lemma GoSteps(dir: string, m: Markers, root: Markers)
    ensures StepsOf(PlanIf(dir, Go, m, root)) ==
            if m.goMod && (dir == "" || !root.goMod) then
              [Step(Prefixed("go", dir, ":build"), "go build ./...", 60, true, true, In(dir)),
               Step(Prefixed("go", dir, ":vet"), "go vet ./...", 60, true, true, In(dir)),
               Step(Prefixed("go", dir, ":test"), "go test ./...", 60, true, true, In(dir))]
            else []
  {
    KindsNamed();
    NameIs(dir, Go, Build);
    NameIs(dir, Go, Vet);
    NameIs(dir, Go, Test);
    assert Go in Languages(m) <==> m.goMod;
    assert Go in Languages(root) <==> root.goMod;
  }

  lemma StepsAppend(a: seq<Id>, b: seq<Id>)
    ensures StepsOf(a + b) == StepsOf(a) + StepsOf(b)
  {
  }

  lemma PlanInParts(steps: seq<Step>, a: seq<Id>, b: seq<Id>, c: seq<Id>, d: seq<Id>)
    ensures steps + StepsOf(a) + StepsOf(b) + StepsOf(c) + StepsOf(d) == steps + StepsOf(a + b + c + d)
  {
    StepsAppend(a, b);
    StepsAppend(a + b, c);
    StepsAppend(a + b + c, d);
  }

  /** The four of them, in this order, are the steps of a directory. */
  lemma StepsInOrder(dir: string, m: Markers, root: Markers)
    ensures StepsOf(Plan(dir, m, root)) ==
            StepsOf(PlanIf(dir, Rust, m, root)) + StepsOf(PlanIf(dir, LanguageOfPackage(m), m, root))
            + StepsOf(PlanIf(dir, Python, m, root)) + StepsOf(PlanIf(dir, Go, m, root))
  {
    PlanInParts([], PlanIf(dir, Rust, m, root), PlanIf(dir, LanguageOfPackage(m), m, root), PlanIf(dir, Python, m, root),
                PlanIf(dir, Go, m, root));
  }

  // ---- The whole repository ----

  predicate Scanned(e: Entry) {
    e.isDir && !(e.name != "" && e.name[0] == '.') && e.name != "node_modules" && e.name != "target"
  }

  /** Not files, hidden directories, or these two. */
  lemma ScannedIff(e: Entry)
    requires e.name != ""
    ensures Scanned(e) <==> e.isDir && e.name[0] != '.' && e.name !in {"node_modules", "target"}
  {
  }

  /** The scanned subdirectories of a listing, by name. */
  ghost predicate InOrder(dirs: seq<Entry>, listing: seq<Entry>) {
    && ByName(dirs)
    && (forall e :: e in dirs <==> e in listing && Scanned(e))
  }

  /** Directory entries have names of their own, none of them empty. */
  ghost predicate IsListing(listing: seq<Entry>) {
    && (forall i, j | 0 <= i < j < |listing| :: listing[i].name != listing[j].name)
    && (forall e | e in listing :: e.name != "")
  }

  function PlanAll(root: Markers, dirs: seq<Entry>): seq<Id> {
    if dirs == [] then Plan("", root, root)
    else PlanAll(root, dirs[..|dirs| - 1]) + Plan(dirs[|dirs| - 1].name, dirs[|dirs| - 1].markers, root)
  }

  function WorkflowOf(steps: seq<Step>): Workflow {
    if steps == [] then Workflow(30, [])
    else Workflow(if TotalTimeout(steps) > 60 then TotalTimeout(steps) else 60, [Stage("checks", false, steps)])
  }

  method NewStep(dir: string, language: Language, kind: Kind, run: string, timeout: nat, changesetAware: bool) returns (step: Step)
    requires run == RunOf(language, kind)
    requires timeout == if kind == Install || kind == InstallDeps then 120 else 60
    requires changesetAware <==> timeout == 60
    ensures step == StepOf(Id(dir, language, kind))
  {
    var namePrefix := if dir == "" then Label(language) else Label(language) + "(" + dir + ")";
    step := Step(namePrefix + ":" + Suffix(kind), run, timeout, true, changesetAware, if dir == "" then None else Some(dir));
  }

  method DetectRust(dir: string, m: Markers, root: Markers, rootLanguages: set<Language>, steps: seq<Step>) returns (more: seq<Step>)
    requires rootLanguages == Languages(root)
    ensures more == steps + StepsOf(PlanIf(dir, Rust, m, root))
  {
    more := steps;
    if m.cargo && (dir == "" || Rust !in rootLanguages) {
      var check := NewStep(dir, Rust, Check, "cargo check", 60, true);
      var test := NewStep(dir, Rust, Test, "cargo test", 60, true);
      more := more + [check, test];
    }
  }

  method PackageSteps(dir: string, isBun: bool) returns (found: seq<Step>)
    ensures var l := if isBun then Bun else Node; found == StepsOf([Id(dir, l, Install), Id(dir, l, Test)])
  {
    var langKey := if isBun then Bun else Node;
    var installCmd := if isBun then "bun install --frozen-lockfile" else "npm ci";
    var testCmd := if isBun then "bun test" else "npm test";
    var install := NewStep(dir, langKey, Install, installCmd, 120, false);
    var test := NewStep(dir, langKey, Test, testCmd, 60, true);
    found := [install, test];
  }

  method DetectPackage(dir: string, m: Markers, root: Markers, rootLanguages: set<Language>, steps: seq<Step>) returns (more: seq<Step>)
    requires rootLanguages == Languages(root)
    ensures more == steps + StepsOf(PlanIf(dir, LanguageOfPackage(m), m, root))
  {
    more := steps;
    if m.package {
      var isBun := m.bunLock || m.bunLockb;
      var langKey := if isBun then Bun else Node;
      if dir == "" || langKey !in rootLanguages {
        var found := PackageSteps(dir, isBun);
        more := more + found;
      }
    }
  }

  method PythonSteps(dir: string, m: Markers) returns (found: seq<Step>)
    ensures found == StepsOf(PlanOf(dir, Python, m))
  {
    found := [];
    ghost var ids: seq<Id> := [];
    if m.pyproject {
      var install := NewStep(dir, Python, Install, "pip install -e .", 120, false);
      found, ids := [install], [Id(dir, Python, Install)];
    }
    assert found == StepsOf(ids);
    if m.requirements {
      var install := NewStep(dir, Python, InstallDeps, "pip install -r requirements.txt", 120, false);
      StepsAppend(ids, [Id(dir, Python, InstallDeps)]);
      found, ids := found + [install], ids + [Id(dir, Python, InstallDeps)];
    }
    assert found == StepsOf(ids);
    var test := NewStep(dir, Python, Test, "pytest", 60, true);
    StepsAppend(ids, [Id(dir, Python, Test)]);
    found := found + [test];
  }

  method DetectPython(dir: string, m: Markers, root: Markers, rootLanguages: set<Language>, steps: seq<Step>) returns (more: seq<Step>)
    requires rootLanguages == Languages(root)
    ensures more == steps + StepsOf(PlanIf(dir, Python, m, root))
  {
    more := steps;
    if (m.pyproject || m.requirements) && (dir == "" || Python !in rootLanguages) {
      var found := PythonSteps(dir, m);
      more := more + found;
    }
  }

  method DetectGo(dir: string, m: Markers, root: Markers, rootLanguages: set<Language>, steps: seq<Step>) returns (more: seq<Step>)
    requires rootLanguages == Languages(root)
    ensures more == steps + StepsOf(PlanIf(dir, Go, m, root))
  {
    more := steps;
    if m.goMod && (dir == "" || Go !in rootLanguages) {
      var build := NewStep(dir, Go, Build, "go build ./...", 60, true);
      var vet := NewStep(dir, Go, Vet, "go vet ./...", 60, true);
      var test := NewStep(dir, Go, Test, "go test ./...", 60, true);
      more := more + [build, vet, test];
    }
  }

  method DetectIn(dir: string, m: Markers, root: Markers, rootLanguages: set<Language>, steps: seq<Step>) returns (more: seq<Step>)
    requires rootLanguages == Languages(root)
    ensures more == steps + StepsOf(Plan(dir, m, root))
  {
    var l := LanguageOfPackage(m);
    ghost var a, b := PlanIf(dir, Rust, m, root), PlanIf(dir, l, m, root);
    ghost var c, d := PlanIf(dir, Python, m, root), PlanIf(dir, Go, m, root);
    PlanInParts(steps, a, b, c, d);
    more := DetectRust(dir, m, root, rootLanguages, steps);
    more := DetectPackage(dir, m, root, rootLanguages, more);
    more := DetectPython(dir, m, root, rootLanguages, more);
    more := DetectGo(dir, m, root, rootLanguages, more);
    assert Plan(dir, m, root) == a + b + c + d;
  }

  /** The first pass: the languages at the root. */
  method CollectRootLanguages(m: Markers) returns (rootLanguages: set<Language>)
    ensures rootLanguages == Languages(m)
  {
    rootLanguages := {};
    if m.cargo {
      rootLanguages := rootLanguages + {Rust};
    }
    if m.package {
      var isBun := m.bunLock || m.bunLockb;
      rootLanguages := rootLanguages + {if isBun then Bun else Node};
    }
    if m.pyproject || m.requirements {
      rootLanguages := rootLanguages + {Python};
    }
    if m.goMod {
      rootLanguages := rootLanguages + {Go};
    }
  }

  ghost predicate ByName(dirs: seq<Entry>) {
    forall i, j | 0 <= i < j < |dirs| :: Less(dirs[i].name, dirs[j].name)
  }

  lemma ByNameAppend(dirs: seq<Entry>, e: Entry)
    requires ByName(dirs) && (dirs == [] || Less(dirs[|dirs| - 1].name, e.name))
    ensures ByName(dirs + [e])
  {
    forall i | 0 <= i < |dirs| ensures Less(dirs[i].name, e.name) {
      if i < |dirs| - 1 { LessTransitive(dirs[i].name, dirs[|dirs| - 1].name, e.name); }
    }
  }

  /** Where a directory goes among those before it. */
  function Place(e: Entry, dirs: seq<Entry>): seq<Entry> {
    if dirs == [] || Less(dirs[|dirs| - 1].name, e.name) then dirs + [e]
    else Place(e, dirs[..|dirs| - 1]) + [dirs[|dirs| - 1]]
  }

  lemma {:induction false} PlaceKeeps(e: Entry, dirs: seq<Entry>)
    requires ByName(dirs) && forall d | d in dirs :: d.name != e.name
    ensures ByName(Place(e, dirs))
    ensures forall x :: x in Place(e, dirs) <==> x == e || x in dirs
  {
    if dirs == [] || Less(dirs[|dirs| - 1].name, e.name) {
      ByNameAppend(dirs, e);
    } else {
      var front, last := dirs[..|dirs| - 1], dirs[|dirs| - 1];
      var placed := Place(e, front);
      PlaceKeeps(e, front);
      assert last in dirs;
      LessTotal(e.name, last.name);
      assert placed[|placed| - 1] in placed;
      ByNameAppend(placed, last);
      assert dirs == front + [last];
    }
  }

  /** The scan: keep the directories to look into and sort them by name. */
  method ScanDirs(listing: seq<Entry>) returns (dirs: seq<Entry>)
    requires IsListing(listing)
    ensures InOrder(dirs, listing)
  {
    dirs := [];
    for i := 0 to |listing|
      invariant InOrder(dirs, listing[..i])
    {
      var e := listing[i];
      assert listing[..i + 1] == listing[..i] + [e];
      if Scanned(e) {
        forall d | d in dirs ensures d.name != e.name {
          var k :| 0 <= k < i && listing[..i][k] == d;
        }
        PlaceKeeps(e, dirs);
        dirs := Place(e, dirs);
      }
    }
    assert listing[..|listing|] == listing;
  }

  method DetectAll(root: Markers, rootLanguages: set<Language>, scan: seq<Entry>) returns (steps: seq<Step>)
    requires rootLanguages == Languages(root)
    ensures steps == StepsOf(PlanAll(root, scan))
  {
    steps := DetectIn("", root, root, rootLanguages, []);
    for i := 0 to |scan|
      invariant steps == StepsOf(PlanAll(root, scan[..i]))
    {
      assert scan[..i + 1][..i] == scan[..i];
      steps := DetectIn(scan[i].name, scan[i].markers, root, rootLanguages, steps);
      StepsAppend(PlanAll(root, scan[..i]), Plan(scan[i].name, scan[i].markers, root));
    }
    assert scan[..|scan|] == scan;
  }

  /** The workflow of a repository; without a listing only its root counts. */
  method DetectWorkflow(root: Markers, listing: Option<seq<Entry>>) returns (workflow: Workflow)
    requires listing.Some? ==> IsListing(listing.value)
    ensures exists dirs :: InOrder(dirs, if listing.Some? then listing.value else []) &&
                           workflow == WorkflowOf(StepsOf(PlanAll(root, dirs)))
  {
    var dirs := [];
    if listing.Some? {
      dirs := ScanDirs(listing.value);
    }
    assert InOrder(dirs, if listing.Some? then listing.value else []);
    var rootLanguages := CollectRootLanguages(root);
    var steps := DetectAll(root, rootLanguages, dirs);
    if steps == [] {
      return Workflow(30, []);
    }
    var total := SumTimeouts(steps);
    workflow := Workflow(if total > 60 then total else 60, [Stage("checks", false, steps)]);
  }

  method SumTimeouts(steps: seq<Step>) returns (total: nat)
    ensures total == TotalTimeout(steps)
  {
    total := 0;
    for i := 0 to |steps|
      invariant total == TotalTimeout(steps[..i])
    {
      TimeoutOneMore(steps, i);
      total := total + steps[i].timeout;
    }
    assert steps[..|steps|] == steps;
  }

  lemma {:induction false} TimeoutOneMore(steps: seq<Step>, n: nat)
    requires n < |steps|
    ensures TotalTimeout(steps[..n + 1]) == TotalTimeout(steps[..n]) + steps[n].timeout
  {
    if n > 0 {
      TimeoutOneMore(steps[1..], n - 1);
      assert steps[1..][..n] == steps[..n + 1][1..] && steps[1..][..n - 1] == steps[..n][1..];
    }
  }

  /** Nothing to run is a workflow without stages; else the steps are one sequential stage, under
      their timeouts together or a minute if that is more. */
  lemma WorkflowIs(steps: seq<Step>)
    ensures steps == [] ==> WorkflowOf(steps).stages == [] && WorkflowOf(steps).timeout == 30
    ensures steps != [] ==>
              && |WorkflowOf(steps).stages| == 1 && WorkflowOf(steps).stages[0].steps == steps
              && !WorkflowOf(steps).stages[0].parallel && WorkflowOf(steps).stages[0].name == "checks"
              && WorkflowOf(steps).timeout >= 60 && WorkflowOf(steps).timeout >= TotalTimeout(steps)
              && (WorkflowOf(steps).timeout == 60 || WorkflowOf(steps).timeout == TotalTimeout(steps))
  {
  }

  /** The root comes first and the directories follow in their order. */
  lemma PlanAllInOrder(root: Markers, dirs: seq<Entry>, d: Entry)
    ensures PlanAll(root, []) == Plan("", root, root)
    ensures PlanAll(root, dirs + [d]) == PlanAll(root, dirs) + Plan(d.name, d.markers, root)
  {
    assert (dirs + [d])[..|dirs|] == dirs;
  }

  // ---- What holds of every detected workflow ----

  /** The order in which the file system lists the directories makes no difference. */
  lemma ListingOrderIrrelevant(listing: seq<Entry>, listing': seq<Entry>, dirs: seq<Entry>, dirs': seq<Entry>)
    requires IsListing(listing) && forall e :: e in listing <==> e in listing'
    requires InOrder(dirs, listing) && InOrder(dirs', listing')
    ensures dirs == dirs'
  {
    var names, names' := NamesOf(dirs), NamesOf(dirs');
    forall x ensures x in Elements(names) <==> x in Elements(names') {
      if x in names { var i :| 0 <= i < |names| && names[i] == x; assert dirs[i] in dirs'; }
      if x in names' { var i :| 0 <= i < |names'| && names'[i] == x; assert dirs'[i] in dirs; }
    }
    AscendingUnique(names, names');
    forall i | 0 <= i < |dirs| ensures dirs[i] == dirs'[i] {
      assert names[i] == names'[i];
      assert dirs[i] in listing && dirs'[i] in dirs' && dirs'[i] in listing;
    }
  }

  function NamesOf(dirs: seq<Entry>): (names: seq<string>)
    ensures |names| == |dirs| && forall i | 0 <= i < |names| :: names[i] == dirs[i].name
  {
    seq(|dirs|, i requires 0 <= i < |dirs| => dirs[i].name)
  }

  /** A step is in the plan exactly when its directory, the root or a scanned one, wants it. */
  lemma {:induction false} PlanAllExact(root: Markers, dirs: seq<Entry>, id: Id)
    requires forall d | d in dirs :: d.name != ""
    ensures id in PlanAll(root, dirs) <==>
            Wanted(id, "", root, root) || exists d :: d in dirs && Wanted(id, d.name, d.markers, root)
  {
    if dirs == [] {
      PlanExact("", root, root);
    } else {
      var front, last := dirs[..|dirs| - 1], dirs[|dirs| - 1];
      PlanAllExact(root, front, id);
      PlanExact(last.name, last.markers, root);
      assert forall d :: d in dirs <==> d in front || d == last;
    }
  }

  /** No subdirectory has a step for a language that the root has. */
  lemma {:induction false} RootLanguageWins(root: Markers, dirs: seq<Entry>, id: Id)
    requires forall d | d in dirs :: d.name != ""
    ensures id in PlanAll(root, dirs) && id.dir != "" ==> id.language !in Languages(root)
  {
    PlanAllExact(root, dirs, id);
  }

  lemma {:induction false} PlanAllOnce(root: Markers, dirs: seq<Entry>)
    requires forall d | d in dirs :: d.name != ""
    requires forall i, j | 0 <= i < j < |dirs| :: dirs[i].name != dirs[j].name
    ensures NoDuplicates(PlanAll(root, dirs))
  {
    if dirs == [] {
      PlanExact("", root, root);
    } else {
      var front, last := dirs[..|dirs| - 1], dirs[|dirs| - 1];
      PlanAllOnce(root, front);
      PlanExact(last.name, last.markers, root);
      var a, b := PlanAll(root, front), Plan(last.name, last.markers, root);
      forall x, y | x in a && y in b ensures x != y { PlanAllExact(root, front, x); }
      var s := a + b;
      forall i, j | 0 <= i < j < |s| ensures s[i] != s[j] {
        if i < |a| && |a| <= j { assert s[i] in a && s[j] in b; }
      }
    }
  }

  /** Whatever the directories are called, no two steps have the same name. */
  lemma {:induction false} StepNamesDiffer(root: Markers, listing: seq<Entry>, dirs: seq<Entry>, i: nat, j: nat)
    requires IsListing(listing) && InOrder(dirs, listing)
    requires i < j < |StepsOf(PlanAll(root, dirs))|
    ensures StepsOf(PlanAll(root, dirs))[i].name != StepsOf(PlanAll(root, dirs))[j].name
  {
    var ids := PlanAll(root, dirs);
    forall d | d in dirs ensures d.name != "" { assert d in listing; }
    forall k, l | 0 <= k < l < |dirs| ensures dirs[k].name != dirs[l].name { LessTotal(dirs[k].name, dirs[l].name); }
    PlanAllOnce(root, dirs);
    if NameOf(ids[i]) == NameOf(ids[j]) {
      NamesTellApart(ids[i], ids[j]);
    }
  }

  /** The derived timeout is enough for every run in which each step keeps its own timeout. */
  lemma TimeoutCoversTheRun(steps: seq<Step>, outcomes: Outcomes)
    requires InTime(WorkflowOf(steps).stages, outcomes)
    ensures AllTimeouts(WorkflowOf(steps).stages) <= WorkflowOf(steps).timeout
    ensures RunTime(WorkflowOf(steps).stages, outcomes) <= WorkflowOf(steps).timeout
  {
    RunsWithinTimeouts(WorkflowOf(steps).stages, outcomes);
  }
}
