/** Rewriting a verification command so that it covers only what a changeset touches. */
module CommandScope {
  import opened Common
  import opened Ordering
  import opened Text

  predicate IsSafeName(name: string) {
    && name != "" && name[0] != '-'
    && forall c | c in name :: 'a' <= c <= 'z' || 'A' <= c <= 'Z' || '0' <= c <= '9' || c in "-_."
  }

  /** A safe name is not empty, is no flag, and has only the letters, digits, hyphens, dots and
      underscores of ASCII, here by their codes. */
  lemma SafeNameIff(name: string)
    ensures IsSafeName(name) <==>
              && |name| > 0 && name[0] as int != 45
              && forall i | 0 <= i < |name| :: SafeCode(name[i] as int)
  {
    if IsSafeName(name) {
      forall i | 0 <= i < |name| ensures SafeCode(name[i] as int) { assert name[i] in name; }
    }
  }

  predicate SafeCode(code: int) {
    code in {45, 46, 95} || 48 <= code <= 57 || 65 <= code <= 90 || 97 <= code <= 122
  }

  /** `f` lies under `root`/`name`. */
  predicate Under(f: string, root: string, name: string) {
    f == root + "/" + name || StartsWith(f, root + "/" + name + "/")
  }

  predicate NamedBy(f: string, root: string, name: string) {
    var parts := Split(f, '/');
    |parts| >= 2 && parts[0] == root && parts[1] == name && IsSafeName(name)
  }

  /** The pieces of a path that the extraction looks at say that it lies under the directory. */
  lemma NamedByIsUnder(f: string, root: string, name: string)
    requires '/' !in root && IsSafeName(name)
    ensures NamedBy(f, root, name) <==> Under(f, root, name)
  {
    FirstPiece(f, '/', root);
    var dir := root + "/";
    assert dir == root + ['/'];
    if StartsWith(f, dir) {
      var rest := f[|root| + 1..];
      FirstPiece(rest, '/', name);
      assert f == dir + rest;
      assert f == dir + name <==> rest == name by { assert f[|dir|..] == rest && (dir + name)[|dir|..] == name; }
      assert StartsWith(f, dir + name + "/") <==> StartsWith(rest, name + ['/']) by {
        assert dir + name + "/" == dir + (name + ['/']);
        if StartsWith(rest, name + ['/']) { assert f[..|dir| + |name| + 1] == dir + rest[..|name| + 1]; }
        if StartsWith(f, dir + name + "/") { assert rest[..|name| + 1] == f[..|dir| + |name| + 1][|dir|..]; }
      }
      assert Split(f, '/') == [root] + Split(rest, '/');
    } else {
      assert (dir + name)[..|dir|] == dir && (dir + name + "/")[..|dir|] == dir;
    }
  }

  /** The names that the changed files give. */
  ghost function NamesUnder(files: set<string>, root: string): set<string> {
    set f | f in files && |Split(f, '/')| >= 2 && NamedBy(f, root, Split(f, '/')[1]) :: Split(f, '/')[1]
  }

  ghost function Dirs(names: set<string>): set<string> {
    set n | n in names :: "src/" + n
  }

  /** The top entries, files included, except the directory of the tests. */
  ghost function TopNames(files: set<string>): set<string> {
    set f | f in files && Split(f, '/')[0] != "tests" && IsSafeName(Split(f, '/')[0]) :: Split(f, '/')[0]
  }

  /** A name is found exactly when it is safe and some changed file lies under it. */
  lemma FoundIffWitnessed(files: set<string>, root: string, name: string)
    requires '/' !in root
    ensures name in NamesUnder(files, root) <==> IsSafeName(name) && exists f :: f in files && Under(f, root, name)
  {
    if IsSafeName(name) {
      forall f | f in files ensures NamedBy(f, root, name) <==> Under(f, root, name) { NamedByIsUnder(f, root, name); }
      if f :| f in files && Under(f, root, name) { assert Split(f, '/')[1] == name; }
    }
  }

  lemma TopFoundIffWitnessed(files: set<string>, name: string)
    ensures name in TopNames(files) <==>
            IsSafeName(name) && name != "tests" && exists f :: f in files && (f == name || StartsWith(f, name + "/"))
  {
    if IsSafeName(name) {
      forall f | f in files ensures Split(f, '/')[0] == name <==> f == name || StartsWith(f, name + "/") {
        FirstPiece(f, '/', name);
      }
      if f :| f in files && (f == name || StartsWith(f, name + "/")) { assert Split(f, '/')[0] == name; }
    }
  }

  method ExtractRustCrates(files: seq<string>) returns (sorted: seq<string>)
    ensures Ascending(sorted) && Elements(sorted) == NamesUnder(Elements(files), "crates")
  {
    var crates: set<string> := {};
    for i := 0 to |files|
      invariant crates == NamesUnder(Elements(files[..i]), "crates")
    {
      assert Elements(files[..i + 1]) == Elements(files[..i]) + {files[i]};
      var parts := Split(files[i], '/');
      if |parts| >= 2 && parts[0] == "crates" && IsSafeName(parts[1]) {
        crates := crates + {parts[1]};
      }
    }
    assert files[..|files|] == files;
    sorted := SortNames(crates);
  }

  method ExtractTsDirs(files: seq<string>) returns (sorted: seq<string>)
    ensures Ascending(sorted) && Elements(sorted) == Dirs(NamesUnder(Elements(files), "src"))
    ensures forall d :: d in sorted <==> exists n :: n in NamesUnder(Elements(files), "src") && d == "src/" + n
  {
    var dirs: set<string> := {};
    for i := 0 to |files|
      invariant dirs == Dirs(NamesUnder(Elements(files[..i]), "src"))
    {
      assert Elements(files[..i + 1]) == Elements(files[..i]) + {files[i]};
      var parts := Split(files[i], '/');
      if |parts| >= 2 && parts[0] == "src" && IsSafeName(parts[1]) {
        assert NamesUnder(Elements(files[..i + 1]), "src") == NamesUnder(Elements(files[..i]), "src") + {parts[1]};
        dirs := dirs + {"src/" + parts[1]};
      } else {
        assert NamesUnder(Elements(files[..i + 1]), "src") == NamesUnder(Elements(files[..i]), "src");
      }
    }
    assert files[..|files|] == files;
    sorted := SortNames(dirs);
    forall d ensures d in sorted <==> exists n :: n in NamesUnder(Elements(files), "src") && d == "src/" + n {
      assert d in sorted <==> d in Elements(sorted);
    }
  }

  method ExtractPythonPackages(files: seq<string>) returns (sorted: seq<string>)
    ensures Ascending(sorted) && Elements(sorted) == TopNames(Elements(files))
  {
    var pkgs: set<string> := {};
    for i := 0 to |files|
      invariant pkgs == TopNames(Elements(files[..i]))
    {
      assert Elements(files[..i + 1]) == Elements(files[..i]) + {files[i]};
      var parts := Split(files[i], '/');
      if parts[0] != "tests" && IsSafeName(parts[0]) {
        pkgs := pkgs + {parts[0]};
      }
    }
    assert files[..|files|] == files;
    sorted := SortNames(pkgs);
  }

  // ---- The scoped command ----

  predicate IsCargo(trimmed: string) {
    StartsWith(trimmed, "cargo test") || StartsWith(trimmed, "cargo check") || StartsWith(trimmed, "cargo clippy")
  }

  predicate IsPytest(trimmed: string) {
    StartsWith(trimmed, "pytest") || StartsWith(trimmed, "python -m pytest")
  }

  function PackageFlags(crates: seq<string>): (flags: seq<string>)
    ensures |flags| == |crates| && forall i | 0 <= i < |flags| :: flags[i] == "-p " + crates[i]
  {
    if crates == [] then [] else ["-p " + crates[0]] + PackageFlags(crates[1..])
  }

  /** What the flags are once split: `-p` before every crate. */
  function FlagWords(crates: seq<string>): seq<string> {
    if crates == [] then [] else ["-p", crates[0]] + FlagWords(crates[1..])
  }

  lemma {:induction false} FlagWordsAre(crates: seq<string>)
    ensures |FlagWords(crates)| == 2 * |crates|
    ensures forall i | 0 <= i < |crates| :: FlagWords(crates)[2 * i] == "-p" && FlagWords(crates)[2 * i + 1] == crates[i]
  {
    if crates != [] {
      FlagWordsAre(crates[1..]);
      forall i | 0 <= i < |crates| ensures FlagWords(crates)[2 * i] == "-p" && FlagWords(crates)[2 * i + 1] == crates[i] {
        if i > 0 {
          assert FlagWords(crates)[2 * i] == FlagWords(crates[1..])[2 * (i - 1)];
          assert FlagWords(crates)[2 * i + 1] == FlagWords(crates[1..])[2 * (i - 1) + 1];
        }
      }
    }
  }

  function Upto(s: seq<string>, n: nat): seq<string> { if n <= |s| then s[..n] else s }

  function From(s: seq<string>, n: nat): seq<string> { if n <= |s| then s[n..] else [] }

  lemma SafeNameIsWord(name: string)
    requires IsSafeName(name)
    ensures IsWord(name) && IsWord("src/" + name)
  {
  }

  lemma TwoParts(first: string, rest: string)
    requires IsWord(first)
    ensures SplitWhitespace(first + " " + rest) == [first] + SplitWhitespace(rest)
  {
    SpaceSeparates(first, ' ', rest);
    WordAlone(first);
    assert first + [' '] + rest == first + " " + rest;
  }

  lemma FlagSplits(flag: string, name: string)
    requires IsWord(flag) && IsSafeName(name)
    ensures SplitWhitespace(flag + " " + name) == [flag, name]
  {
    SafeNameIsWord(name);
    TwoParts(flag, name);
    WordAlone(name);
  }

  lemma {:induction false} FlagsSplit(crates: seq<string>)
    requires forall c | c in crates :: IsSafeName(c)
    ensures Words(PackageFlags(crates)) == FlagWords(crates)
  {
    if crates != [] {
      var flag := "-p";
      assert flag + " " + crates[0] == "-p " + crates[0];
      FlagSplits(flag, crates[0]);
      FlagsSplit(crates[1..]);
      assert PackageFlags(crates)[1..] == PackageFlags(crates[1..]);
    }
  }

  /** The scoped cargo command, split into words, is the first two words of the command, the
      package flags, and the rest of its words. */
  lemma CargoRoundTrip(trimmed: string, crates: seq<string>)
    requires forall c | c in crates :: IsSafeName(c)
    ensures var words := SplitWhitespace(trimmed);
            SplitWhitespace(Join([Join(Upto(words, 2))] + PackageFlags(crates) + From(words, 2))) ==
            Upto(words, 2) + FlagWords(crates) + From(words, 2)
  {
    var words := SplitWhitespace(trimmed);
    var front, rest := Upto(words, 2), From(words, 2);
    JoinThenSplit([Join(front)] + PackageFlags(crates) + rest);
    JoinThenSplit(front);
    WordsOfWords(front);
    WordsOfWords(rest);
    WordsAppend([Join(front)] + PackageFlags(crates), rest);
    WordsAppend([Join(front)], PackageFlags(crates));
    assert Words([Join(front)]) == SplitWhitespace(Join(front));
    FlagsSplit(crates);
  }

  lemma {:induction false} HeadThenWords(head: string, words: seq<string>)
    requires forall w | w in words :: IsWord(w)
    ensures SplitWhitespace(Join([head] + words)) == SplitWhitespace(head) + words
  {
    JoinThenSplit([head] + words);
    WordsOfWords(words);
    assert ([head] + words)[1..] == words;
  }

  lemma {:induction false} WordsJoined(head: string, words: seq<string>)
    requires words != [] && head == Join(words) && forall w | w in words :: IsWord(w)
    ensures SplitWhitespace(head) == words
  {
    JoinThenSplit(words);
    WordsOfWords(words);
  }

  lemma HeadIsJoined(tool: seq<string>, head: string)
    requires (tool, head) in {(["bun", "test"], "bun test"), (["pytest"], "pytest"),
                              (["python", "-m", "pytest"], "python -m pytest")}
    ensures tool != [] && Join(tool) == head && forall w | w in tool :: IsWord(w)
  {
  }

  /** The words of the scoped command; none means that the whole command is to run. */
  ghost predicate ScopedWords(command: string, files: set<string>, names: seq<string>, words: Option<seq<string>>) {
    var trimmed := Trim(command);
    var given := SplitWhitespace(command);
    Ascending(names) &&
    if StartsWith(trimmed, "cargo test") || StartsWith(trimmed, "cargo check") || StartsWith(trimmed, "cargo clippy") then
      && Elements(names) == NamesUnder(files, "crates")
      && words == if names == [] then None else Some(Upto(given, 2) + FlagWords(names) + From(given, 2))
    else if StartsWith(trimmed, "bun test") then
      && Elements(names) == Dirs(NamesUnder(files, "src"))
      && words == if names == [] then None else Some(["bun", "test"] + names)
    else if StartsWith(trimmed, "pytest") || StartsWith(trimmed, "python -m pytest") then
      && Elements(names) == TopNames(files)
      && words == if names == [] then None
                  else Some((if StartsWith(trimmed, "python") then ["python", "-m", "pytest"] else ["pytest"]) + names)
    else names == [] && words == None
  }

  function WordsOf(scoped: Option<string>): Option<seq<string>> {
    if scoped.Some? then Some(SplitWhitespace(scoped.value)) else None
  }

  /** Splitting the scoped command on white space gives: for cargo, its first two words, then
      `-p` and a name for exactly the safe crate names of the changed files in strictly
      ascending order, then its remaining words; for the others, the fixed words of the tool
      and the ascending directories or packages. */
  method ScopeCommandToChangeset(command: string, changedFiles: seq<string>) returns (scoped: Option<string>)
    ensures exists names :: ScopedWords(command, Elements(changedFiles), names, WordsOf(scoped))
  {
    ghost var names: seq<string>;
    var trimmed := Trim(command);
    TrimKeepsWords(command);
    if IsCargo(trimmed) {
      var crates := ExtractRustCrates(changedFiles);
      names := crates;
      if crates == [] {
        assert ScopedWords(command, Elements(changedFiles), names, WordsOf(None));
        return None;
      }
      forall c | c in crates ensures IsSafeName(c) { assert c in Elements(crates); }
      var words := SplitWhitespace(trimmed);
      var base := Join(Upto(words, 2));
      var rest := From(words, 2);
      CargoRoundTrip(trimmed, crates);
      scoped := Some(Join([base] + PackageFlags(crates) + rest));
      assert ScopedWords(command, Elements(changedFiles), names, WordsOf(scoped));
      return;
    }
    if StartsWith(trimmed, "bun test") {
      var dirs := ExtractTsDirs(changedFiles);
      names := dirs;
      if dirs == [] {
        assert ScopedWords(command, Elements(changedFiles), names, WordsOf(None));
        return None;
      }
      forall d | d in dirs ensures IsWord(d) {
        assert d in Elements(dirs);
        var n :| n in NamesUnder(Elements(changedFiles), "src") && d == "src/" + n;
        SafeNameIsWord(n);
      }
      HeadIsJoined(["bun", "test"], "bun test");
      WordsJoined("bun test", ["bun", "test"]);
      HeadThenWords("bun test", dirs);
      scoped := Some(Join(["bun test"] + dirs));
      assert ScopedWords(command, Elements(changedFiles), names, WordsOf(scoped));
      return;
    }
    if IsPytest(trimmed) {
      var pkgs := ExtractPythonPackages(changedFiles);
      names := pkgs;
      if pkgs == [] {
        assert ScopedWords(command, Elements(changedFiles), names, WordsOf(None));
        return None;
      }
      forall p | p in pkgs ensures IsWord(p) {
        assert p in Elements(pkgs);
        SafeNameIsWord(p);
      }
      var base := if StartsWith(trimmed, "python") then "python -m pytest" else "pytest";
      ghost var tool := if StartsWith(trimmed, "python") then ["python", "-m", "pytest"] else ["pytest"];
      HeadIsJoined(tool, base);
      WordsJoined(base, tool);
      HeadThenWords(base, pkgs);
      scoped := Some(Join([base] + pkgs));
      assert ScopedWords(command, Elements(changedFiles), names, WordsOf(scoped));
      return;
    }
    assert ScopedWords(command, Elements(changedFiles), [], WordsOf(None));
    return None;
  }

  /** The words do not depend on the order or repetition of the changed files. */
  lemma SameFilesSameWords(command: string, files: seq<string>, files': seq<string>, names: seq<string>, names': seq<string>,
                           words: Option<seq<string>>, words': Option<seq<string>>)
    requires Elements(files) == Elements(files')
    requires ScopedWords(command, Elements(files), names, words)
    requires ScopedWords(command, Elements(files'), names', words')
    ensures words == words' && names == names'
  {
    AscendingUnique(names, names');
  }

  lemma StartsWithWords(s: string, first: string, second: string)
    requires IsWord(first) && IsWord(second) && StartsWith(s, first + " " + second)
    ensures |SplitWhitespace(s)| >= 2 && SplitWhitespace(s)[0] == first
  {
    var head := first + " " + second;
    var rest := s[|first| + 1..];
    assert s == first + " " + rest by { assert s[..|first| + 1] == head[..|first| + 1]; }
    TwoParts(first, rest);
    assert rest[0] == second[0] by { assert s[|first| + 1] == head[|first| + 1]; }
    assert SplitWhitespace(rest) != [];
  }

  lemma CargoWords(trimmed: string)
    requires IsCargo(trimmed)
    ensures |SplitWhitespace(trimmed)| >= 2 && SplitWhitespace(trimmed)[0] == "cargo"
  {
    if StartsWith(trimmed, "cargo test") {
      assert "cargo" + " " + "test" == "cargo test";
      StartsWithWords(trimmed, "cargo", "test");
    } else if StartsWith(trimmed, "cargo check") {
      assert "cargo" + " " + "check" == "cargo check";
      StartsWithWords(trimmed, "cargo", "check");
    } else {
      assert "cargo" + " " + "clippy" == "cargo clippy";
      StartsWithWords(trimmed, "cargo", "clippy");
    }
  }

  /** A scoped cargo command keeps every word of the command, in place. */
  lemma CargoKeepsWords(command: string, files: set<string>, names: seq<string>, words: Option<seq<string>>)
    requires IsCargo(Trim(command)) && ScopedWords(command, files, names, words) && words.Some?
    ensures var given := SplitWhitespace(command);
            && |given| >= 2 && given[0] == "cargo"
            && words.value == given[..2] + FlagWords(names) + given[2..]
  {
    TrimKeepsWords(command);
    CargoWords(Trim(command));
  }

  /** A scoped bun or pytest command keeps the words of the command exactly when there are
      none beyond the name of the tool: any option given to it is dropped. */
  lemma {:induction false} OtherToolsKeepWordsIffBare(command: string, files: set<string>, names: seq<string>, words: Option<seq<string>>)
    requires ScopedWords(command, files, names, words) && words.Some? && !IsCargo(Trim(command))
    ensures var trimmed := Trim(command);
            var tool := if StartsWith(trimmed, "bun test") then ["bun", "test"]
                        else if StartsWith(trimmed, "python") then ["python", "-m", "pytest"] else ["pytest"];
            words.value == SplitWhitespace(command) + names <==> SplitWhitespace(command) == tool
  {
    var trimmed := Trim(command);
    var tool := if StartsWith(trimmed, "bun test") then ["bun", "test"]
                else if StartsWith(trimmed, "python") then ["python", "-m", "pytest"] else ["pytest"];
    var given := SplitWhitespace(command);
    assert words.value == tool + names;
    if tool + names == given + names {
      assert |tool| == |given|;
      assert (tool + names)[..|tool|] == tool && (given + names)[..|tool|] == given;
    }
  }
}
