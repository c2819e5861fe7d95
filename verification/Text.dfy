/** The string operations of the standard library that command scoping uses. */
module Text {
  import opened Common

  /** The characters with the Unicode property White_Space. */
  predicate IsSpace(c: char) {
    '\U{9}' <= c <= '\U{D}' || c == ' ' || c == '\U{85}' || c == '\U{A0}' || c == '\U{1680}'
    || '\U{2000}' <= c <= '\U{200A}' || c == '\U{2028}' || c == '\U{2029}' || c == '\U{202F}' || c == '\U{205F}'
    || c == '\U{3000}'
  }

  /** By code point. */
  lemma SpacesAre(c: char)
    ensures IsSpace(c) <==>
              c as int in {9, 10, 11, 12, 13, 32, 133, 160, 5760, 8192, 8193, 8194, 8195, 8196, 8197, 8198, 8199, 8200, 8201,
                           8202, 8232, 8233, 8239, 8287, 12288}
  {
  }

  predicate StartsWith(t: string, p: string) { |p| <= |t| && t[..|p|] == p }

  predicate IsWord(w: string) {
    w != "" && forall c | c in w :: !IsSpace(c)
  }

  function WordLength(s: string): (n: nat)
    ensures n <= |s|
    ensures forall i | 0 <= i < n :: !IsSpace(s[i])
    ensures n < |s| ==> IsSpace(s[n])
  {
    if s == "" || IsSpace(s[0]) then 0 else 1 + WordLength(s[1..])
  }

  /** `split_whitespace` */
  function SplitWhitespace(s: string): (words: seq<string>)
    ensures forall w | w in words :: IsWord(w)
    decreases |s|
  {
    if s == "" then []
    else if IsSpace(s[0]) then SplitWhitespace(s[1..])
    else
      var n := WordLength(s);
      [s[..n]] + SplitWhitespace(s[n..])
  }

  /** `trim` */
  function Trim(s: string): string {
    if s != "" && IsSpace(s[0]) then Trim(s[1..])
    else if s != "" && IsSpace(s[|s| - 1]) then Trim(s[..|s| - 1])
    else s
  }

  ghost predicate Spaces(s: string) { forall i | 0 <= i < |s| :: IsSpace(s[i]) }

  lemma OneMoreInFront(c: char, rest: string, a: string, t: string, b: string)
    requires rest == a + t + b && IsSpace(c) && Spaces(a)
    ensures [c] + rest == ([c] + a) + t + b && Spaces([c] + a)
  {
  }

  lemma OneMoreBehind(c: char, front: string, a: string, t: string, b: string)
    requires front == a + t + b && IsSpace(c) && Spaces(b)
    ensures front + [c] == a + t + (b + [c]) && Spaces(b + [c])
  {
  }

  /** Only white space goes, from both ends, and all of it. */
  lemma {:induction false} TrimTakesEnds(s: string) returns (a: string, b: string)
    ensures s == a + Trim(s) + b && Spaces(a) && Spaces(b)
    ensures Trim(s) != "" ==> !IsSpace(Trim(s)[0]) && !IsSpace(Trim(s)[|Trim(s)| - 1])
    decreases |s|
  {
    if s != "" && IsSpace(s[0]) {
      a, b := TrimTakesEnds(s[1..]);
      OneMoreInFront(s[0], s[1..], a, Trim(s), b);
      assert s == [s[0]] + s[1..];
      a := [s[0]] + a;
    } else if s != "" && IsSpace(s[|s| - 1]) {
      a, b := TrimTakesEnds(s[..|s| - 1]);
      OneMoreBehind(s[|s| - 1], s[..|s| - 1], a, Trim(s), b);
      assert s == s[..|s| - 1] + [s[|s| - 1]];
      b := b + [s[|s| - 1]];
    } else {
      a, b := "", "";
    }
  }

  /** `join(" ")` */
  function Join(parts: seq<string>): string {
    if parts == [] then ""
    else if |parts| == 1 then parts[0]
    else parts[0] + " " + Join(parts[1..])
  }

  /** One space between the parts and none elsewhere. */
  lemma {:induction false} JoinInTwo(a: seq<string>, b: seq<string>)
    requires a != [] && b != []
    ensures Join(a + b) == Join(a) + " " + Join(b) && Join([a[0]]) == a[0] && Join([]) == ""
  {
    if |a| == 1 {
      assert (a + b)[1..] == b;
    } else {
      assert (a + b)[1..] == a[1..] + b;
      JoinInTwo(a[1..], b);
    }
  }

  /** `split(sep)`: always at least one piece. */
  function Split(s: string, sep: char): (pieces: seq<string>)
    ensures pieces != []
  {
    if s == "" then [""]
    else
      var rest := Split(s[1..], sep);
      if s[0] == sep then [""] + rest else [[s[0]] + rest[0]] + rest[1..]
  }

  // ---- Splitting into words ----

  /** A white space separates what is before it from what is after it. */
  lemma {:induction false} SpaceSeparates(a: string, c: char, b: string)
    requires IsSpace(c)
    ensures SplitWhitespace(a + [c] + b) == SplitWhitespace(a) + SplitWhitespace(b)
    decreases |a|
  {
    var s := a + [c] + b;
    if a == "" {
      assert s[0] == c && s[1..] == b;
    } else if IsSpace(a[0]) {
      assert s[0] == a[0] && s[1..] == a[1..] + [c] + b;
      SpaceSeparates(a[1..], c, b);
    } else {
      var n := WordLength(a);
      SpaceSeparates(a[n..], c, b);
      WordThenRest(a, c, b, n);
    }
  }

  lemma WordThenRest(a: string, c: char, b: string, n: nat)
    requires IsSpace(c) && a != "" && !IsSpace(a[0]) && n == WordLength(a)
    ensures SplitWhitespace(a) == [a[..n]] + SplitWhitespace(a[n..])
    ensures SplitWhitespace(a + [c] + b) == [a[..n]] + SplitWhitespace(a[n..] + [c] + b)
  {
    var s := a + [c] + b;
    assert s[0] == a[0];
    assert s[n] == if n < |a| then a[n] else c;
    assert forall i | 0 <= i < n :: s[i] == a[i];
    SameWord(s, n);
    assert s[..n] == a[..n] && s[n..] == a[n..] + [c] + b;
  }

  lemma {:induction false} SameWord(s: string, n: nat)
    requires n < |s| && IsSpace(s[n]) && forall i | 0 <= i < n :: !IsSpace(s[i])
    ensures WordLength(s) == n
  {
    if n > 0 { SameWord(s[1..], n - 1); }
  }

  lemma {:induction false} TrimKeepsWords(s: string)
    ensures SplitWhitespace(Trim(s)) == SplitWhitespace(s)
    decreases |s|
  {
    if s != "" && IsSpace(s[0]) {
      TrimKeepsWords(s[1..]);
    } else if s != "" && IsSpace(s[|s| - 1]) {
      var front := s[..|s| - 1];
      TrimKeepsWords(front);
      SpaceSeparates(front, s[|s| - 1], "");
      assert front + [s[|s| - 1]] + "" == s;
    }
  }

  lemma {:induction false} WordAlone(w: string)
    requires IsWord(w)
    ensures SplitWhitespace(w) == [w]
  {
    assert WordLength(w) == |w|;
    assert w[..|w|] == w;
  }

  /** The words of all the parts, one part after the other. */
  function Words(parts: seq<string>): seq<string> {
    if parts == [] then [] else SplitWhitespace(parts[0]) + Words(parts[1..])
  }

  /** Joining parts with single spaces and splitting again gives the words of the parts. */
  lemma {:induction false} JoinThenSplit(parts: seq<string>)
    ensures SplitWhitespace(Join(parts)) == Words(parts)
  {
    if |parts| == 1 {
      assert Words(parts[1..]) == [];
    } else if |parts| > 1 {
      SpaceSeparates(parts[0], ' ', Join(parts[1..]));
      JoinThenSplit(parts[1..]);
    }
  }

  lemma {:induction false} WordsOfWords(parts: seq<string>)
    requires forall w | w in parts :: IsWord(w)
    ensures Words(parts) == parts
  {
    if parts != [] {
      WordAlone(parts[0]);
      WordsOfWords(parts[1..]);
    }
  }

  lemma {:induction false} WordsAppend(a: seq<string>, b: seq<string>)
    ensures Words(a + b) == Words(a) + Words(b)
  {
    if a == [] {
      assert a + b == b;
    } else {
      assert (a + b)[0] == a[0] && (a + b)[1..] == a[1..] + b;
      WordsAppend(a[1..], b);
    }
  }

  // ---- Pieces of a path ----

  /** The first piece ends at the first separator. */
  lemma {:induction false} FirstPiece(s: string, sep: char, p: string)
    requires sep !in p
    ensures Split(s, sep)[0] == p <==> s == p || StartsWith(s, p + [sep])
    ensures StartsWith(s, p + [sep]) ==> Split(s, sep) == [p] + Split(s[|p| + 1..], sep)
    ensures s == p ==> Split(s, sep) == [p]
  {
    if s == "" || p == "" {
    } else if s[0] == p[0] {
      FirstPiece(s[1..], sep, p[1..]);
      assert s == p <==> s[1..] == p[1..] by { assert s == [s[0]] + s[1..] && p == [p[0]] + p[1..]; }
      assert StartsWith(s, p + [sep]) <==> StartsWith(s[1..], p[1..] + [sep]) by {
        assert p + [sep] == [p[0]] + (p[1..] + [sep]);
      }
      assert Split(s, sep)[0] == [s[0]] + Split(s[1..], sep)[0];
      assert Split(s, sep)[0][1..] == Split(s[1..], sep)[0];
      if StartsWith(s, p + [sep]) {
        assert s[1..][|p|..] == s[|p| + 1..];
        assert [s[0]] + p[1..] == p;
      }
      if s == p { assert [s[0]] + p[1..] == p; }
    }
  }
}
