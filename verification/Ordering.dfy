/** Lexicographic order on strings, and sorting a set of names: the order in which
    the source's `sort()` leaves a vector of distinct strings. */
module Ordering {
  import opened Common

  predicate Less(a: string, b: string) {
    b != "" && (a == "" || a[0] < b[0] || (a[0] == b[0] && Less(a[1..], b[1..])))
  }

  lemma {:induction false} LessTotal(a: string, b: string)
    ensures a == b || Less(a, b) || Less(b, a)
    ensures !(Less(a, b) && Less(b, a))
    ensures !Less(a, a)
  {
    if a != "" {
      LessTotal(a[1..], if b != "" then b[1..] else "");
      if b != "" && a[0] == b[0] && a[1..] == b[1..] {
        assert a == [a[0]] + a[1..] == b;
      }
    }
  }

  lemma SameHead(a: string, b: string, k: nat)
    requires 0 < k <= |a| && k <= |b| && a[..k] == b[..k]
    ensures a[0] == b[0]
  {
    assert a[..k][0] == b[..k][0];
  }

  /** At the first character where they differ, or by being a proper prefix. */
  lemma {:induction false} LessIff(a: string, b: string)
    ensures Less(a, b) <==>
              exists k :: 0 <= k <= |a| && k < |b| && a[..k] == b[..k] && (k == |a| || a[k] < b[k])
  {
    if a != "" && b != "" && a[0] == b[0] {
      LessIff(a[1..], b[1..]);
      if k :| 0 <= k <= |a[1..]| && k < |b[1..]| && a[1..][..k] == b[1..][..k] && (k == |a[1..]| || a[1..][k] < b[1..][k]) {
        assert a[..k + 1] == [a[0]] + a[1..][..k] && b[..k + 1] == [b[0]] + b[1..][..k];
      }
      if k :| 0 <= k <= |a| && k < |b| && a[..k] == b[..k] && (k == |a| || a[k] < b[k]) {
        assert k > 0 && a[1..][..k - 1] == a[..k][1..] && b[1..][..k - 1] == b[..k][1..];
      }
    } else {
      if k :| 0 <= k <= |a| && k < |b| && a[..k] == b[..k] && (k == |a| || a[k] < b[k]) {
        if k > 0 { SameHead(a, b, k); }
      }
      if Less(a, b) { assert a[..0] == b[..0]; }
    }
  }

  lemma {:induction false} LessTransitive(a: string, b: string, c: string)
    requires Less(a, b) && Less(b, c)
    ensures Less(a, c)
  {
    if a != "" && a[0] == b[0] == c[0] {
      LessTransitive(a[1..], b[1..], c[1..]);
    }
  }

  ghost predicate Ascending(s: seq<string>) {
    forall i, j | 0 <= i < j < |s| :: Less(s[i], s[j])
  }

  /** The strictly ascending listing of a set of names is unique. */
  lemma {:induction false} AscendingUnique(s: seq<string>, t: seq<string>)
    requires Ascending(s) && Ascending(t)
    requires Elements(s) == Elements(t)
    ensures s == t
  {
    if s == [] || t == [] {
      Inhabited(s);
      Inhabited(t);
    } else {
      assert s[0] in Elements(t);
      assert t[0] in Elements(s);
      LessTotal(s[0], t[0]);
      LessTotal(s[0], s[0]);
      assert s[0] == t[0];
      TailElements(s);
      TailElements(t);
      AscendingUnique(s[1..], t[1..]);
      assert s == [s[0]] + s[1..] && t == [t[0]] + t[1..];
    }
  }

  lemma Inhabited(s: seq<string>)
    ensures s == [] <==> Elements(s) == {}
  {
    if s != [] { assert s[0] in Elements(s); }
  }

  lemma TailElements(s: seq<string>)
    requires Ascending(s) && s != []
    ensures Elements(s[1..]) == Elements(s) - {s[0]}
  {
    forall x ensures x in s[1..] <==> x in s && x != s[0] {
      if x in s[1..] {
        var i :| 0 <= i < |s| - 1 && s[1..][i] == x;
        assert Less(s[0], s[i + 1]);
        LessTotal(s[0], s[0]);
      }
      if x in s && x != s[0] {
        var i :| 0 <= i < |s| && s[i] == x;
        assert s[1..][i - 1] == x;
      }
    }
  }

  /** Insertion of a new name into an ascending sequence. */
  function Insert(x: string, s: seq<string>): (r: seq<string>)
    requires Ascending(s) && x !in s
    ensures Ascending(r)
    ensures Elements(r) == Elements(s) + {x}
    ensures |r| == |s| + 1
  {
    if s == [] then [x]
    else
      TailElements(s);
      LessTotal(x, s[0]);
      if Less(x, s[0]) then
        assert forall j | 0 <= j < |s| :: Less(x, s[j]) by {
          forall j | 0 <= j < |s| ensures Less(x, s[j]) {
            if j > 0 { LessTransitive(x, s[0], s[j]); }
          }
        }
        assert Elements([x] + s) == Elements(s) + {x};
        [x] + s
      else
        var rest := Insert(x, s[1..]);
        assert forall y | y in rest :: Less(s[0], y) by {
          forall y | y in rest ensures Less(s[0], y) {
            assert y in Elements(rest);
            if y != x {
              var i :| 0 <= i < |s| - 1 && s[1..][i] == y;
              assert s[i + 1] == y;
            }
          }
        }
        assert Elements([s[0]] + rest) == Elements(s) + {x};
        [s[0]] + rest
  }

  /** Collects a set into a vector and sorts it. */
  method SortNames(names: set<string>) returns (sorted: seq<string>)
    ensures Ascending(sorted)
    ensures Elements(sorted) == names
  {
    sorted := [];
    var left := names;
    while left != {}
      invariant left <= names
      invariant Ascending(sorted)
      invariant Elements(sorted) == names - left
      decreases |left|
    {
      var x :| x in left;
      assert x !in Elements(sorted);
      sorted := Insert(x, sorted);
      left := left - {x};
    }
  }
}
