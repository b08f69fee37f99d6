/**
 * The handful of Python `str` operations the linter relies on: `split`, `join`, `partition`,
 * `strip`, `lower`, `startswith`, `in`, `str(int)` and string ordering.
 */
module Strings {
  import opened Wrappers
  import Ordering

  /** True when `sep` occurs in `s` starting at index `i`. */
  predicate OccursAt(s: string, sep: string, i: nat) {
    i + |sep| <= |s| && s[i..i + |sep|] == sep
  }

  /** Python's `sep in s`. */
  predicate Contains(s: string, sep: string) {
    exists i: nat | i <= |s| :: OccursAt(s, sep, i)
  }

  predicate StartsWith(s: string, prefix: string) {
    |prefix| <= |s| && s[..|prefix|] == prefix
  }

  predicate EndsWith(s: string, suffix: string) {
    |suffix| <= |s| && s[|s| - |suffix|..] == suffix
  }

  /** Index of the first occurrence of `sep` in `s` at or after `from`. */
  function FindFrom(s: string, sep: string, from: nat): (r: Option<nat>)
    requires |sep| > 0
    ensures r.Some? ==> from <= r.value && OccursAt(s, sep, r.value)
    ensures r.Some? ==> forall j: nat :: from <= j < r.value ==> !OccursAt(s, sep, j)
    ensures r.None? ==> forall j: nat :: from <= j ==> !OccursAt(s, sep, j)
    decreases |s| - from
  {
    if from + |sep| > |s| then None
    else if s[from..from + |sep|] == sep then Some(from)
    else FindFrom(s, sep, from + 1)
  }

  /** Python's `s.find(sep)`, as an Option. */
  function Find(s: string, sep: string): (r: Option<nat>)
    requires |sep| > 0
    ensures r.Some? ==> OccursAt(s, sep, r.value)
  {
    FindFrom(s, sep, 0)
  }

  /** `find` fails exactly when `sep` does not occur, and otherwise finds its first occurrence. */
  lemma {:induction false} FindSpec(s: string, sep: string)
    requires |sep| > 0
    ensures Find(s, sep).None? <==> !Contains(s, sep)
    ensures Find(s, sep).Some? ==> !Contains(s[..Find(s, sep).value], sep)
  {
    var r := FindFrom(s, sep, 0);
    if r.Some? {
      PrefixOccurrence(s, sep, r.value);
      assert OccursAt(s, sep, r.value);
    }
  }

  /** An occurrence inside a prefix of `s` is an occurrence in `s`. */
  lemma {:induction false} PrefixOccurrence(s: string, sep: string, n: nat)
    requires n <= |s|
    ensures forall j: nat :: OccursAt(s[..n], sep, j) ==> OccursAt(s, sep, j)
  {
    forall j: nat | OccursAt(s[..n], sep, j) ensures OccursAt(s, sep, j) {
      assert s[..n][j..j + |sep|] == s[j..j + |sep|];
    }
  }

  /** Python's `s.partition(sep)`: text before the first `sep`, the separator, the rest. */
  function Partition(s: string, sep: string): (r: (string, string, string))
    requires |sep| > 0
    ensures Contains(s, sep) ==> r.0 + r.1 + r.2 == s && r.1 == sep && !Contains(r.0, sep)
    ensures !Contains(s, sep) ==> r == (s, "", "")
  {
    FindSpec(s, sep);
    match Find(s, sep)
    case None => (s, "", "")
    case Some(i) =>
      assert s == s[..i] + sep + s[i + |sep|..];
      (s[..i], sep, s[i + |sep|..])
  }

  /** Python's `s.split(sep)` for a non-empty separator. */
  function SplitOn(s: string, sep: string): (r: seq<string>)
    requires |sep| > 0
    ensures |r| >= 1
    decreases |s|
  {
    match Find(s, sep)
    case None => [s]
    case Some(i) => [s[..i]] + SplitOn(s[i + |sep|..], sep)
  }

  /** A string without `sep` splits into itself alone. */
  lemma {:induction false} SplitOnNoSep(s: string, sep: string)
    requires |sep| > 0 && !Contains(s, sep)
    ensures SplitOn(s, sep) == [s]
  {
    FindSpec(s, sep);
  }

  /** No part of `s.split(sep)` contains `sep`. */
  lemma {:induction false} SplitOnPartsFree(s: string, sep: string)
    requires |sep| > 0
    ensures forall k :: 0 <= k < |SplitOn(s, sep)| ==> !Contains(SplitOn(s, sep)[k], sep)
    decreases |s|
  {
    FindSpec(s, sep);
    var f := Find(s, sep);
    if f.Some? {
      var i := f.value;
      SplitOnFirst(s, sep, i);
      SplitOnPartsFree(s[i + |sep|..], sep);
      var r := SplitOn(s, sep);
      forall k | 0 <= k < |r| ensures !Contains(r[k], sep) {
        if k > 0 {
          assert r[k] == SplitOn(s[i + |sep|..], sep)[k - 1];
        }
      }
    }
  }

  /** Python's `sep.join(parts)`. */
  function Join(parts: seq<string>, sep: string): string {
    if |parts| == 0 then ""
    else if |parts| == 1 then parts[0]
    else parts[0] + sep + Join(parts[1..], sep)
  }

  /** Splitting at the first occurrence of `sep`: the text before it, then the splits of the rest. */
  lemma {:induction false} SplitOnFirst(s: string, sep: string, i: nat)
    requires |sep| > 0 && Find(s, sep) == Some(i) && i + |sep| <= |s|
    ensures SplitOn(s, sep) == [s[..i]] + SplitOn(s[i + |sep|..], sep)
  {
  }

  /** Joining a part in front of at least one more part puts `sep` between them. */
  lemma {:induction false} JoinCons(part: string, rest: seq<string>, sep: string)
    requires |rest| >= 1
    ensures Join([part] + rest, sep) == part + sep + Join(rest, sep)
  {
    assert ([part] + rest)[1..] == rest;
  }

  /** A string is the text before an occurrence of `sep`, `sep`, and the text after it. */
  lemma {:induction false} AroundOccurrence(s: string, sep: string, i: nat)
    requires OccursAt(s, sep, i)
    ensures s[..i] + sep + s[i + |sep|..] == s
  {
    assert s == s[..i] + s[i..i + |sep|] + s[i + |sep|..];
  }

  /** The first element of `xs` that `bad` picks out, if any: a loop that stops at the first failure. */
  function FirstWhere<T>(xs: seq<T>, bad: T -> bool): Option<T> {
    if xs == [] then None
    else if bad(xs[0]) then Some(xs[0])
    else FirstWhere(xs[1..], bad)
  }

  /** Over a sequence holding exactly the elements of `s`: nothing is found exactly when no element of `s` is bad. */
  lemma {:induction false} FirstWhereInSet<T>(xs: seq<T>, s: set<T>, bad: T -> bool)
    requires forall x :: x in xs <==> x in s
    ensures FirstWhere(xs, bad).None? <==> forall x :: x in s ==> !bad(x)
    ensures FirstWhere(xs, bad).Some? ==> FirstWhere(xs, bad).value in s && bad(FirstWhere(xs, bad).value)
  {
    FirstWhereSpec(xs, bad);
    if FirstWhere(xs, bad).None? {
      forall x | x in s ensures !bad(x) {
        var k :| 0 <= k < |xs| && xs[k] == x;
      }
    }
  }

  /** `FirstWhere` finds nothing exactly when no element is bad, and otherwise the first bad one. */
  lemma {:induction false} FirstWhereSpec<T>(xs: seq<T>, bad: T -> bool)
    ensures FirstWhere(xs, bad).None? <==> forall k :: 0 <= k < |xs| ==> !bad(xs[k])
    ensures FirstWhere(xs, bad).Some? ==>
              exists k :: 0 <= k < |xs| && xs[k] == FirstWhere(xs, bad).value && bad(xs[k])
                          && forall j :: 0 <= j < k ==> !bad(xs[j])
  {
    if xs != [] && !bad(xs[0]) {
      FirstWhereSpec(xs[1..], bad);
      if FirstWhere(xs, bad).Some? {
        var k :| 0 <= k < |xs| - 1 && xs[1..][k] == FirstWhere(xs, bad).value && bad(xs[1..][k])
                 && forall j :: 0 <= j < k ==> !bad(xs[1..][j]);
        assert xs[k + 1] == FirstWhere(xs, bad).value;
        assert forall j :: 0 <= j < k + 1 ==> !bad(xs[j]) by {
          forall j | 0 <= j < k + 1 ensures !bad(xs[j]) {
            if j > 0 { assert xs[j] == xs[1..][j - 1]; }
          }
        }
      }
    }
  }

  /** Searching a concatenation searches the first part, then the second. */
  lemma {:induction false} FirstWhereAppend<T>(a: seq<T>, b: seq<T>, bad: T -> bool)
    ensures FirstWhere(a + b, bad) == if FirstWhere(a, bad).Some? then FirstWhere(a, bad) else FirstWhere(b, bad)
    decreases |a|
  {
    if a == [] {
      assert a + b == b;
    } else {
      assert (a + b)[1..] == a[1..] + b;
      FirstWhereAppend(a[1..], b, bad);
    }
  }

  /** Searching from position `i`: the element there if it is bad, else the search from the next position. */
  lemma {:induction false} FirstWhereAt<T>(xs: seq<T>, i: int, bad: T -> bool)
    requires 0 <= i < |xs|
    ensures FirstWhere(xs[i..], bad) == if bad(xs[i]) then Some(xs[i]) else FirstWhere(xs[i + 1..], bad)
  {
    assert xs[i..][1..] == xs[i + 1..];
  }

  /** A loop that stops at the first bad element of `xs`. */
  method FindFirst<T>(xs: seq<T>, bad: T -> bool) returns (r: Option<T>)
    ensures r == FirstWhere(xs, bad)
  {
    var i := 0;
    while i < |xs|
      invariant 0 <= i <= |xs|
      invariant FirstWhere(xs, bad) == FirstWhere(xs[i..], bad)
    {
      if bad(xs[i]) {
        return Some(xs[i]);
      }
      assert xs[i..][1..] == xs[i + 1..];
      i := i + 1;
    }
    return None;
  }

  /** The first `i + 1` elements are the first `i` and the next one. */
  lemma {:induction false} PrefixStep<T>(xs: seq<T>, i: int)
    requires 0 <= i < |xs|
    ensures forall x :: x in xs[..i + 1] <==> x in xs[..i] || x == xs[i]
  {
    assert xs[..i + 1] == xs[..i] + [xs[i]];
  }

  /** `sep.join(s.split(sep))` gives `s` back. */
  lemma {:induction false} JoinSplit(s: string, sep: string)
    requires |sep| > 0
    ensures Join(SplitOn(s, sep), sep) == s
    decreases |s|
  {
    var f := Find(s, sep);
    if f.None? {
      assert SplitOn(s, sep) == [s];
    } else {
      var i := f.value;
      var rest := SplitOn(s[i + |sep|..], sep);
      SplitOnFirst(s, sep, i);
      JoinSplit(s[i + |sep|..], sep);
      JoinCons(s[..i], rest, sep);
      AroundOccurrence(s, sep, i);
    }
  }

  /** Python's `s.split(c)` for a one-character separator. */
  function Split(s: string, c: char): seq<string> {
    SplitOn(s, [c])
  }

  /** The part of a dotted name after its last dot (`name.split(".")[-1]`, or `rpartition`'s last part). */
  function LastSegment(name: string): string {
    var parts := Split(name, '.');
    parts[|parts| - 1]
  }

  /** A dotted name cut to its first `n` segments (`".".join(name.split(".")[:n])`). */
  function Truncate(name: string, n: nat): string {
    var parts := Split(name, '.');
    Join(parts[..if n < |parts| then n else |parts|], ".")
  }

  /** The truncated name is made of the first `n` segments of the name, or all of them if it has fewer. */
  lemma {:induction false} TruncateSpec(name: string, n: nat)
    requires n >= 1
    ensures var parts := Split(name, '.');
            Split(Truncate(name, n), '.') == parts[..if n < |parts| then n else |parts|]
  {
    var parts := Split(name, '.');
    var kept := parts[..if n < |parts| then n else |parts|];
    SplitPartsFree(name, '.');
    assert forall k :: 0 <= k < |kept| ==> kept[k] == parts[k];
    SplitJoin(kept, '.');
  }

  /** Python's `s.removeprefix(prefix)`. */
  function RemovePrefix(s: string, prefix: string): (r: string)
    ensures StartsWith(s, prefix) ==> s == prefix + r
    ensures !StartsWith(s, prefix) ==> r == s
  {
    if StartsWith(s, prefix) then s[|prefix|..] else s
  }

  /** Python's `s.count(c)` for one character. */
  function CountChar(s: string, c: char): nat {
    if s == [] then 0 else CountChar(s[..|s| - 1], c) + (if s[|s| - 1] == c then 1 else 0)
  }

  lemma {:induction false} NotContainsChar(s: string, c: char)
    ensures !Contains(s, [c]) <==> c !in s
  {
    if c in s {
      var i :| 0 <= i < |s| && s[i] == c;
      assert OccursAt(s, [c], i);
    }
    if Contains(s, [c]) {
      var i: nat :| i <= |s| && OccursAt(s, [c], i);
      assert s[i] == s[i..i + 1][0];
    }
  }

  /** Splitting on `c` a string with no `c` in it gives the string alone. */
  lemma {:induction false} SplitNoSep(s: string, c: char)
    requires c !in s
    ensures Split(s, c) == [s]
  {
    NotContainsChar(s, c);
    SplitOnNoSep(s, [c]);
  }

  /** Every part of `Split(s, c)` is free of `c`. */
  lemma {:induction false} SplitPartsFree(s: string, c: char)
    ensures forall k :: 0 <= k < |Split(s, c)| ==> c !in Split(s, c)[k]
  {
    SplitOnPartsFree(s, [c]);
    forall k | 0 <= k < |Split(s, c)| ensures c !in Split(s, c)[k] {
      NotContainsChar(Split(s, c)[k], c);
    }
  }

  /** Joining `c`-free parts on `c` and splitting again gives the parts back. */
  lemma {:induction false} SplitJoin(parts: seq<string>, c: char)
    requires |parts| >= 1
    requires forall k :: 0 <= k < |parts| ==> c !in parts[k]
    ensures Split(Join(parts, [c]), c) == parts
    decreases |parts|
  {
    if |parts| == 1 {
      SplitNoSep(parts[0], c);
    } else {
      var s := Join(parts, [c]);
      var p := parts[0];
      SplitJoin(parts[1..], c);
      assert s == p + [c] + Join(parts[1..], [c]);
      assert OccursAt(s, [c], |p|);
      forall j: nat | j < |p| ensures !OccursAt(s, [c], j) {
        assert s[j] == p[j];
        assert s[j..j + 1][0] == s[j];
      }
      assert s[..|p|] == p;
      assert s[|p| + 1..] == Join(parts[1..], [c]);
    }
  }

  /** Joining one more part appends the separator and that part. */
  lemma {:induction false} JoinSnoc(parts: seq<string>, x: string, sep: string)
    requires |parts| >= 1
    ensures Join(parts + [x], sep) == Join(parts, sep) + sep + x
    decreases |parts|
  {
    if |parts| > 1 {
      JoinSnoc(parts[1..], x, sep);
      assert (parts + [x])[1..] == parts[1..] + [x];
    }
  }

  /** The first part of `s.split(c)` is the longest prefix of `s` free of `c`. */
  lemma {:induction false} SplitFirst(s: string, c: char)
    ensures var f := Split(s, c)[0];
            |f| <= |s| && f == s[..|f|] && c !in f && (|f| == |s| || s[|f|] == c)
  {
    var f := Split(s, c)[0];
    NotContainsChar(f, c);
    FindSpec(s, [c]);
    match Find(s, [c])
    case None =>
      NotContainsChar(s, c);
    case Some(i) =>
      assert s[i..i + 1] == [c];
  }

  /** Splitting `a + [c] + b`, where `b` is free of `c`, splits `a` and adds `b` as the last part. */
  lemma {:induction false} SplitSnoc(a: string, c: char, b: string)
    requires c !in b
    ensures Split(a + [c] + b, c) == Split(a, c) + [b]
  {
    var parts := Split(a, c) + [b];
    SplitPartsFree(a, c);
    JoinSplit(a, [c]);
    JoinSnoc(Split(a, c), b, [c]);
    SplitJoin(parts, c);
  }

  /** Joining two non-empty runs of parts puts the separator between their joins. */
  lemma {:induction false} JoinAppend(a: seq<string>, b: seq<string>, sep: string)
    requires |a| >= 1 && |b| >= 1
    ensures Join(a + b, sep) == Join(a, sep) + sep + Join(b, sep)
    decreases |a|
  {
    if |a| > 1 {
      JoinAppend(a[1..], b, sep);
      assert (a + b)[1..] == a[1..] + b;
    }
  }

  /** Splitting `a + [c] + b` splits `a` and `b` and puts the parts one after the other. */
  lemma {:induction false} SplitAppend(a: string, c: char, b: string)
    ensures Split(a + [c] + b, c) == Split(a, c) + Split(b, c)
  {
    var pa, pb := Split(a, c), Split(b, c);
    SplitPartsFree(a, c);
    SplitPartsFree(b, c);
    JoinSplit(a, [c]);
    JoinSplit(b, [c]);
    JoinAppend(pa, pb, [c]);
    assert Join(pa + pb, [c]) == a + [c] + b;
    FreePartsAppend(pa, pb, c);
    SplitJoin(pa + pb, c);
  }

  /** Parts free of `c`, one run after the other, are still free of `c`. */
  lemma {:induction false} FreePartsAppend(pa: seq<string>, pb: seq<string>, c: char)
    requires forall k :: 0 <= k < |pa| ==> c !in pa[k]
    requires forall k :: 0 <= k < |pb| ==> c !in pb[k]
    ensures forall k :: 0 <= k < |pa + pb| ==> c !in (pa + pb)[k]
  {
    forall k | 0 <= k < |pa + pb| ensures c !in (pa + pb)[k] {
      if k >= |pa| {
        assert (pa + pb)[k] == pb[k - |pa|];
      }
    }
  }

  /** Python's `str.isspace()` for one character. */
  predicate IsSpace(c: char) {
    var n := c as int;
    (9 <= n <= 13) || (28 <= n <= 32) || n == 133 || n == 160 || n == 5760
    || (8192 <= n <= 8202) || n == 8232 || n == 8233 || n == 8239 || n == 8287 || n == 12288
  }

  function LeadingSpaces(s: string, from: nat): (r: nat)
    requires from <= |s|
    ensures from <= r <= |s|
    ensures forall k :: from <= k < r ==> IsSpace(s[k])
    ensures r < |s| ==> !IsSpace(s[r])
    decreases |s| - from
  {
    if from < |s| && IsSpace(s[from]) then LeadingSpaces(s, from + 1) else from
  }

  function TrailingEnd(s: string, lo: nat, hi: nat): (r: nat)
    requires lo <= hi <= |s|
    ensures lo <= r <= hi
    ensures forall k :: r <= k < hi ==> IsSpace(s[k])
    ensures r > lo ==> !IsSpace(s[r - 1])
    decreases hi
  {
    if hi > lo && IsSpace(s[hi - 1]) then TrailingEnd(s, lo, hi - 1) else hi
  }

  /** Python's `s.strip()`: `s` without its leading and trailing whitespace. */
  function Strip(s: string): (r: string)
    ensures |r| <= |s|
    ensures r == "" || (!IsSpace(r[0]) && !IsSpace(r[|r| - 1]))
    ensures exists i, j :: 0 <= i <= j <= |s| && r == s[i..j]
                           && (forall k :: 0 <= k < i ==> IsSpace(s[k]))
                           && (forall k :: j <= k < |s| ==> IsSpace(s[k]))
  {
    var i := LeadingSpaces(s, 0);
    var j := TrailingEnd(s, i, |s|);
    assert forall k :: j <= k < |s| ==> IsSpace(s[k]);
    s[i..j]
  }

  /** Strip leaves alone a string that neither starts nor ends with whitespace. */
  lemma {:induction false} StripUnpadded(s: string)
    requires s == "" || (!IsSpace(s[0]) && !IsSpace(s[|s| - 1]))
    ensures Strip(s) == s
  {
    var i := LeadingSpaces(s, 0);
    assert i == 0;
    var j := TrailingEnd(s, i, |s|);
    assert j == |s|;
  }

  /** ASCII part of Python's `str.lower()`. */
  function LowerChar(c: char): char {
    if 'A' <= c <= 'Z' then (c as int + 32) as char else c
  }

  function Lower(s: string): (r: string)
    ensures |r| == |s|
    ensures forall k :: 0 <= k < |s| ==> r[k] == LowerChar(s[k])
  {
    seq(|s|, k requires 0 <= k < |s| => LowerChar(s[k]))
  }

  /** `str(x).lower() == "true"`, the linter's test of a boolean-ish option. */
  predicate IsTrueString(s: string) {
    Lower(s) == "true"
  }

  lemma {:induction false} IsTrueStringSpellings()
    ensures IsTrueString("True") && IsTrueString("true") && IsTrueString("TRUE")
    ensures !IsTrueString("False") && !IsTrueString("") && !IsTrueString("1")
  {
    assert Lower("True") == "true";
    assert Lower("TRUE") == "true";
    assert Lower("False")[0] == 'f';
    assert Lower("1")[0] == '1';
  }

  /** The index of the last `c` in `s`, or -1 when there is none (`s.rfind(c)`). */
  function LastIndex(s: string, c: char): (r: int)
    ensures -1 <= r < |s|
    ensures r == -1 ==> c !in s
    ensures r >= 0 ==> s[r] == c && c !in s[r + 1..]
  {
    if s == [] then -1
    else if s[|s| - 1] == c then |s| - 1
    else
      var r := LastIndex(s[..|s| - 1], c);
      assert r >= 0 ==> s[r + 1..] == s[..|s| - 1][r + 1..] + [s[|s| - 1]];
      r
  }

  /** The last part of `s.split(c)` is what follows the last `c`, or all of `s` when it has none. */
  lemma {:induction false} SplitLast(s: string, c: char)
    ensures var parts := Split(s, c);
            |parts| >= 1 && parts[|parts| - 1] == s[LastIndex(s, c) + 1..]
  {
    var i := LastIndex(s, c);
    if i == -1 {
      SplitNoSep(s, c);
    } else {
      assert s == s[..i] + [c] + s[i + 1..];
      SplitSnoc(s[..i], c, s[i + 1..]);
    }
  }

  /** `s.split(c)` has one part more than `s` has occurrences of `c`. */
  lemma {:induction false} SplitCount(s: string, c: char)
    ensures |Split(s, c)| == CountChar(s, c) + 1
    decreases |s|
  {
    if s == [] {
      SplitNoSep(s, c);
    } else {
      var t := s[..|s| - 1];
      var last := s[|s| - 1];
      SplitCount(t, c);
      if last == c {
        assert s == t + [c] + [];
        SplitAppend(t, c, []);
        SplitNoSep([], c);
      } else {
        var i := LastIndex(t, c);
        if i == -1 {
          assert s == t + [last];
          SplitNoSep(t, c);
          SplitNoSep(s, c);
        } else {
          var u := t[..i];
          var w := t[i + 1..];
          assert t == u + [c] + w;
          assert s == u + [c] + (w + [last]);
          SplitSnoc(u, c, w);
          SplitSnoc(u, c, w + [last]);
        }
      }
    }
  }

  function CharLess(x: char, y: char): bool {
    x < y
  }

  /** Python's ordering of `str` values: code point by code point, a proper prefix first. */
  predicate Less(a: string, b: string) {
    Ordering.LexLess(a, b, CharLess)
  }

  lemma {:induction false} LessIsStrictTotalOrder()
    ensures Ordering.IsStrictTotalOrder(Less)
  {
    assert Ordering.IsStrictTotalOrder(CharLess);
    Ordering.LexIsStrictTotalOrder(CharLess);
  }

  /** Python's `sorted(s)` for a set of strings. */
  function Sorted(s: set<string>): (r: seq<string>)
    ensures |r| == |s|
    ensures forall x :: x in r <==> x in s
    ensures forall i, j :: 0 <= i < j < |r| ==> Less(r[i], r[j])
  {
    LessIsStrictTotalOrder();
    Ordering.SortSet(s, Less)
  }

  /** Python's ordering of tuples of strings. */
  predicate TupleLess(a: seq<string>, b: seq<string>) {
    Ordering.LexLess(a, b, Less)
  }

  lemma {:induction false} TupleLessIsStrictTotalOrder()
    ensures Ordering.IsStrictTotalOrder(TupleLess)
  {
    LessIsStrictTotalOrder();
    Ordering.LexIsStrictTotalOrder(Less);
  }

  /** Python's `sorted(s)` for a set of string tuples. */
  function SortedTuples(s: set<seq<string>>): (r: seq<seq<string>>)
    ensures |r| == |s|
    ensures forall x :: x in r <==> x in s
    ensures forall i, j :: 0 <= i < j < |r| ==> TupleLess(r[i], r[j])
  {
    TupleLessIsStrictTotalOrder();
    Ordering.SortSet(s, TupleLess)
  }

  /** Python's ordering of pairs of strings: by the first, then by the second. */
  predicate PairLess(a: (string, string), b: (string, string)) {
    Less(a.0, b.0) || (a.0 == b.0 && Less(a.1, b.1))
  }

  lemma {:induction false} PairLessIsStrictTotalOrder()
    ensures Ordering.IsStrictTotalOrder(PairLess)
  {
    LessIsStrictTotalOrder();
  }

  /** Python's `sorted(s)` for a set of pairs of strings. */
  function SortedPairs(s: set<(string, string)>): (r: seq<(string, string)>)
    ensures |r| == |s|
    ensures forall x :: x in r <==> x in s
    ensures forall i, j :: 0 <= i < j < |r| ==> PairLess(r[i], r[j])
  {
    PairLessIsStrictTotalOrder();
    Ordering.SortSet(s, PairLess)
  }

  function DigitChar(d: nat): (c: char)
    requires d < 10
    ensures '0' <= c <= '9'
  {
    "0123456789"[d]
  }

  /** Python's `str(n)` for a natural number. */
  function NatToString(n: nat): (r: string)
    ensures |r| >= 1
    ensures forall k :: 0 <= k < |r| ==> '0' <= r[k] <= '9'
    ensures n < 10 ==> |r| == 1
    ensures n >= 10 ==> |r| >= 2 && r[0] != '0'
  {
    if n < 10 then [DigitChar(n)] else NatToString(n / 10) + [DigitChar(n % 10)]
  }

  /** Python's `str(i)` for an integer. */
  function IntToString(i: int): (r: string)
    ensures |r| >= 1
  {
    if i < 0 then "-" + NatToString(-i) else NatToString(i)
  }

  // ---------------------------------------------------------------------------------------------
  // Python's `int(s)` for a string, in base 10
  // ---------------------------------------------------------------------------------------------

  predicate IsDigit(c: char) {
    '0' as int <= c as int <= '9' as int
  }

  /** Decimal digits, an underscore allowed only between two of them, as `int` accepts. */
  predicate IsDigitRun(s: string) {
    && |s| > 0 && IsDigit(s[0])
    && forall k :: 0 <= k < |s| ==> IsDigit(s[k]) || (s[k] == '_' && k + 1 < |s| && IsDigit(s[k + 1]))
  }

  /** The value of a run of decimal digits, the underscores ignored. */
  function DigitsValue(s: string): nat {
    if s == [] then 0
    else
      var last := s[|s| - 1];
      var before := DigitsValue(s[..|s| - 1]);
      if IsDigit(last) then before * 10 + (last as int - '0' as int) else before
  }

  /** The `ValueError` of `int(s)` for a string it cannot read. */
  function IntLiteralMessage(s: string): string {
    "invalid literal for int() with base 10: '" + s + "'"
  }

  /** An optional sign and a digit run, or nothing. */
  function SignedDigits(t: string): (r: Option<int>) {
    if |t| > 0 && (t[0] == '-' || t[0] == '+') then
      match Unsigned(t[1..])
      case Some(n) => Some(if t[0] == '-' then -(n as int) else n)
      case None => None
    else Unsigned(t)
  }

  /** The value of a digit run, or nothing. */
  function Unsigned(t: string): (r: Option<nat>) {
    if IsDigitRun(t) then Some(DigitsValue(t)) else None
  }

  /**
   * Python's `int(s)`: surrounding whitespace stripped, an optional sign, then digits that
   * underscores may separate; anything else raises a `ValueError`.
   */
  function ParseInt(s: string): (r: Result<int>)
    ensures r.Err? ==> r.error == IntLiteralMessage(s)
  {
    match SignedDigits(Strip(s))
    case Some(i) => Ok(i)
    case None => Err(IntLiteralMessage(s))
  }

  /** The digits `str(n)` writes read back as `n`. */
  lemma {:induction false} NatToStringValue(n: nat)
    ensures IsDigitRun(NatToString(n)) && IsDigit(NatToString(n)[|NatToString(n)| - 1])
    ensures DigitsValue(NatToString(n)) == n
  {
    var r := NatToString(n);
    if n >= 10 {
      var init := NatToString(n / 10);
      NatToStringValue(n / 10);
      assert r[..|r| - 1] == init;
      var last := DigitChar(n % 10);
      assert last as int - '0' as int == n % 10 by {
        assert "0123456789"[n % 10] as int == '0' as int + n % 10;
      }
      forall k | 0 <= k < |r| ensures IsDigit(r[k]) {
      }
    } else {
      assert r[..0] == [];
      assert r[0] as int - '0' as int == n by {
        assert "0123456789"[n] as int == '0' as int + n;
      }
    }
  }

  /** `int(str(i))` is `i`. */
  lemma {:induction false} ParseIntRoundTrip(i: int)
    ensures ParseInt(IntToString(i)) == Ok(i)
  {
    IntStringUnpadded(i);
    SignedDigitsOfInt(i);
  }

  /** `str(i)` has no whitespace to strip. */
  lemma {:induction false} IntStringUnpadded(i: int)
    ensures Strip(IntToString(i)) == IntToString(i)
  {
    var s := IntToString(i);
    var digits := NatToString(if i < 0 then -i else i);
    assert s[0] == '-' || s[0] == digits[0];
    assert s[|s| - 1] == digits[|digits| - 1];
    StripUnpadded(s);
  }

  /** The sign and digits of `str(i)` read as `i`. */
  lemma {:induction false} SignedDigitsOfInt(i: int)
    ensures SignedDigits(IntToString(i)) == Some(i)
  {
    if i < 0 {
      UnsignedOfNat(-i);
      SignedNegative(NatToString(-i), -i);
    } else {
      UnsignedOfNat(i);
      SignedNatural(NatToString(i), i);
    }
  }

  /** A minus sign before a digit run reads as the negated value. */
  lemma {:induction false} SignedNegative(d: string, n: nat)
    requires Unsigned(d) == Some(n)
    ensures SignedDigits("-" + d) == Some(-(n as int))
  {
    assert ("-" + d)[1..] == d;
  }

  /** A digit run without a sign reads as its value. */
  lemma {:induction false} SignedNatural(d: string, n: nat)
    requires Unsigned(d) == Some(n)
    ensures SignedDigits(d) == Some(n)
  {
    assert IsDigit(d[0]);
  }

  /** The digits of `str(n)` read as `n`. */
  lemma {:induction false} UnsignedOfNat(n: nat)
    ensures Unsigned(NatToString(n)) == Some(n)
  {
    NatToStringValue(n);
  }

  /** A string without a digit is not an integer literal. */
  lemma {:induction false} ParseIntNeedsDigit(s: string)
    requires forall k :: 0 <= k < |s| ==> !IsDigit(s[k])
    ensures ParseInt(s).Err?
  {
    var t := Strip(s);
    var i, j :| 0 <= i <= j <= |s| && t == s[i..j];
    if |t| > 1 {
      assert t[1..][0] == s[i + 1];
    }
    if |t| > 0 {
      assert t[0] == s[i];
    }
  }
}
