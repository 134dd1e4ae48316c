/** The string operations both translators use, on `seq<char>`:
    Python's `startswith`/`endswith`, `in` on substrings, `split(sep)[0]`,
    `split(sep)` on a one-character separator, `replace` and `count`. */
module Text {

  predicate StartsWith(s: string, p: string) {
    |p| <= |s| && s[..|p|] == p
  }

  predicate EndsWith(s: string, p: string) {
    |p| <= |s| && s[|s| - |p|..] == p
  }

  /** The index of the first occurrence of `p` in `s`, or `|s|` when `p` does
      not occur in `s`. */
  function Find(s: string, p: string): (i: nat)
    ensures i <= |s|
    ensures i < |s| ==> StartsWith(s[i..], p)
  {
    if s == [] || StartsWith(s, p) then 0
    else
      var i := 1 + Find(s[1..], p);
      assert i < |s| ==> s[i..] == s[1..][i - 1..];
      i
  }

  /** Python's `p in s`, for a non-empty `p`. */
  predicate Contains(s: string, p: string) {
    Find(s, p) < |s|
  }

  /** Python's `s.split(p)[0]`: everything before the first `p`. */
  function Before(s: string, p: string): (r: string)
    ensures StartsWith(s, r)
  {
    s[..Find(s, p)]
  }

  /** Everything after the first occurrence of the character `c`. */
  function After(s: string, c: char): (r: string)
    ensures |r| <= |s|
  {
    var i := Find(s, [c]);
    if i < |s| then s[i + 1..] else []
  }

  /** Python's `s.split(c)` on a one-character separator: the pieces between
      the occurrences of `c`, empty pieces included. */
  function Split(s: string, c: char): (parts: seq<string>)
    ensures |parts| >= 1
    ensures parts[0] == Before(s, [c])
    decreases |s|
  {
    var i := Find(s, [c]);
    if i == |s| then [s] else [s[..i]] + Split(s[i + 1..], c)
  }

  /** Python's `s.count(c)` for one character. */
  function Count(s: string, c: char): nat {
    if s == [] then 0 else (if s[0] == c then 1 else 0) + Count(s[1..], c)
  }

  /** Python's `s.replace(c, "")`. */
  function Remove(s: string, c: char): (r: string)
    ensures c !in r
    ensures |r| <= |s|
  {
    if s == [] then [] else (if s[0] == c then [] else [s[0]]) + Remove(s[1..], c)
  }

  /** Python's `s.replace(c, d)` for single characters. */
  function Replace(s: string, c: char, d: char): (r: string)
    ensures |r| == |s|
    ensures forall i :: 0 <= i < |s| ==> r[i] == if s[i] == c then d else s[i]
  {
    if s == [] then [] else [if s[0] == c then d else s[0]] + Replace(s[1..], c, d)
  }

  // ------------------------------------------------------------------ lemmas

  /** `Find` on a string whose head never begins the pattern skips the head. */
  lemma {:induction false} FindConcat(a: string, b: string, p: string)
    requires p != []
    requires forall j :: 0 <= j < |a| ==> a[j] != p[0]
    ensures Find(a + b, p) == |a| + Find(b, p)
  {
    if a != [] {
      assert (a + b)[0] == a[0];
      assert !StartsWith(a + b, p);
      assert (a + b)[1..] == a[1..] + b;
      FindConcat(a[1..], b, p);
    } else {
      assert a + b == b;
    }
  }

  /** No occurrence of `p` starts before `Find(s, p)`. */
  lemma {:induction false} FindFirst(s: string, p: string, j: nat)
    requires j < Find(s, p)
    ensures !StartsWith(s[j..], p)
  {
    if j > 0 {
      assert s[j..] == s[1..][j - 1..];
      FindFirst(s[1..], p, j - 1);
    }
  }

  /** `Find` on a string that begins with the pattern is 0. */
  lemma FindHere(s: string, p: string)
    requires StartsWith(s, p)
    ensures Find(s, p) == 0
  {
  }

  /** When the first character of `p` does not occur in `s`, `Find` runs to
      the end. */
  lemma {:induction false} FindAbsent(s: string, p: string)
    requires p != [] && p[0] !in s
    ensures Find(s, p) == |s|
  {
    if s != [] {
      assert s[0] != p[0];
      assert !StartsWith(s, p);
      FindAbsent(s[1..], p);
    }
  }

  /** A string with exactly one `c` splits at it into what comes before and
      what comes after. */
  lemma SplitOnce(a: string, b: string, c: char)
    requires c !in a && c !in b
    ensures Find(a + [c] + b, [c]) == |a|
    ensures Before(a + [c] + b, [c]) == a && After(a + [c] + b, c) == b
    ensures Count(a + [c] + b, c) == 1
  {
    SplitFirstFind(a, b, c);
    var s := a + [c] + b;
    assert s[..|a|] == a;
    assert s[|a| + 1..] == b;
    CountOne(a, b, c);
  }

  lemma SplitFirstFind(a: string, b: string, c: char)
    requires c !in a
    ensures Find(a + [c] + b, [c]) == |a|
  {
    assert a + [c] + b == a + ([c] + b);
    FindConcat(a, [c] + b, [c]);
    FindHere([c] + b, [c]);
  }

  lemma CountOne(a: string, b: string, c: char)
    requires c !in a && c !in b
    ensures Count(a + [c] + b, c) == 1
  {
    assert a + [c] + b == a + ([c] + b);
    CountConcat(a, [c] + b, c);
    assert ([c] + b)[1..] == b;
    CountAbsent(a, c);
    CountAbsent(b, c);
  }

  lemma {:induction false} CountConcat(a: string, b: string, c: char)
    ensures Count(a + b, c) == Count(a, c) + Count(b, c)
  {
    if a != [] {
      assert (a + b)[1..] == a[1..] + b;
      CountConcat(a[1..], b, c);
    } else {
      assert a + b == b;
    }
  }

  lemma {:induction false} CountAbsent(s: string, c: char)
    requires c !in s
    ensures Count(s, c) == 0
  {
    if s != [] {
      CountAbsent(s[1..], c);
    }
  }

  /** `Split` recovers the pieces of a string joined with `c`, when the first
      piece holds no `c`. */
  lemma SplitFirst(a: string, b: string, c: char)
    requires c !in a
    ensures Split(a + [c] + b, c) == [a] + Split(b, c)
  {
    SplitFirstFind(a, b, c);
    var s := a + [c] + b;
    assert s[..|a|] == a;
    assert s[|a| + 1..] == b;
  }

  lemma SplitNone(s: string, c: char)
    requires c !in s
    ensures Split(s, c) == [s]
  {
    FindAbsent(s, [c]);
  }

  /** Cutting at `p` after a prefix that cannot start `p` keeps the prefix. */
  lemma BeforeConcat(w: string, t: string, p: string)
    requires p != [] && p[0] !in w
    ensures Before(w + t, p) == w + Before(t, p)
  {
    FindConcat(w, t, p);
    assert (w + t)[..|w| + Find(t, p)] == w + t[..Find(t, p)];
  }

  /** A string that does not start with the first character of `p` keeps
      its first character when cut at `p`. */
  lemma BeforeKeepsHead(t: string, p: string)
    requires t != [] && p != [] && t[0] != p[0]
    ensures Before(t, p) != [] && Before(t, p)[0] == t[0]
  {
    assert !StartsWith(t, p);
  }

  /** Removing a character that does not occur changes nothing. */
  lemma {:induction false} RemoveAbsent(s: string, c: char)
    requires c !in s
    ensures Remove(s, c) == s
  {
    if s != [] {
      RemoveAbsent(s[1..], c);
      assert s == [s[0]] + s[1..];
    }
  }

  /** Removing a character from a concatenation removes it from each part. */
  lemma {:induction false} RemoveConcat(a: string, b: string, c: char)
    ensures Remove(a + b, c) == Remove(a, c) + Remove(b, c)
  {
    if a != [] {
      assert (a + b)[1..] == a[1..] + b;
      RemoveConcat(a[1..], b, c);
    } else {
      assert a + b == b;
    }
  }
}
