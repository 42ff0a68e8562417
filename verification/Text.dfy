/** Python string operations used by the reply parser and the sentence splitter. */
module Text {
  import opened Collections

  /** The characters `str.strip` removes by default. */
  predicate IsSpace(c: char) {
    || '\t' <= c <= '\r'
    || '\U{1C}' <= c <= ' '
    || c == '\U{85}' || c == '\U{A0}' || c == '\U{1680}'
    || '\U{2000}' <= c <= '\U{200A}'
    || c == '\U{2028}' || c == '\U{2029}' || c == '\U{202F}' || c == '\U{205F}' || c == '\U{3000}'
  }

  /** Python's whitespace, one code point at a time. */
  lemma {:induction false} SpaceIsListed(c: char)
    ensures IsSpace(c) <==> c as int in {9, 10, 11, 12, 13, 28, 29, 30, 31, 32, 133, 160, 5760,
                                         8192, 8193, 8194, 8195, 8196, 8197, 8198, 8199, 8200, 8201, 8202,
                                         8232, 8233, 8239, 8287, 12288}
  {
  }

  ghost predicate Blank(s: string) {
    forall i :: 0 <= i < |s| ==> IsSpace(s[i])
  }

  /** Where the whitespace that ends `s[..n]` begins. */
  function TailStart(s: string, n: nat): (k: nat)
    requires n <= |s|
    ensures k <= n && (k == 0 || !IsSpace(s[k - 1]))
    ensures forall i :: k <= i < n ==> IsSpace(s[i])
  {
    if n == 0 || !IsSpace(s[n - 1]) then n else TailStart(s, n - 1)
  }

  /** Where the whitespace at position `k` of `s[..n]` ends. */
  function HeadEnd(s: string, k: nat, n: nat): (r: nat)
    requires k <= n <= |s|
    ensures k <= r <= n && (r == n || !IsSpace(s[r]))
    ensures forall i :: k <= i < r ==> IsSpace(s[i])
    decreases n - k
  {
    if k == n || !IsSpace(s[k]) then k else HeadEnd(s, k + 1, n)
  }

  /** Python's `s.rstrip()`. */
  function RStrip(s: string): string {
    s[..TailStart(s, |s|)]
  }

  /** Python's `s.strip()`. */
  function Strip(s: string): string {
    var n := TailStart(s, |s|);
    s[HeadEnd(s, 0, n)..n]
  }

  /** `s[k..n]` is what is left of `s` after dropping its blank ends. */
  ghost predicate IsCore(s: string, k: int, n: int) {
    && 0 <= k <= n <= |s|
    && (forall i :: 0 <= i < k || n <= i < |s| ==> IsSpace(s[i]))
    && (k < n ==> !IsSpace(s[k]) && !IsSpace(s[n - 1]))
  }

  lemma {:induction false} StripCore(s: string) returns (k: nat, n: nat)
    ensures IsCore(s, k, n) && Strip(s) == s[k..n]
  {
    n := TailStart(s, |s|);
    k := HeadEnd(s, 0, n);
  }

  /** `Strip` is pinned down by its result: any core is the core. */
  lemma {:induction false} CoreIsUnique(s: string, k: int, n: int)
    requires IsCore(s, k, n)
    ensures Strip(s) == s[k..n]
  {
  }

  lemma {:induction false} StripTwice(s: string)
    ensures Strip(Strip(s)) == Strip(s)
  {
    var k, n := StripCore(s);
    CoreIsUnique(s[k..n], 0, n - k);
  }

  /** Leading whitespace moves the core. */
  lemma {:induction false} CoreAfter(a: string, s: string, k: nat, n: nat)
    requires Blank(a) && IsCore(s, k, n)
    ensures IsCore(a + s, |a| + k, |a| + n) && (a + s)[|a| + k..|a| + n] == s[k..n]
  {
    var t := a + s;
    forall i | 0 <= i < |a| + k || |a| + n <= i < |t|
      ensures IsSpace(t[i])
    {
      if i < |a| {
        assert t[i] == a[i];
      } else {
        assert t[i] == s[i - |a|];
      }
    }
  }

  /** Leading whitespace does not change the stripped text. */
  lemma {:induction false} StripAfter(a: string, s: string)
    requires Blank(a)
    ensures Strip(a + s) == Strip(s)
  {
    var k, n := StripCore(s);
    CoreAfter(a, s, k, n);
    CoreIsUnique(a + s, |a| + k, |a| + n);
  }

  /** Trailing whitespace leaves it where it is. */
  lemma {:induction false} CoreBefore(s: string, b: string, k: nat, n: nat)
    requires Blank(b) && IsCore(s, k, n) && k < n
    ensures IsCore(s + b, k, n) && (s + b)[k..n] == s[k..n]
  {
    var t := s + b;
    forall i | 0 <= i < k || n <= i < |t|
      ensures IsSpace(t[i])
    {
      if i < |s| {
        assert t[i] == s[i];
      } else {
        assert t[i] == b[i - |s|];
      }
    }
  }

  lemma {:induction false} BlankJoin(a: string, b: string)
    requires Blank(a) && Blank(b)
    ensures Blank(a + b)
  {
    var t := a + b;
    assert forall i :: 0 <= i < |t| ==> t[i] == if i < |a| then a[i] else b[i - |a|];
  }

  lemma {:induction false} StripBlank(s: string)
    ensures Blank(s) <==> Strip(s) == ""
  {
  }

  /** Trailing whitespace does not change the stripped text. */
  lemma {:induction false} StripBefore(s: string, b: string)
    requires Blank(b)
    ensures Strip(s + b) == Strip(s)
  {
    var k, n := StripCore(s);
    if k == n {
      StripBlank(s);
      BlankJoin(s, b);
      StripBlank(s + b);
    } else {
      CoreBefore(s, b, k, n);
      CoreIsUnique(s + b, k, n);
    }
  }

  lemma {:induction false} StripParts(s: string) returns (before: string, front: string, after: string)
    ensures Blank(before) && Blank(after) && front == before + Strip(s) && s == front + after
  {
    var k, n := StripCore(s);
    front, after := s[..n], s[n..];
    before := front[..k];
    assert front[k..] == Strip(s);
    CutAt(front, k);
  }

  /** `pat` occurs in `s` at position `i`. */
  predicate OccursAt(s: string, pat: string, i: int) {
    0 <= i <= |s| - |pat| && s[i..i + |pat|] == pat
  }

  function IndexFrom(s: string, pat: string, from: nat): (r: int)
    ensures r == -1 || (from <= r && OccursAt(s, pat, r))
    ensures forall i :: from <= i && (r == -1 || i < r) ==> !OccursAt(s, pat, i)
    decreases |s| - from
  {
    if from > |s| then -1
    else if OccursAt(s, pat, from) then from
    else IndexFrom(s, pat, from + 1)
  }

  /** Python's `s.find(pat)`: the first occurrence, or -1 exactly when there is none. */
  function Find(s: string, pat: string): (r: int)
    ensures r == -1 || OccursAt(s, pat, r)
    ensures forall i :: r == -1 || i < r ==> !OccursAt(s, pat, i)
  {
    IndexFrom(s, pat, 0)
  }

  lemma {:induction false} FindIsFirst(s: string, pat: string, i: int)
    requires OccursAt(s, pat, i)
    requires forall j :: 0 <= j < i ==> !OccursAt(s, pat, j)
    ensures Find(s, pat) == i
  {
  }

  lemma {:induction false} OccurrenceAt(s: string, pat: string, i: int, k: int)
    requires OccursAt(s, pat, i) && i <= k < i + |pat|
    ensures s[k] == pat[k - i]
  {
  }

  lemma {:induction false} OccursInPrefix(s: string, more: string, pat: string, i: int)
    requires 0 <= i <= |s| - |pat|
    ensures OccursAt(s + more, pat, i) <==> OccursAt(s, pat, i)
  {
  }

  lemma {:induction false} OccursInSuffix(s: string, k: nat, pat: string, i: int)
    requires k <= i <= |s| - |pat|
    ensures OccursAt(s, pat, i) <==> OccursAt(s[k..], pat, i - k)
  {
  }

  /** When nothing occurs before `k`, searching from `k` on is enough. */
  lemma {:induction false} FindInSuffix(s: string, k: nat, pat: string)
    requires k <= |s|
    requires forall i :: 0 <= i < k ==> !OccursAt(s, pat, i)
    ensures var m := Find(s[k..], pat); Find(s, pat) == if m == -1 then -1 else k + m
  {
    forall i | k <= i <= |s| - |pat|
      ensures OccursAt(s, pat, i) <==> OccursAt(s[k..], pat, i - k)
    {
      OccursInSuffix(s, k, pat, i);
    }
    var m := Find(s[k..], pat);
    if m != -1 {
      FindIsFirst(s, pat, k + m);
    }
  }

  /** The non-whitespace characters of `s`, in order. */
  function Ink(s: string): string {
    if s == "" then ""
    else if IsSpace(s[|s| - 1]) then Ink(s[..|s| - 1])
    else Ink(s[..|s| - 1]) + [s[|s| - 1]]
  }

  lemma {:induction false} InkAppend(a: string, b: string)
    ensures Ink(a + b) == Ink(a) + Ink(b)
    decreases |b|
  {
    if b == "" {
      assert a + b == a;
    } else {
      assert (a + b)[..|a + b| - 1] == a + b[..|b| - 1];
      InkAppend(a, b[..|b| - 1]);
    }
  }

  lemma {:induction false} InkBlank(s: string)
    ensures Ink(s) == "" <==> Blank(s)
  {
    if s != "" {
      var front := s[..|s| - 1];
      InkBlank(front);
      assert Blank(s) <==> Blank(front) && IsSpace(s[|s| - 1]) by {
        assert forall i :: 0 <= i < |front| ==> front[i] == s[i];
      }
    }
  }

  lemma {:induction false} InkStrip(s: string)
    ensures Ink(Strip(s)) == Ink(s)
  {
    var before, front, after := StripParts(s);
    InkAppend(before, Strip(s));
    InkAppend(front, after);
    InkBlank(before);
    InkBlank(after);
  }
}
