/**
 * The JavaScript string operations the providers rely on, with JavaScript's
 * own edge cases: `indexOf` answers -1 when nothing matches, `substring`
 * clamps its bounds and swaps them when they are out of order, and `split`
 * on a one-character separator always returns at least one piece.
 * Strings are sequences of characters; see the README for UTF-16 lengths.
 */
module JsString {

  /** `sub` occurs in `s` starting at index `i`. */
  predicate At(s: string, sub: string, i: int) {
    0 <= i && i + |sub| <= |s| && s[i..i + |sub|] == sub
  }

  /** Regrouping a concatenation around a "/". */
  lemma ConcatAssoc(a: string, b: string, n: string)
    ensures a + (b + "/" + n) == (a + b) + "/" + n
  {
  }

  /** A non-empty sequence is its prefix and then its last element. */
  lemma DropLast<T>(s: seq<T>)
    requires |s| > 0
    ensures s == s[..|s| - 1] + [s[|s| - 1]]
  {
  }

  /** Cutting `a + x + y` inside `a`. */
  lemma CutInside<T>(a: seq<T>, x: seq<T>, y: seq<T>, m: nat)
    requires m <= |a|
    ensures (a + x + y)[..m] == a[..m]
    ensures (a + x + y)[m..] == a[m..] + x + y
  {
  }

  /** `s.startsWith(p)` */
  predicate StartsWith(s: string, p: string) {
    |p| <= |s| && s[..|p|] == p
  }

  /** A prefix of a prefix is a prefix. */
  lemma StartsWithTrans(s: string, m: string, p: string)
    requires StartsWith(s, m) && StartsWith(m, p)
    ensures StartsWith(s, p)
  {
    assert s[..|p|] == s[..|m|][..|p|];
  }

  /** `s.endsWith(p)` */
  predicate EndsWith(s: string, p: string) {
    |p| <= |s| && s[|s| - |p|..] == p
  }

  /** `s.indexOf(sub, from)` */
  function IndexOfFrom(s: string, sub: string, from: int): (r: int)
    decreases |s| - from
    ensures |sub| > 0 ==> r == -1 || (from <= r && At(s, sub, r))
    ensures |sub| > 0 ==> forall j :: from <= j && (r == -1 || j < r) ==> !At(s, sub, j)
  {
    if from < 0 then IndexOfFrom(s, sub, 0)
    else if |sub| == 0 then (if from <= |s| then from else |s|)
    else if from + |sub| > |s| then -1
    else if s[from..from + |sub|] == sub then from
    else IndexOfFrom(s, sub, from + 1)
  }

  /** `s.indexOf(sub)` */
  function IndexOf(s: string, sub: string): int {
    IndexOfFrom(s, sub, 0)
  }

  /** The first occurrence of `sub` is at `k` when it occurs there and nowhere before. */
  lemma IndexOfAt(s: string, sub: string, k: nat)
    requires |sub| > 0 && At(s, sub, k)
    requires forall j :: 0 <= j < k ==> !At(s, sub, j)
    ensures IndexOf(s, sub) == k
  {
  }

  /** Appending to `s` leaves its first occurrence of `sub` where it was. */
  lemma IndexOfExtend(s: string, sub: string, x: string)
    requires |sub| > 0 && IndexOf(s, sub) >= 0
    ensures IndexOf(s + x, sub) == IndexOf(s, sub)
  {
    var k := IndexOf(s, sub);
    assert (s + x)[k..k + |sub|] == s[k..k + |sub|];
    forall j | 0 <= j < k
      ensures !At(s + x, sub, j)
    {
      assert !At(s, sub, j);
      assert (s + x)[j..j + |sub|] == s[j..j + |sub|];
    }
    IndexOfAt(s + x, sub, k);
  }

  /** `s.indexOf(c, from)` for one character is the first `c` of the suffix from `from`. */
  lemma {:induction false} IndexOfFromChar(s: string, c: char, from: nat)
    requires from <= |s|
    ensures var k := IndexOfChar(s[from..], c);
      IndexOfFrom(s, [c], from) == if k < 0 then -1 else from + k
    decreases |s| - from
  {
    if from < |s| {
      assert s[from..][0] == s[from];
      assert s[from..from + 1] == [c] <==> s[from] == c;
      if s[from] != c {
        assert s[from..][1..] == s[from + 1..];
        IndexOfFromChar(s, c, from + 1);
      }
    }
  }

  /** `s.indexOf(c)` for a one-character search string. */
  function IndexOfChar(s: string, c: char): (r: int)
    ensures -1 <= r < |s|
    ensures r == -1 <==> c !in s
    ensures r >= 0 ==> s[r] == c && c !in s[..r]
  {
    if |s| == 0 then -1
    else if s[0] == c then 0
    else
      var k := IndexOfChar(s[1..], c);
      if k < 0 then -1 else k + 1
  }

  /** `s.lastIndexOf(c)` for a one-character search string. */
  function LastIndexOf(s: string, c: char): (r: int)
    ensures -1 <= r < |s|
    ensures r == -1 <==> c !in s
    ensures r >= 0 ==> s[r] == c && c !in s[r + 1..]
  {
    if |s| == 0 then -1
    else if s[|s| - 1] == c then |s| - 1
    else
      var k := LastIndexOf(s[..|s| - 1], c);
      assert k >= 0 ==> s[k + 1..] == s[..|s| - 1][k + 1..] + [s[|s| - 1]];
      k
  }

  /** The last `c` of `s` is at `k` when `s[k]` is `c` and none follows it. */
  lemma {:induction false} LastIndexOfAt(s: string, c: char, k: nat)
    requires k < |s| && s[k] == c && c !in s[k + 1..]
    ensures LastIndexOf(s, c) == k
  {
    if k < |s| - 1 {
      assert s[|s| - 1] == s[k + 1..][|s| - k - 2];
      assert s[..|s| - 1][k + 1..] == s[k + 1..|s| - 1];
      assert s[k + 1..] == s[k + 1..|s| - 1] + [s[|s| - 1]];
      LastIndexOfAt(s[..|s| - 1], c, k);
    }
  }

  /** `s.indexOf(c)` for a one-character string finds something exactly when `c` occurs in `s`. */
  lemma IndexOfSingle(s: string, c: char)
    ensures IndexOf(s, [c]) >= 0 <==> c in s
  {
    IndexOfFromChar(s, c, 0);
    assert s[0..] == s;
  }

  /** An index clamped into `[0, n]`, as `substring` does with its arguments. */
  function Clamp(i: int, n: nat): (r: nat)
    ensures r <= n
  {
    if i < 0 then 0 else if i > n then n else i
  }

  /** `s.substring(a, b)`: clamp both bounds, then swap them if they are reversed. */
  function Substring(s: string, a: int, b: int): (r: string)
    ensures |r| <= |s|
  {
    var lo := Clamp(a, |s|);
    var hi := Clamp(b, |s|);
    if lo <= hi then s[lo..hi] else s[hi..lo]
  }

  /** `s.substring(a)` */
  function SubstringFrom(s: string, a: int): (r: string)
    ensures |r| <= |s|
  {
    Substring(s, a, |s|)
  }

  /** The pieces joined back with `c` between them: `parts.join(c)`. */
  function JoinWith(parts: seq<string>, c: char): string {
    if |parts| == 0 then ""
    else if |parts| == 1 then parts[0]
    else parts[0] + [c] + JoinWith(parts[1..], c)
  }

  /** `s.split(c)` for a one-character separator. */
  function Split(s: string, c: char): (r: seq<string>)
    decreases |s|
    ensures |r| >= 1
    ensures forall i :: 0 <= i < |r| ==> c !in r[i]
    ensures JoinWith(r, c) == s
  {
    var i := IndexOfChar(s, c);
    if i < 0 then [s]
    else
      var rest := Split(s[i + 1..], c);
      assert s == s[..i] + [c] + s[i + 1..];
      [s[..i]] + rest
  }

  /** `split` yields one piece exactly when the separator does not occur. */
  lemma SplitSingle(s: string, c: char)
    ensures |Split(s, c)| == 1 <==> c !in s
  {
  }

  /** Splitting a join of separator-free pieces gives the pieces back. */
  lemma {:induction false} SplitJoin(parts: seq<string>, c: char)
    requires |parts| >= 1
    requires forall i :: 0 <= i < |parts| ==> c !in parts[i]
    ensures Split(JoinWith(parts, c), c) == parts
  {
    if |parts| > 1 {
      var t := JoinWith(parts[1..], c);
      var s := parts[0] + [c] + t;
      assert JoinWith(parts, c) == s;
      SplitFirst(parts[0], t, c);
      SplitJoin(parts[1..], c);
      assert parts == [parts[0]] + parts[1..];
    }
  }

  /** A string that splits into two pieces is the first piece, the separator and the second. */
  lemma SplitTwo(s: string, c: char)
    requires |Split(s, c)| == 2
    ensures s == Split(s, c)[0] + [c] + Split(s, c)[1]
  {
    var parts := Split(s, c);
    assert parts[1..] == [parts[1]];
  }

  /** Splitting `s + [c] + x` with a separator-free `x` yields the pieces of `s` and then `x`. */
  lemma SplitAppend(s: string, x: string, c: char)
    requires c !in x
    ensures Split(s + [c] + x, c) == Split(s, c) + [x]
  {
    var parts := Split(s, c);
    JoinWithSnoc(parts, x, c);
    var all := parts + [x];
    forall i | 0 <= i < |all|
      ensures c !in all[i]
    {
      if i < |parts| { assert all[i] == parts[i]; }
    }
    SplitJoin(all, c);
  }

  /** Joining one more piece appends the separator and the piece. */
  lemma {:induction false} JoinWithSnoc(parts: seq<string>, x: string, c: char)
    requires |parts| >= 1
    ensures JoinWith(parts + [x], c) == JoinWith(parts, c) + [c] + x
  {
    if |parts| > 1 {
      assert (parts + [x])[1..] == parts[1..] + [x];
      JoinWithSnoc(parts[1..], x, c);
    }
  }

  /** Splitting `a + [c] + b` with a separator-free `a` yields `a` and then the pieces of `b`. */
  lemma SplitFirst(a: string, b: string, c: char)
    requires c !in a
    ensures Split(a + [c] + b, c) == [a] + Split(b, c)
  {
    var s := a + [c] + b;
    IndexOfCharPrefix(a, [c] + b, c);
    assert s == a + ([c] + b);
    assert s[..|a|] == a && s[|a| + 1..] == b;
  }

  /** The first `c` of `a + b` lies in `b` when `a` has none and `b` starts with it. */
  lemma IndexOfCharPrefix(a: string, b: string, c: char)
    requires c !in a
    requires |b| > 0 && b[0] == c
    ensures IndexOfChar(a + b, c) == |a|
  {
    if |a| > 0 {
      assert (a + b)[1..] == a[1..] + b;
      IndexOfCharPrefix(a[1..], b, c);
    }
  }

  /** Filters empty strings out, keeping order (JavaScript's truthiness test on strings). */
  function NonEmpty(xs: seq<string>): (r: seq<string>)
    ensures forall i :: 0 <= i < |r| ==> |r[i]| > 0
    ensures |r| <= |xs|
  {
    if |xs| == 0 then []
    else (if |xs[0]| > 0 then [xs[0]] else []) + NonEmpty(xs[1..])
  }
}
