/**
 * Node's `path.posix` helpers as the providers use them: `normalize`, `join`,
 * `basename` and `extname`. `normalize` drops empty and "." segments, lets
 * ".." cancel the segment before it (or keeps it when a relative path climbs
 * above its start), keeps one leading and one trailing "/" and answers "."
 * for an empty result.
 */
module PosixPath {
  import opened JsString

  /** The segment walk of `normalizeString`: a stack of kept segments. */
  function Resolve(stack: seq<string>, segs: seq<string>, allowAboveRoot: bool): seq<string>
    decreases |segs|
  {
    if |segs| == 0 then stack
    else
      var s := segs[0];
      if s == "" || s == "." then Resolve(stack, segs[1..], allowAboveRoot)
      else if s == ".." then
        if |stack| > 0 && stack[|stack| - 1] != ".." then Resolve(stack[..|stack| - 1], segs[1..], allowAboveRoot)
        else if allowAboveRoot then Resolve(stack + [".."], segs[1..], allowAboveRoot)
        else Resolve(stack, segs[1..], allowAboveRoot)
      else Resolve(stack + [s], segs[1..], allowAboveRoot)
  }

  /** `path.posix.normalize(p)` */
  function Normalize(p: string): string {
    if |p| == 0 then "."
    else
      var isAbsolute := p[0] == '/';
      var trailing := p[|p| - 1] == '/';
      var body := JoinWith(Resolve([], Split(p, '/'), !isAbsolute), '/');
      if |body| == 0 then (if isAbsolute then "/" else if trailing then "./" else ".")
      else
        var withTrail := if trailing then body + "/" else body;
        if isAbsolute then "/" + withTrail else withTrail
  }

  /** `path.posix.join(...args)`: empty arguments are skipped, the rest joined by "/" and normalized. */
  function Join(args: seq<string>): string {
    var present := NonEmpty(args);
    if |present| == 0 then "." else Normalize(JoinWith(present, '/'))
  }

  /** Drops every trailing "/". */
  function StripTrailingSlashes(p: string): (r: string)
    ensures |r| <= |p| && r == p[..|r|]
    ensures |r| == 0 || r[|r| - 1] != '/'
    ensures forall i :: |r| <= i < |p| ==> p[i] == '/'
  {
    if |p| > 0 && p[|p| - 1] == '/' then StripTrailingSlashes(p[..|p| - 1]) else p
  }

  /** `path.posix.basename(p)`: the last non-empty segment, or "" when there is none. */
  function Basename(p: string): (r: string)
    ensures '/' !in r
  {
    var q := StripTrailingSlashes(p);
    q[LastIndexOf(q, '/') + 1..]
  }

  /** `path.posix.extname(p)`: from the last "." of the basename, unless that dot opens it or the basename is "..". */
  function Extname(p: string): (r: string)
    ensures |r| == 0 || r[0] == '.'
  {
    var b := Basename(p);
    var d := LastIndexOf(b, '.');
    if d <= 0 || b == ".." then "" else b[d..]
  }

  /** A segment that `normalize` keeps as it is. */
  predicate Plain(s: string) {
    |s| > 0 && '/' !in s && s != "." && s != ".."
  }

  predicate AllPlain(segs: seq<string>) {
    forall i :: 0 <= i < |segs| ==> Plain(segs[i])
  }

  /** A relative path made of plain segments: "a", "a/b", ... */
  predicate CleanRelative(p: string) {
    AllPlain(Split(p, '/'))
  }

  /** An absolute path made of plain segments: "/a", "/a/b", ... */
  predicate CleanAbsolute(p: string) {
    |p| > 1 && p[0] == '/' && CleanRelative(p[1..])
  }

  lemma {:induction false} ResolvePlain(stack: seq<string>, segs: seq<string>, allow: bool)
    requires AllPlain(segs)
    ensures Resolve(stack, segs, allow) == stack + segs
    decreases |segs|
  {
    if |segs| > 0 {
      ResolvePlain(stack + [segs[0]], segs[1..], allow);
      assert stack + [segs[0]] + segs[1..] == stack + segs;
    }
  }

  lemma {:induction false} JoinWithEnds(segs: seq<string>)
    requires |segs| >= 1 && AllPlain(segs)
    ensures var p := JoinWith(segs, '/'); |p| > 0 && p[0] != '/' && p[|p| - 1] != '/'
  {
    if |segs| > 1 {
      JoinWithEnds(segs[1..]);
      var t := JoinWith(segs[1..], '/');
      assert JoinWith(segs, '/') == segs[0] + ['/'] + t;
      assert segs[0][0] != '/' by { assert segs[0][0] in segs[0]; }
    } else {
      assert segs[0][0] in segs[0];
      assert segs[0][|segs[0]| - 1] in segs[0];
    }
  }

  /** `normalize` leaves a clean relative path unchanged. */
  lemma NormalizeCleanRelative(p: string)
    requires CleanRelative(p)
    ensures Normalize(p) == p
  {
    var segs := Split(p, '/');
    JoinWithEnds(segs);
    ResolvePlain([], segs, true);
    assert [] + segs == segs;
  }

  /** `normalize` leaves a clean absolute path unchanged. */
  lemma NormalizeCleanAbsolute(p: string)
    requires CleanAbsolute(p)
    ensures Normalize(p) == p
  {
    var segs := Split(p[1..], '/');
    JoinWithEnds(segs);
    assert p == "" + "/" + JoinWith(segs, '/');
    assert p == JoinWith([""] + segs, '/') by {
      assert ([""] + segs)[1..] == segs;
    }
    assert forall i :: 0 <= i < |[""] + segs| ==> '/' !in ([""] + segs)[i];
    SplitJoin([""] + segs, '/');
    ResolvePlain([], segs, false);
    assert [] + segs == segs;
  }

  /** Extending a clean relative path by a plain segment keeps it clean. */
  lemma CleanRelativeExtend(p: string, s: string)
    requires CleanRelative(p) && Plain(s)
    ensures CleanRelative(p + "/" + s)
  {
    var segs := Split(p, '/');
    JoinWithAppend(segs, s);
    assert AllPlain(segs + [s]);
    SplitJoin(segs + [s], '/');
  }

  lemma {:induction false} JoinWithAppend(segs: seq<string>, s: string)
    requires |segs| >= 1
    ensures JoinWith(segs + [s], '/') == JoinWith(segs, '/') + "/" + s
  {
    if |segs| > 1 {
      assert (segs + [s])[1..] == segs[1..] + [s];
      JoinWithAppend(segs[1..], s);
    }
  }

  /** A join of several segments is the join of all but the last, "/", and the last. */
  lemma JoinWithLast(segs: seq<string>)
    requires |segs| >= 2
    ensures JoinWith(segs, '/') == JoinWith(segs[..|segs| - 1], '/') + "/" + segs[|segs| - 1]
  {
    DropLast(segs);
    JoinWithAppend(segs[..|segs| - 1], segs[|segs| - 1]);
  }

  /** Joining two non-empty arguments normalizes them glued by "/". */
  lemma JoinTwo(p: string, s: string)
    requires |p| > 0 && |s| > 0
    ensures Join([p, s]) == Normalize(p + "/" + s)
  {
    assert NonEmpty([p, s]) == [p, s] by {
      assert NonEmpty([p, s][1..]) == [s] by { assert [p, s][1..] == [s]; }
    }
    assert JoinWith([p, s], '/') == p + "/" + s;
  }

  /** `path.posix.join(p, s)` is plain concatenation for a clean absolute `p` and a plain `s`. */
  lemma JoinCleanAbsolute(p: string, s: string)
    requires CleanAbsolute(p) && Plain(s)
    ensures Join([p, s]) == p + "/" + s
    ensures CleanAbsolute(p + "/" + s)
  {
    var q := p + "/" + s;
    assert CleanAbsolute(q) by {
      CleanRelativeExtend(p[1..], s);
      CutInside(p, "/", s, 1);
    }
    assert Join([p, s]) == Normalize(q) by { JoinTwo(p, s); }
    assert Normalize(q) == q by { NormalizeCleanAbsolute(q); }
  }

  /** `path.posix.join(p, s, t)` is plain concatenation for a clean absolute `p` and plain `s` and `t`. */
  lemma JoinThreeCleanAbsolute(p: string, s: string, t: string)
    requires CleanAbsolute(p) && Plain(s) && Plain(t)
    ensures Join([p, s, t]) == p + "/" + s + "/" + t
    ensures Join([p, s, t]) == Join([p + "/" + s, t])
  {
    var q := p + "/" + s;
    JoinCleanAbsolute(p, s);
    JoinCleanAbsolute(q, t);
    assert NonEmpty([p, s, t]) == [p, s, t] by {
      assert [p, s, t][1..] == [s, t];
      assert NonEmpty([s, t]) == [s, t] by { assert [s, t][1..] == [t]; }
    }
    assert JoinWith([p, s, t], '/') == p + "/" + (s + "/" + t) by {
      assert [p, s, t][1..] == [s, t];
      assert JoinWith([s, t], '/') == s + "/" + t by { assert [s, t][1..] == [t]; }
    }
    ConcatAssoc(p + "/", s, t);
    NormalizeCleanAbsolute(q + "/" + t);
  }

  /** `path.posix.join(p, s)` for a clean relative or empty `p` and a plain `s`. */
  lemma JoinCleanRelative(p: string, s: string)
    requires p == "" || CleanRelative(p)
    requires Plain(s)
    ensures Join([p, s]) == (if p == "" then s else p + "/" + s)
    ensures CleanRelative(Join([p, s]))
  {
    if p == "" {
      assert NonEmpty([p, s]) == [s] by {
        assert NonEmpty([p, s][1..]) == [s] by { assert [p, s][1..] == [s]; }
      }
      assert CleanRelative(s) by { SplitJoin([s], '/'); }
      NormalizeCleanRelative(s);
    } else {
      JoinTwo(p, s);
      CleanRelativeExtend(p, s);
      NormalizeCleanRelative(p + "/" + s);
    }
  }

  /** The basename of `p + "/" + s` (with any trailing slashes) is its last segment `s`. */
  lemma BasenameLast(p: string, s: string, trail: string)
    requires |s| > 0 && '/' !in s
    requires forall i :: 0 <= i < |trail| ==> trail[i] == '/'
    ensures Basename(p + "/" + s + trail) == s
  {
    var full := p + "/" + s + trail;
    StripTrailingAll(p + "/" + s, trail);
    var q := p + "/" + s;
    assert q[|q| - 1] in s by { assert q[|q| - 1] == s[|s| - 1]; }
    var k := LastIndexOf(q, '/');
    assert q[|p|] == '/';
    assert q[|p| + 1..] == s;
    assert k == |p|;
  }

  lemma {:induction false} StripTrailingAll(q: string, trail: string)
    requires |q| > 0 && q[|q| - 1] != '/'
    requires forall i :: 0 <= i < |trail| ==> trail[i] == '/'
    ensures StripTrailingSlashes(q + trail) == q
  {
    if |trail| > 0 {
      assert (q + trail)[..|q + trail| - 1] == q + trail[..|trail| - 1];
      StripTrailingAll(q, trail[..|trail| - 1]);
    } else {
      assert q + trail == q;
    }
  }

  /** The basename of a plain segment, with any trailing slashes, is the segment itself. */
  lemma BasenameSingle(s: string, trail: string)
    requires Plain(s)
    requires forall i :: 0 <= i < |trail| ==> trail[i] == '/'
    ensures Basename(s + trail) == s
  {
    StripTrailingAll(s, trail) by { assert s[|s| - 1] in s; }
  }

  /** The segment walk over two lists is the walk over the first, continued over the second. */
  lemma {:induction false} ResolveConcat(stack: seq<string>, a: seq<string>, b: seq<string>, allow: bool)
    ensures Resolve(stack, a + b, allow) == Resolve(Resolve(stack, a, allow), b, allow)
    decreases |a|
  {
    if |a| > 0 {
      assert (a + b)[0] == a[0];
      assert (a + b)[1..] == a[1..] + b;
      var s := a[0];
      if s == "" || s == "." {
        ResolveConcat(stack, a[1..], b, allow);
      } else if s == ".." {
        if |stack| > 0 && stack[|stack| - 1] != ".." {
          ResolveConcat(stack[..|stack| - 1], a[1..], b, allow);
        } else if allow {
          ResolveConcat(stack + [".."], a[1..], b, allow);
        } else {
          ResolveConcat(stack, a[1..], b, allow);
        }
      } else {
        ResolveConcat(stack + [s], a[1..], b, allow);
      }
    } else {
      assert a + b == b;
    }
  }

  /** `path.posix.join(q + "/", s)` collapses the doubled "/" for a clean relative `q` and a plain `s`. */
  lemma JoinAfterSlash(q: string, s: string)
    requires CleanRelative(q) && Plain(s)
    ensures Join([q + "/", s]) == q + "/" + s
  {
    var segs := Split(q, '/');
    var p := q + "/" + "/" + s;
    JoinTwo(q + "/", s);
    SplitDoubleSlash(q, s);
    DoubleSlashEnds(q, s);
    ResolveSkipsEmpty(segs, s);
    JoinWithAppend(segs, s);
    NormalizeRelative(p, q + "/" + s);
  }

  /** Splitting `q//s` gives the pieces of `q`, an empty piece and `s`. */
  lemma SplitDoubleSlash(q: string, s: string)
    requires '/' !in s
    ensures Split(q + "/" + "/" + s, '/') == Split(q, '/') + [""] + [s]
  {
    var a := q + "/";
    assert Split(a, '/') == Split(q, '/') + [""] by {
      assert a + "" == a;
      SplitAppend(q, "", '/');
    }
    SplitAppend(a, s, '/');
  }

  /** `q//s` neither starts nor ends with "/". */
  lemma DoubleSlashEnds(q: string, s: string)
    requires CleanRelative(q) && Plain(s)
    ensures var p := q + "/" + "/" + s; |p| > 0 && p[0] != '/' && p[|p| - 1] != '/'
  {
    JoinWithEnds(Split(q, '/'));
    assert s[|s| - 1] in s;
  }

  /** Resolving drops the empty piece and keeps the plain ones. */
  lemma ResolveSkipsEmpty(segs: seq<string>, s: string)
    requires AllPlain(segs) && Plain(s)
    ensures Resolve([], segs + [""] + [s], true) == segs + [s]
  {
    ResolveConcat([], segs + [""], [s], true);
    ResolveConcat([], segs, [""], true);
    ResolvePlain([], segs, true);
    assert [] + segs == segs;
    assert Resolve(segs, [""], true) == segs by { assert [""][1..] == []; }
    assert Resolve(segs, [s], true) == segs + [s] by { assert [s][1..] == []; }
  }

  /** `normalize` of a relative path without a trailing "/" is the join of its resolved segments. */
  lemma NormalizeRelative(p: string, body: string)
    requires |p| > 0 && p[0] != '/' && p[|p| - 1] != '/'
    requires JoinWith(Resolve([], Split(p, '/'), true), '/') == body && |body| > 0
    ensures Normalize(p) == body
  {
  }

  /** The extension of `s + "." + e` is "." + e when neither part holds "/" and `e` holds no ".". */
  lemma ExtnameLast(s: string, e: string)
    requires |s| > 0 && |e| > 0
    requires '/' !in s && '/' !in e && '.' !in e
    ensures Extname(s + "." + e) == "." + e
  {
    var b := s + "." + e;
    assert Basename(b) == b by {
      assert '/' !in b;
      assert b[|b| - 1] == e[|e| - 1] && e[|e| - 1] in e;
      StripTrailingAll(b, "");
      assert b + "" == b;
    }
    assert LastIndexOf(b, '.') == |s| by {
      assert b[|s| + 1..] == e;
      LastIndexOfAt(b, '.', |s|);
    }
    assert b[|s|..] == "." + e;
  }

  /** A path without any "." has no extension. */
  lemma NoDotNoExtension(p: string)
    requires '.' !in p
    ensures Extname(p) == ""
  {
    var q := StripTrailingSlashes(p);
    assert q == p[..|q|];
  }
}
