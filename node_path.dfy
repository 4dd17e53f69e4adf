/** The POSIX flavour of Node's `path` module as the workers use it:
    `join`, the `normalize` it ends with, `dirname`, and `basename` with a
    suffix to strip. */
module NodePath {
  import opened Strings

  /** A segment `normalize` keeps as it is: not empty, not `.` or `..`, and
      without a separator. */
  predicate PlainSegment(s: string) {
    s != "" && s != "." && s != ".." && '/' !in s
  }

  /** The segment walk of `normalize`: empty and `.` segments vanish, `..`
      drops the segment before it, or is kept when there is none to drop
      and the path may climb above its start (relative paths). */
  function Resolve(stack: seq<string>, segs: seq<string>, aboveRoot: bool): seq<string>
    decreases |segs|
  {
    if |segs| == 0 then stack
    else
      var s := segs[0];
      var next :=
        if s == "" || s == "." then stack
        else if s == ".." then
          if |stack| > 0 && stack[|stack| - 1] != ".." then stack[..|stack| - 1]
          else if aboveRoot then stack + [".."]
          else stack
        else stack + [s];
      Resolve(next, segs[1..], aboveRoot)
  }

  /** Plain segments are pushed one by one. */
  lemma {:induction false} ResolvePlain(stack: seq<string>, segs: seq<string>, aboveRoot: bool)
    requires forall i :: 0 <= i < |segs| ==> PlainSegment(segs[i])
    ensures Resolve(stack, segs, aboveRoot) == stack + segs
    decreases |segs|
  {
    if |segs| > 0 {
      ResolvePlain(stack + [segs[0]], segs[1..], aboveRoot);
      assert stack + [segs[0]] + segs[1..] == stack + segs;
    }
  }

  /** `path.normalize(p)`: never empty; the leading and the trailing
      separator survive. */
  function Normalize(p: string): (r: string)
    ensures r != ""
    ensures p != "" && p[0] == '/' ==> r[0] == '/'
  {
    if p == "" then "."
    else
      var absolute := p[0] == '/';
      var trailing := p[|p| - 1] == '/';
      var body := Join(Resolve([], Split(p, '/'), !absolute), "/");
      if body == "" then (if absolute then "/" else if trailing then "./" else ".")
      else (if absolute then "/" else "") + body + (if trailing then "/" else "")
  }

  function NonEmpty(parts: seq<string>): (r: seq<string>)
    ensures forall i :: 0 <= i < |r| ==> r[i] != ""
  {
    if |parts| == 0 then []
    else (if parts[0] == "" then [] else [parts[0]]) + NonEmpty(parts[1..])
  }

  /** `path.join(...parts)`: the non-empty parts joined by `/`, normalized;
      `.` when every part is empty. */
  function JoinPath(parts: seq<string>): string {
    var ps := NonEmpty(parts);
    if |ps| == 0 then "." else Normalize(Join(ps, "/"))
  }

  /** `dirname`'s backward scan from index `i` (down to 1): the first
      separator after which a non-separator was seen, or -1. */
  function DirEnd(p: string, i: int, matchedSlash: bool): (r: int)
    requires i < |p|
    ensures r == -1 || 1 <= r <= i
    decreases i
  {
    if i < 1 then -1
    else if p[i] == '/' then (if !matchedSlash then i else DirEnd(p, i - 1, matchedSlash))
    else DirEnd(p, i - 1, false)
  }

  /** `path.dirname(p)`. */
  function Dirname(p: string): string {
    if p == "" then "."
    else
      var end := DirEnd(p, |p| - 1, true);
      if end == -1 then (if p[0] == '/' then "/" else ".")
      else if p[0] == '/' && end == 1 then "//"
      else p[..end]
  }

  /** The index just after the last non-separator of `p`; 0 when there is
      none. */
  function LastNonSlashEnd(p: string): (r: nat)
    ensures r <= |p|
    ensures r > 0 ==> p[r - 1] != '/'
    ensures forall i :: r <= i < |p| ==> p[i] == '/'
  {
    if |p| == 0 then 0 else if p[|p| - 1] == '/' then LastNonSlashEnd(p[..|p| - 1]) else |p|
  }

  /** The index just after the last separator before `f`; 0 when there is
      none. */
  function SegmentStart(p: string, f: nat): (r: nat)
    requires f <= |p|
    ensures r <= f
    ensures forall i :: r <= i < f ==> p[i] != '/'
    ensures r > 0 ==> p[r - 1] == '/'
  {
    if f == 0 then 0 else if p[f - 1] == '/' then f else SegmentStart(p, f - 1)
  }

  /** `path.basename(p, suffix)`: the last segment, trailing separators
      ignored, with `suffix` cut off when the segment ends with it and is
      longer. The cases where the segment is the suffix, or a shorter
      tail of it, or where `p` is only separators, give what Node gives. */
  function Basename(p: string, suffix: string): string {
    var f := LastNonSlashEnd(p);
    if suffix != "" && |suffix| <= |p| then
      if suffix == p then ""
      else if f == 0 then p
      else CutSuffix(p, SegmentStart(p, f), f, suffix)
    else if f == 0 then ""
    else p[SegmentStart(p, f)..f]
  }

  /** The last segment `p[start..f]` with a non-empty `suffix` that fits
      in `p`: cut off when the segment is longer and ends with it. */
  function CutSuffix(p: string, start: nat, f: nat, suffix: string): string
    requires start <= f <= |p|
  {
    var name := p[start..f];
    if |name| > |suffix| && IsSuffix(suffix, name) then p[start..f - |suffix|]
    else if |name| < |suffix| && IsSuffix(name, suffix) then p[start..]
    else name
  }

  /** An absolute directory path already in normal form: `/`, then plain
      segments separated by single `/`s. */
  predicate PlainDir(d: string) {
    |d| >= 2 && d[0] == '/' &&
    var segs := Split(d[1..], '/');
    forall i :: 0 <= i < |segs| ==> PlainSegment(segs[i])
  }

  lemma NonEmptyPair(a: string, b: string)
    requires a != "" && b != ""
    ensures NonEmpty([a, b]) == [a, b]
  {
    assert [a, b][1..] == [b];
    assert [b][1..] == [];
    assert NonEmpty([b]) == [b] + NonEmpty([]);
  }

  /** The segments of a plain path's child: the empty segment before the
      leading `/`, the directory's segments, then the name. */
  lemma SplitChild(d: string, x: string)
    requires |d| >= 1 && d[0] == '/' && '/' !in x
    ensures Split(d + "/" + x, '/') == [""] + (Split(d[1..], '/') + [x])
  {
    var t := d[1..] + ['/'] + x;
    assert d == ['/'] + d[1..];
    assert d + "/" + x == ['/'] + t;
    assert (['/'] + t)[1..] == t;
    SplitConcat(d[1..], x, '/');
    SplitWithoutSep(x, '/');
  }

  /** A plain directory is `/` followed by the join of its segments. */
  lemma PlainDirJoin(d: string)
    requires PlainDir(d)
    ensures d == "/" + Join(Split(d[1..], '/'), "/")
  {
    var segs := Split(d[1..], '/');
    JoinSplit(d, '/');
    assert d == ['/'] + d[1..];
    assert Split(d, '/') == [""] + segs;
    assert ([""] + segs)[1..] == segs;
  }

  /** An absolute path without a trailing separator whose segments are
      plain normalizes to `/` and its segments. */
  lemma NormalizeAbsolute(p: string, segs: seq<string>)
    requires |p| > 0 && p[0] == '/' && p[|p| - 1] != '/'
    requires Split(p, '/') == [""] + segs
    requires |segs| >= 1 && forall i :: 0 <= i < |segs| ==> PlainSegment(segs[i])
    ensures Normalize(p) == "/" + Join(segs, "/")
  {
    var parts := Split(p, '/');
    assert parts[0] == "" && parts[1..] == segs;
    assert Resolve([], parts, false) == Resolve([], segs, false);
    ResolvePlain([], segs, false);
    var empty: seq<string> := [];
    assert empty + segs == segs;
    var body := Join(segs, "/");
    assert |body| >= |segs[0]| > 0;
    assert Normalize(p) == "/" + body + "";
  }

  /** A plain directory's child is already normal. */
  lemma NormalizeChild(d: string, x: string)
    requires PlainDir(d) && PlainSegment(x)
    ensures Normalize(d + "/" + x) == d + "/" + x
  {
    var p := d + "/" + x;
    var segs := Split(d[1..], '/');
    SplitChild(d, x);
    JoinSnoc(segs, x, "/");
    PlainDirJoin(d);
    assert x[|x| - 1] in x;
    assert p[|p| - 1] == x[|x| - 1];
    NormalizeAbsolute(p, segs + [x]);
  }

  /** `path.join(d, x)` of a plain directory and a plain name is the two
      joined by one `/`, and is itself a plain directory path. */
  lemma JoinChild(d: string, x: string)
    requires PlainDir(d) && PlainSegment(x)
    ensures JoinPath([d, x]) == d + "/" + x
    ensures PlainDir(d + "/" + x)
  {
    var p := d + "/" + x;
    NonEmptyPair(d, x);
    assert Join([d, x], "/") == p by {
      assert [d, x][1..] == [x];
    }
    NormalizeChild(d, x);
    ChildIsPlain(d, x);
  }

  lemma ChildIsPlain(d: string, x: string)
    requires PlainDir(d) && PlainSegment(x)
    ensures PlainDir(d + "/" + x)
  {
    var p := d + "/" + x;
    assert p[1..] == d[1..] + ['/'] + x;
    SplitWithoutSep(x, '/');
    SplitConcat(d[1..], x, '/');
    var segs := Split(d[1..], '/') + [x];
    assert Split(p[1..], '/') == segs;
    assert forall i :: 0 <= i < |segs| ==> PlainSegment(segs[i]);
  }

  /** The directory of a plain path's child is the plain path. */
  lemma DirnameOfChild(d: string, x: string)
    requires PlainDir(d) && PlainSegment(x)
    ensures Dirname(d + "/" + x) == d
  {
    var p := d + "/" + x;
    DirEndSkips(p, |d|, |p| - 1, true);
  }

  lemma {:induction false} DirEndSkips(p: string, k: nat, i: nat, matched: bool)
    requires 1 <= k < i < |p| && p[k] == '/'
    requires forall j :: k < j <= i ==> p[j] != '/'
    ensures DirEnd(p, i, matched) == k
    decreases i
  {
    if i - 1 > k {
      DirEndSkips(p, k, i - 1, false);
    }
  }

  lemma {:induction false} SegmentStartSkips(p: string, k: nat, f: nat)
    requires k < f <= |p| && p[k] == '/'
    requires forall j :: k < j < f ==> p[j] != '/'
    ensures SegmentStart(p, f) == k + 1
    decreases f
  {
    if f - 1 > k {
      SegmentStartSkips(p, k, f - 1);
    }
  }

  /** The base name of a plain path's child is the child's name, with the
      suffix cut off when the name is longer and ends with it. */
  lemma BasenameOfChild(d: string, x: string, suffix: string)
    requires PlainDir(d) && PlainSegment(x) && '/' !in suffix
    ensures Basename(d + "/" + x, suffix) ==
      if suffix != "" && |x| > |suffix| && IsSuffix(suffix, x) then x[..|x| - |suffix|] else x
  {
    var p := d + "/" + x;
    var start := |d| + 1;
    assert p[|d|] == '/' && p[start..] == x;
    forall j | |d| < j < |p| ensures p[j] != '/' {
      assert p[j] == x[j - start];
    }
    SegmentStartSkips(p, |d|, |p|);
    assert p[|p| - 1] == x[|x| - 1];
    assert suffix != p by {
      assert p[0] == d[0] == '/';
      assert p[0] in p;
    }
    BasenameOfLastSegment(p, suffix);
    if suffix != "" && |x| > |suffix| && IsSuffix(suffix, x) {
      assert p[start..|p| - |suffix|] == x[..|x| - |suffix|];
    }
  }

  /** The base name of a path not ending in a separator is its last
      segment, with the suffix cut off when the segment is longer and ends
      with it. */
  lemma BasenameOfLastSegment(p: string, suffix: string)
    requires |p| > 0 && p[|p| - 1] != '/' && suffix != p && SegmentStart(p, |p|) > 0
    ensures var start := SegmentStart(p, |p|);
      Basename(p, suffix) ==
        if suffix != "" && |p| - start > |suffix| && IsSuffix(suffix, p[start..]) then p[start..|p| - |suffix|]
        else p[start..]
  {
    var start := SegmentStart(p, |p|);
    assert LastNonSlashEnd(p) == |p|;
    if suffix != "" && |suffix| <= |p| {
      assert Basename(p, suffix) == CutSuffix(p, start, |p|, suffix);
      CutSuffixOfLast(p, start, suffix);
    } else {
      assert Basename(p, suffix) == p[start..|p|];
      assert p[start..|p|] == p[start..];
    }
  }

  lemma CutSuffixOfLast(p: string, start: nat, suffix: string)
    requires start <= |p|
    ensures CutSuffix(p, start, |p|, suffix) ==
      if |p| - start > |suffix| && IsSuffix(suffix, p[start..]) then p[start..|p| - |suffix|] else p[start..]
  {
    assert p[start..|p|] == p[start..];
  }
}
