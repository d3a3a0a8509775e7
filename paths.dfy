/**
 * POSIX path operations with the semantics of Python's `str.split` and
 * `os.path` (`join`, `basename`, `dirname`, `relpath`). Paths handed to
 * `RelPath` are taken to be absolute and free of `.` and `..` components,
 * which is what the filesystem watcher delivers for a watched root.
 */
module Paths {

  import opened Wrappers
  import opened Text

  /** `s.split(sep)`: the pieces between separators; `n` separators give `n + 1` pieces. */
  function Split(s: string, sep: char): (parts: seq<string>)
    ensures |parts| >= 1
    ensures forall k | 0 <= k < |parts| :: sep !in parts[k]
    decreases |s|
  {
    if s == [] then [""]
    else
      var rest := Split(s[1..], sep);
      if s[0] == sep then [""] + rest
      else [[s[0]] + rest[0]] + rest[1..]
  }

  /** `sep.join(parts)`. */
  function JoinWith(parts: seq<string>, sep: char): string
  {
    if parts == [] then ""
    else if |parts| == 1 then parts[0]
    else parts[0] + [sep] + JoinWith(parts[1..], sep)
  }

  /** A string without the separator splits into itself. */
  lemma {:induction false} SplitNoSep(s: string, sep: char)
    requires sep !in s
    ensures Split(s, sep) == [s]
    decreases |s|
  {
    if s != [] {
      SplitNoSep(s[1..], sep);
      assert [s[0]] + s[1..] == s;
    }
  }

  /** Splitting distributes over a separator: the pieces of `a` then those of `b`. */
  lemma {:induction false} SplitConcat(a: string, b: string, sep: char)
    ensures Split(a + [sep] + b, sep) == Split(a, sep) + Split(b, sep)
    decreases |a|
  {
    var s := a + [sep] + b;
    if a == [] {
      assert s[1..] == b;
    } else {
      assert s[1..] == a[1..] + [sep] + b;
      SplitConcat(a[1..], b, sep);
    }
  }

  /** Joining then splitting gives back pieces that hold no separator. */
  lemma {:induction false} SplitJoin(parts: seq<string>, sep: char)
    requires |parts| >= 1 && forall k | 0 <= k < |parts| :: sep !in parts[k]
    ensures Split(JoinWith(parts, sep), sep) == parts
    decreases |parts|
  {
    SplitNoSep(parts[0], sep);
    if |parts| > 1 {
      SplitJoin(parts[1..], sep);
      SplitConcat(parts[0], JoinWith(parts[1..], sep), sep);
      assert parts == [parts[0]] + parts[1..];
    }
  }

  /** The non-empty pieces, in order. */
  function NonEmpty(xs: seq<string>): (ys: seq<string>)
    ensures forall k | 0 <= k < |ys| :: ys[k] != [] && ys[k] in xs
  {
    if xs == [] then []
    else if xs[0] == [] then NonEmpty(xs[1..])
    else [xs[0]] + NonEmpty(xs[1..])
  }

  lemma {:induction false} NonEmptyConcat(xs: seq<string>, ys: seq<string>)
    ensures NonEmpty(xs + ys) == NonEmpty(xs) + NonEmpty(ys)
    decreases |xs|
  {
    if xs == [] {
      assert xs + ys == ys;
    } else {
      assert (xs + ys)[0] == xs[0];
      assert (xs + ys)[1..] == xs[1..] + ys;
      NonEmptyConcat(xs[1..], ys);
    }
  }

  /** `[x for x in p.split('/') if x]`: the components of a path. */
  function Components(p: string): (cs: seq<string>)
    ensures forall k | 0 <= k < |cs| :: cs[k] != [] && '/' !in cs[k]
  {
    NonEmpty(Split(p, '/'))
  }

  /** The components of `a/b` are those of `a` followed by those of `b`. */
  lemma ComponentsConcat(a: string, b: string)
    ensures Components(a + "/" + b) == Components(a) + Components(b)
  {
    SplitConcat(a, b, '/');
    NonEmptyConcat(Split(a, '/'), Split(b, '/'));
  }

  /** A single non-empty name is one component. */
  lemma ComponentsOfName(name: string)
    requires name != [] && '/' !in name
    ensures Components(name) == [name]
  {
    SplitNoSep(name, '/');
    assert NonEmpty([name]) == [name] + NonEmpty([]);
  }

  /** Length of the longest common prefix of two component lists. */
  function CommonPrefixLength(s: seq<string>, t: seq<string>): (n: nat)
    ensures n <= |s| && n <= |t| && s[..n] == t[..n]
    ensures n < |s| && n < |t| ==> s[n] != t[n]
  {
    if s == [] || t == [] || s[0] != t[0] then 0
    else
      var n := 1 + CommonPrefixLength(s[1..], t[1..]);
      assert s[..n] == [s[0]] + s[1..][..n - 1];
      assert t[..n] == [t[0]] + t[1..][..n - 1];
      n
  }

  function Parents(n: nat): (r: seq<string>)
    ensures |r| == n && forall k | 0 <= k < n :: r[k] == ".."
  {
    if n == 0 then [] else [".."] + Parents(n - 1)
  }

  /** The components `os.path.relpath(path, start)` is made of (before it is joined with `/`). */
  function RelParts(path: string, start: string): (r: seq<string>)
    ensures forall k | 0 <= k < |r| :: r[k] != [] && '/' !in r[k]
  {
    var s := Components(start);
    var t := Components(path);
    var i := CommonPrefixLength(s, t);
    Parents(|s| - i) + t[i..]
  }

  /**
   * `os.path.relpath(path, start)`; `None` stands for the `ValueError` it
   * raises on an empty `path`.
   */
  function RelPath(path: string, start: string): (r: Option<string>)
    ensures r.None? <==> path == []
  {
    if path == [] then None
    else
      var parts := RelParts(path, start);
      Some(if parts == [] then "." else JoinWith(parts, '/'))
  }

  /** Splitting a relative path at `/` gives its components back (`.` for the start itself). */
  lemma SplitRelPath(path: string, start: string)
    requires path != []
    ensures Split(RelPath(path, start).value, '/') == (if RelParts(path, start) == [] then ["."] else RelParts(path, start))
  {
    var parts := RelParts(path, start);
    if parts == [] {
      SplitNoSep(".", '/');
    } else {
      SplitJoin(parts, '/');
    }
  }

  /** A path inside `start` is relative to it by exactly the components below `start`. */
  lemma RelPartsInside(path: string, start: string, below: seq<string>)
    requires Components(path) == Components(start) + below
    ensures RelParts(path, start) == below
  {
    var s := Components(start);
    var t := Components(path);
    assert t[|s|..] == below;
  }

  /** When `s` is not a prefix of `t`, the walk from `s` to `t` starts by going up. */
  lemma ParentsFirst(s: seq<string>, t: seq<string>)
    requires !(s <= t)
    ensures CommonPrefixLength(s, t) < |s|
  {
    var i := CommonPrefixLength(s, t);
    assert s[..i] == t[..i];
  }

  /** A path outside `start` is relative to it through a parent step first. */
  lemma RelPartsOutside(path: string, start: string)
    requires !(Components(start) <= Components(path))
    ensures RelParts(path, start) != [] && RelParts(path, start)[0] == ".."
  {
    ParentsFirst(Components(start), Components(path));
  }

  /** Index just after the last `/` of `p`; 0 when there is none. */
  function TailStart(p: string): (n: nat)
    ensures n <= |p| && (n > 0 ==> p[n - 1] == '/') && '/' !in p[n..]
  {
    if p == [] then 0
    else if p[|p| - 1] == '/' then |p|
    else
      var n := TailStart(p[..|p| - 1]);
      assert p[n..] == p[..|p| - 1][n..] + [p[|p| - 1]];
      n
  }

  /** `os.path.basename(p)`: everything after the last slash. */
  function Basename(p: string): (b: string)
    ensures '/' !in b
  {
    p[TailStart(p)..]
  }

  predicate AllSlashes(s: string)
  {
    forall k | 0 <= k < |s| :: s[k] == '/'
  }

  /** `s.rstrip('/')`. */
  function StripTrailingSlashes(s: string): string
  {
    if s != [] && s[|s| - 1] == '/' then StripTrailingSlashes(s[..|s| - 1]) else s
  }

  /** `os.path.dirname(p)`: up to the last slash, trailing slashes removed unless that is all. */
  function Dirname(p: string): string
  {
    var head := p[..TailStart(p)];
    if head != [] && !AllSlashes(head) then StripTrailingSlashes(head) else head
  }

  /** `os.path.join(a, b)` for two parts. */
  function Join(a: string, b: string): string
  {
    if StartsWith(b, "/") then b
    else if a == [] || EndsWith(a, "/") then a + b
    else a + "/" + b
  }

  /** Joining a name onto a directory that does not end in a slash: basename and dirname undo it. */
  lemma JoinParts(dir: string, name: string)
    requires dir != [] && dir[|dir| - 1] != '/'
    requires name != [] && '/' !in name
    ensures Join(dir, name) == dir + "/" + name
    ensures Basename(Join(dir, name)) == name
    ensures Dirname(Join(dir, name)) == dir
  {
    var p := dir + "/" + name;
    assert !StartsWith(name, "/") by {
      assert name[0] != '/';
    }
    assert !EndsWith(dir, "/") by {
      assert dir[|dir| - 1..] == [dir[|dir| - 1]];
    }
    TailOfJoin(dir, name);
    var head := p[..|dir| + 1];
    assert head == dir + "/";
    assert head[..|head| - 1] == dir;
    assert StripTrailingSlashes(dir) == dir;
    assert !AllSlashes(head) by {
      assert head[|dir| - 1] == dir[|dir| - 1];
    }
  }

  lemma TailOfJoin(dir: string, name: string)
    requires '/' !in name
    ensures TailStart(dir + "/" + name) == |dir| + 1
    decreases |name|
  {
    var p := dir + "/" + name;
    if name != [] {
      var q := name[..|name| - 1];
      assert p[..|p| - 1] == dir + "/" + q;
      assert p[|p| - 1] == name[|name| - 1];
      TailOfJoin(dir, q);
    }
  }
}
