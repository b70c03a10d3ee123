/** Path strings as both engines handle them: separator normalisation, the
    POSIX `os.path.join` and `os.path.basename`, splitting on '/' and the
    "is below" relation used when report directories are derived. */
module Paths {

  predicate IsSeparator(c: char) {
    c == '/' || c == '\\'
  }

  /** `s.replace('\\', '/')`: every backslash becomes a forward slash and
      nothing else changes. */
  function Normalize(s: string): (r: string)
    ensures |r| == |s|
    ensures forall i :: 0 <= i < |s| ==> r[i] == (if s[i] == '\\' then '/' else s[i])
    ensures '\\' !in r
  {
    if s == [] then [] else [if s[0] == '\\' then '/' else s[0]] + Normalize(s[1..])
  }

  /** `s.lstrip('\\/')`: the longest suffix of `s` that does not start with
      a separator. */
  function LStripSeparators(s: string): (r: string)
    ensures |r| <= |s| && r == s[|s| - |r|..]
    ensures forall i :: 0 <= i < |s| - |r| ==> IsSeparator(s[i])
    ensures r == [] || !IsSeparator(r[0])
  {
    if s != [] && IsSeparator(s[0]) then LStripSeparators(s[1..]) else s
  }

  /** `posixpath.join(a, b)` for two components. */
  function PathJoin(a: string, b: string): (r: string)
    ensures b <= r
      || (a != [] && a[|a| - 1] == '/' && r == a + b)
      || (a == [] && r == b)
      || r == a + "/" + b
  {
    if b != [] && b[0] == '/' then b
    else if a == [] || a[|a| - 1] == '/' then a + b
    else a + "/" + b
  }

  /** `posixpath.basename(p)`: what follows the last '/'. */
  function Basename(p: string): (r: string)
    ensures '/' !in r
    ensures |r| <= |p|
  {
    if p == [] || p[|p| - 1] == '/' then [] else Basename(p[..|p| - 1]) + [p[|p| - 1]]
  }

  /** The base name is the part of the path after its last separator. */
  lemma {:induction false} BasenameIsSuffix(p: string)
    ensures Basename(p) == p[|p| - |Basename(p)|..]
    ensures |Basename(p)| < |p| ==> p[|p| - |Basename(p)| - 1] == '/'
  {
    if p != [] && p[|p| - 1] != '/' {
      var front := p[..|p| - 1];
      BasenameIsSuffix(front);
      assert p[|p| - |Basename(p)|..] == front[|front| - |Basename(front)|..] + [p[|p| - 1]];
    }
  }

  /** A name appended after a separator (or to nothing) is its own base name. */
  lemma {:induction false} BasenameAfterSeparator(prefix: string, name: string)
    requires prefix == [] || prefix[|prefix| - 1] == '/'
    requires '/' !in name
    ensures Basename(prefix + name) == name
  {
    if name != [] {
      var front := name[..|name| - 1];
      assert (prefix + name)[..|prefix + name| - 1] == prefix + front;
      BasenameAfterSeparator(prefix, front);
      assert front + [name[|name| - 1]] == name;
    } else {
      assert prefix + name == prefix;
    }
  }

  /** The base name of a walked file's full path is the file's own name. */
  lemma BasenameOfJoin(root: string, name: string)
    requires name != [] && '/' !in name
    ensures Basename(PathJoin(root, name)) == name
  {
    if root == [] || root[|root| - 1] == '/' {
      BasenameAfterSeparator(root, name);
    } else {
      assert root + "/" + name == (root + "/") + name;
      BasenameAfterSeparator(root + "/", name);
    }
  }

  /** `s.split('/')`: the '/'-separated components, always at least one. */
  function Split(s: string): (parts: seq<string>)
    ensures |parts| >= 1
    ensures forall i :: 0 <= i < |parts| ==> '/' !in parts[i]
  {
    if s == [] then [""]
    else if s[0] == '/' then [""] + Split(s[1..])
    else
      var rest := Split(s[1..]);
      [[s[0]] + rest[0]] + rest[1..]
  }

  /** `'/'.join(parts)` */
  function JoinComponents(parts: seq<string>): string {
    if parts == [] then ""
    else if |parts| == 1 then parts[0]
    else parts[0] + "/" + JoinComponents(parts[1..])
  }

  /** Joining the components of a split gives the string back. */
  lemma {:induction false} JoinSplit(s: string)
    ensures JoinComponents(Split(s)) == s
  {
    if s == [] {
    } else if s[0] == '/' {
      var tail := Split(s[1..]);
      JoinSplit(s[1..]);
      assert ([""] + tail)[1..] == tail;
      assert s == "/" + s[1..];
    } else {
      var rest := Split(s[1..]);
      JoinSplit(s[1..]);
      var parts := [[s[0]] + rest[0]] + rest[1..];
      if |rest| == 1 {
        assert s == [s[0]] + s[1..];
      } else {
        assert parts[1..] == rest[1..];
        assert JoinComponents(rest) == rest[0] + "/" + JoinComponents(rest[1..]);
        assert s == [s[0]] + s[1..];
      }
    }
  }

  /** Joining a concatenation puts one '/' between the two joined halves. */
  lemma {:induction false} JoinConcat(a: seq<string>, b: seq<string>)
    requires |a| >= 1 && |b| >= 1
    ensures JoinComponents(a + b) == JoinComponents(a) + "/" + JoinComponents(b)
  {
    if |a| == 1 {
      assert (a + b)[1..] == b;
    } else {
      assert (a + b)[1..] == a[1..] + b;
      JoinConcat(a[1..], b);
    }
  }

  /** The directory `'/'.join(parts[:i + 1])` that `s` passes through:
      followed by a '/', it is a prefix of `s`. */
  lemma ComponentPrefix(s: string, i: nat)
    requires i < |Split(s)| - 1
    ensures JoinComponents(Split(s)[..i + 1]) + "/" <= s
  {
    var parts := Split(s);
    assert parts == parts[..i + 1] + parts[i + 1..];
    JoinConcat(parts[..i + 1], parts[i + 1..]);
    JoinSplit(s);
  }

  /** `x.startswith(y + '/')`: `x` lies strictly below directory `y`. */
  predicate IsUnder(x: string, y: string) {
    y + "/" <= x
  }

  /** `s.count('/')` */
  function Depth(s: string): nat {
    if s == [] then 0 else (if s[0] == '/' then 1 else 0) + Depth(s[1..])
  }

  lemma {:induction false} DepthConcat(a: string, b: string)
    ensures Depth(a + b) == Depth(a) + Depth(b)
  {
    if a != [] {
      assert (a + b)[0] == a[0] && (a + b)[1..] == a[1..] + b;
      DepthConcat(a[1..], b);
    } else {
      assert a + b == b;
    }
  }

  /** Whatever lies below a directory is deeper than it. */
  lemma UnderIsDeeper(x: string, y: string)
    requires IsUnder(x, y)
    ensures Depth(y) < Depth(x)
  {
    assert x == y + ("/" + x[|y| + 1..]);
    DepthConcat(y, "/" + x[|y| + 1..]);
    assert ("/" + x[|y| + 1..])[1..] == x[|y| + 1..];
  }

  lemma UnderTransitive(x: string, y: string, z: string)
    requires IsUnder(x, y) && IsUnder(y, z)
    ensures IsUnder(x, z)
  {
    assert forall i :: 0 <= i < |z| + 1 ==> (z + "/")[i] == y[i] == x[i];
  }
}
