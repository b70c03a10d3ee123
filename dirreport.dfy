/** Directory entries of a comparison report that lacks them: the folders
    that missing and extra files pass through, less those on both sides,
    each side reduced to its outermost folders. */
module DirReport {
  import opened Collections
  import opened Paths

  // ---------------------------------------------------------------------
  // Depth of split paths

  /** A string without '/' has depth zero. */
  lemma {:induction false} NoSeparatorDepth(s: string)
    requires '/' !in s
    ensures Depth(s) == 0
  {
    if s != [] {
      assert forall c :: c in s[1..] ==> c in s;
      NoSeparatorDepth(s[1..]);
    }
  }

  /** `s.split('/')` has one more component than `s` has separators. */
  lemma {:induction false} DepthOfSplit(s: string)
    ensures Depth(s) == |Split(s)| - 1
  {
    if s != [] {
      DepthOfSplit(s[1..]);
    }
  }

  /** `'/'.join(parts)` of separator-free components has one separator
      fewer than it has components. */
  lemma {:induction false} DepthOfJoin(parts: seq<string>)
    requires |parts| >= 1
    requires forall i :: 0 <= i < |parts| ==> '/' !in parts[i]
    ensures Depth(JoinComponents(parts)) == |parts| - 1
  {
    NoSeparatorDepth(parts[0]);
    if |parts| > 1 {
      DepthOfJoin(parts[1..]);
      DepthConcat(parts[0], "/" + JoinComponents(parts[1..]));
      DepthConcat("/", JoinComponents(parts[1..]));
      assert parts[0] + "/" + JoinComponents(parts[1..]) == parts[0] + ("/" + JoinComponents(parts[1..]));
    }
  }

  /** Two folders a path passes through with the same depth are the same
      folder. */
  lemma SameDepthAncestors(s: string, p: string, q: string)
    requires IsUnder(s, p) && IsUnder(s, q) && Depth(p) == Depth(q)
    ensures p == q
  {
    if |p| < |q| {
      ShallowerAncestor(s, p, q);
    } else if |q| < |p| {
      ShallowerAncestor(s, q, p);
    } else {
      assert p == (p + "/")[..|p|] == s[..|p|];
      assert q == (q + "/")[..|q|] == s[..|q|];
    }
  }

  /** Of two folders a path passes through, the shorter one is shallower. */
  lemma ShallowerAncestor(s: string, p: string, q: string)
    requires IsUnder(s, p) && IsUnder(s, q) && |p| < |q|
    ensures Depth(p) < Depth(q)
  {
    assert p == (p + "/")[..|p|] == s[..|p|];
    assert q == (q + "/")[..|q|] == s[..|q|];
    assert s[|p|] == (p + "/")[|p|] == '/';
    var rest := q[|p|..];
    assert q == p + rest;
    assert rest[0] == '/';
    DepthConcat(p, rest);
  }

  // ---------------------------------------------------------------------
  // Folders a file passes through

  /** `'/'.join(parts[:i + 1])` */
  function DirAt(parts: seq<string>, i: nat): string
    requires i < |parts|
  {
    JoinComponents(parts[..i + 1])
  }

  /** The folders `'/'.join(parts[:i + 1])`, for every `i` but the last, of
      `file_path.replace('\\', '/').split('/')`. */
  function DerivedDirs(filePath: string): set<string> {
    var parts := Split(Normalize(filePath));
    set i: nat | i < |parts| - 1 :: DirAt(parts, i)
  }

  /** The folders derived from a file path are exactly the strings `d` for
      which the normalised path starts with `d + '/'`. */
  lemma DerivedDirsAreAncestors(filePath: string, d: string)
    ensures d in DerivedDirs(filePath) <==> IsUnder(Normalize(filePath), d)
  {
    var s := Normalize(filePath);
    var parts := Split(s);
    if d in DerivedDirs(filePath) {
      var i: nat :| i < |parts| - 1 && d == DirAt(parts, i);
      ComponentPrefix(s, i);
    }
    if IsUnder(s, d) {
      AncestorIsDerived(s, d);
    }
  }

  /** A folder `s` passes through is the one among the components of `s`
      with as many separators as it has. */
  lemma AncestorIsDerived(s: string, d: string)
    requires IsUnder(s, d)
    ensures Depth(d) < |Split(s)| - 1 && d == DirAt(Split(s), Depth(d))
  {
    var parts := Split(s);
    var k := Depth(d);
    assert s == d + ("/" + s[|d| + 1..]);
    DepthConcat(d, "/" + s[|d| + 1..]);
    DepthOfSplit(s);
    ComponentPrefix(s, k);
    DepthOfJoin(parts[..k + 1]);
    SameDepthAncestors(s, d, DirAt(parts, k));
  }

  /** The folders derived from every file of `files`. */
  function AncestorDirs(files: seq<string>): set<string> {
    if files == [] then {} else AncestorDirs(files[..|files| - 1]) + DerivedDirs(files[|files| - 1])
  }

  /** A folder is derived from a list of files exactly when one of the
      files lies below it. */
  lemma {:induction false} AncestorDirsExact(files: seq<string>, d: string)
    ensures d in AncestorDirs(files) <==> exists f :: f in files && IsUnder(Normalize(f), d)
  {
    if files != [] {
      var front := files[..|files| - 1];
      var last := files[|files| - 1];
      AncestorDirsExact(front, d);
      DerivedDirsAreAncestors(last, d);
      assert files == front + [last];
      if exists f :: f in files && IsUnder(Normalize(f), d) {
        var f :| f in files && IsUnder(Normalize(f), d);
        assert f in front || f == last;
      }
    }
  }

  /** Adds the folders of one file path to `dirs`: the inner loop. */
  method AddDerivedDirs(filePath: string, dirs: set<string>) returns (r: set<string>)
    ensures r == dirs + DerivedDirs(filePath)
  {
    var parts := Split(Normalize(filePath));
    r := dirs;
    var i := 0;
    while i < |parts| - 1
      invariant 0 <= i <= |parts| - 1
      invariant r == dirs + set k: nat | k < i :: DirAt(parts, k)
    {
      var dirPath := JoinComponents(parts[..i + 1]);
      assert dirPath == DirAt(parts, i);
      r := r + {dirPath};
      i := i + 1;
    }
  }

  /** The loop over the file paths of one side of the report. */
  method CollectDirs(files: seq<string>) returns (dirs: set<string>)
    ensures dirs == AncestorDirs(files)
  {
    dirs := {};
    var i := 0;
    while i < |files|
      invariant 0 <= i <= |files|
      invariant dirs == AncestorDirs(files[..i])
    {
      assert files[..i + 1][..i] == files[..i];
      dirs := AddDerivedDirs(files[i], dirs);
      i := i + 1;
    }
    assert files[..i] == files;
  }

  // ---------------------------------------------------------------------
  // Keeping the outermost folders

  /** The folders of `dirs` that lie below no other folder of `dirs`. */
  function Shallowest(dirs: set<string>): set<string> {
    set x | x in dirs && !(exists y :: y in dirs && IsUnder(x, y))
  }

  /** `y` is one of `kept`, or lies below one of them. */
  ghost predicate Covered(y: string, kept: set<string>) {
    exists z :: z in kept && (z == y || IsUnder(y, z))
  }

  /** Every folder of `dirs` is kept or lies below a kept folder, and no
      kept folder lies below another: when a folder and one below it are
      both given, the outer one stays and the inner one goes. */
  lemma {:induction false} ShallowestCovers(dirs: set<string>, y: string)
    requires y in dirs
    ensures Covered(y, Shallowest(dirs))
    ensures forall x, z :: x in Shallowest(dirs) && z in Shallowest(dirs) ==> !IsUnder(x, z)
    decreases Depth(y)
  {
    if y !in Shallowest(dirs) {
      var w :| w in dirs && IsUnder(y, w);
      UnderIsDeeper(y, w);
      ShallowestCovers(dirs, w);
      var z :| z in Shallowest(dirs) && (z == w || IsUnder(w, z));
      if z != w {
        UnderTransitive(y, w, z);
      }
    }
  }

  predicate DepthSorted(s: seq<string>) {
    forall i, j :: 0 <= i < j < |s| ==> Depth(s[i]) <= Depth(s[j])
  }

  /** A folder of least depth. */
  method MinDepth(dirs: set<string>) returns (m: string)
    requires dirs != {}
    ensures m in dirs && forall y :: y in dirs ==> Depth(m) <= Depth(y)
  {
    m :| m in dirs;
    var todo := dirs - {m};
    while todo != {}
      invariant m in dirs && todo <= dirs
      invariant forall y :: y in dirs - todo ==> Depth(m) <= Depth(y)
      decreases todo
    {
      var y :| y in todo;
      if Depth(y) < Depth(m) {
        m := y;
      }
      todo := todo - {y};
    }
  }

  /** `sorted(directories, key=lambda x: x.count('/'))` */
  method SortByDepth(dirs: set<string>) returns (order: seq<string>)
    ensures Lists(order, dirs)
    ensures DepthSorted(order)
  {
    order := [];
    var rest := dirs;
    while rest != {}
      invariant Distinct(order) && ToSet(order) + rest == dirs && ToSet(order) !! rest
      invariant DepthSorted(order)
      invariant forall i, y :: 0 <= i < |order| && y in rest ==> Depth(order[i]) <= Depth(y)
      decreases rest
    {
      var m := MinDepth(rest);
      order := order + [m];
      rest := rest - {m};
    }
  }

  /** The inner loop: is `directory` below one of the folders kept so far? */
  method HasParentIn(directory: string, filtered: set<string>) returns (isChild: bool)
    ensures isChild <==> exists e :: e in filtered && IsUnder(directory, e)
  {
    isChild := false;
    var pending := filtered;
    while pending != {} && !isChild
      invariant pending <= filtered
      invariant isChild ==> exists e :: e in filtered && IsUnder(directory, e)
      invariant !isChild ==> forall e :: e in filtered - pending ==> !IsUnder(directory, e)
      decreases pending
    {
      var existing :| existing in pending;
      if IsUnder(directory, existing) {
        isChild := true;
      }
      pending := pending - {existing};
    }
  }

  /** Visiting a folder at least as deep as all folders visited before:
      it is dropped when it lies below a kept folder, and kept otherwise;
      no kept folder lies below it. */
  lemma ShallowestExtend(visited: set<string>, x: string)
    requires forall y :: y in visited ==> Depth(y) <= Depth(x)
    ensures forall d :: d in Shallowest(visited) ==> !IsUnder(d, x)
    ensures (exists e :: e in Shallowest(visited) && IsUnder(x, e))
      ==> Shallowest(visited + {x}) == Shallowest(visited)
    ensures !(exists e :: e in Shallowest(visited) && IsUnder(x, e))
      ==> Shallowest(visited + {x}) == Shallowest(visited) + {x}
  {
    var kept := Shallowest(visited);
    var after := visited + {x};
    forall y | y in visited
      ensures !IsUnder(y, x)
    {
      if IsUnder(y, x) {
        UnderIsDeeper(y, x);
      }
    }
    if !(exists e :: e in kept && IsUnder(x, e)) {
      forall y | y in visited && IsUnder(x, y)
        ensures false
      {
        ShallowestCovers(visited, y);
        var z :| z in kept && (z == y || IsUnder(y, z));
        if z != y {
          UnderTransitive(x, y, z);
        }
      }
      assert x in Shallowest(after);
    }
  }

  /** The folders visited after one more step of a depth-sorted listing. */
  lemma VisitedStep(order: seq<string>, i: nat)
    requires DepthSorted(order) && i < |order|
    ensures ToSet(order[..i + 1]) == ToSet(order[..i]) + {order[i]}
    ensures forall y :: y in ToSet(order[..i]) ==> Depth(y) <= Depth(order[i])
  {
    assert order[..i + 1] == order[..i] + [order[i]];
  }

  /** `_filter_parent_directories`: visits the folders by depth and keeps
      each one that lies below no folder kept so far. */
  method FilterParentDirectories(directories: set<string>) returns (filtered: set<string>)
    ensures filtered == Shallowest(directories)
  {
    var sortedDirs := SortByDepth(directories);
    filtered := {};
    var i := 0;
    while i < |sortedDirs|
      invariant 0 <= i <= |sortedDirs|
      invariant filtered == Shallowest(ToSet(sortedDirs[..i]))
    {
      var directory := sortedDirs[i];
      VisitedStep(sortedDirs, i);
      ShallowestExtend(ToSet(sortedDirs[..i]), directory);
      var isChild := HasParentIn(directory, filtered);
      if !isChild {
        filtered := set d | d in filtered && !IsUnder(d, directory);
        filtered := filtered + {directory};
      }
      i := i + 1;
    }
    assert sortedDirs[..i] == sortedDirs;
  }

  // ---------------------------------------------------------------------
  // The enhanced report

  /** The report with its folder lists added. */
  datatype EnhancedReport = EnhancedReport(
    missingFiles: seq<string>,
    extraFiles: seq<string>,
    missingDirectories: seq<string>,
    extraDirectories: seq<string>,
    numMissing: int,
    numExtra: int)

  /** The folders reported on the side of `files`: those derived from
      `files` and not from `others`, reduced to the outermost ones. */
  function SideDirs(files: seq<string>, others: seq<string>): set<string> {
    Shallowest(AncestorDirs(files) - AncestorDirs(others))
  }

  /** `_enhance_report_with_directories` */
  method EnhanceReport(missingFiles: seq<string>, extraFiles: seq<string>, numMissing: int, numExtra: int)
    returns (r: EnhancedReport)
    ensures r.missingFiles == missingFiles && r.extraFiles == extraFiles
    ensures r.numMissing == numMissing && r.numExtra == numExtra
    ensures Lists(r.missingDirectories, SideDirs(missingFiles, extraFiles))
    ensures Lists(r.extraDirectories, SideDirs(extraFiles, missingFiles))
  {
    var missingDirs := CollectDirs(missingFiles);
    var extraDirs := CollectDirs(extraFiles);
    var commonDirs := missingDirs * extraDirs;
    missingDirs := missingDirs - commonDirs;
    extraDirs := extraDirs - commonDirs;
    missingDirs := FilterParentDirectories(missingDirs);
    extraDirs := FilterParentDirectories(extraDirs);
    var missingList := ListFromSet(missingDirs);
    var extraList := ListFromSet(extraDirs);
    r := EnhancedReport(missingFiles, extraFiles, missingList, extraList, numMissing, numExtra);
  }

  /** A folder reported on one side has a file of that side below it, has
      no file of the other side below it, and lies below no other folder
      with that property: every folder above it holds a file of the other
      side. */
  lemma SideDirsMeaning(files: seq<string>, others: seq<string>, d: string)
    requires d in SideDirs(files, others)
    ensures exists f :: f in files && IsUnder(Normalize(f), d)
    ensures forall f :: f in others ==> !IsUnder(Normalize(f), d)
    ensures forall e :: IsUnder(d, e) ==> exists g :: g in others && IsUnder(Normalize(g), e)
  {
    AncestorDirsExact(files, d);
    AncestorDirsExact(others, d);
    var f :| f in files && IsUnder(Normalize(f), d);
    forall e | IsUnder(d, e)
      ensures exists g :: g in others && IsUnder(Normalize(g), e)
    {
      UnderTransitive(Normalize(f), d, e);
      AncestorDirsExact(files, e);
      AncestorDirsExact(others, e);
    }
  }

  /** Every folder with a file of one side below it and none of the other
      side is reported, or lies below a reported folder. */
  lemma SideDirsComplete(files: seq<string>, others: seq<string>, f: string, d: string)
    requires f in files && IsUnder(Normalize(f), d)
    requires forall g :: g in others ==> !IsUnder(Normalize(g), d)
    ensures Covered(d, SideDirs(files, others))
  {
    AncestorDirsExact(files, d);
    AncestorDirsExact(others, d);
    ShallowestCovers(AncestorDirs(files) - AncestorDirs(others), d);
  }

  /** No folder is reported both missing and extra. */
  lemma SidesDisjoint(missingFiles: seq<string>, extraFiles: seq<string>)
    ensures SideDirs(missingFiles, extraFiles) !! SideDirs(extraFiles, missingFiles)
  {
  }
}
