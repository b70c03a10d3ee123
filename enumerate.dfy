/** The tree enumerator: `get_file_list` and `get_directory_list` turn an
    `os.walk` into the set of paths relative to the walked directory, with
    forward slashes. */
module Enumerate {
  import opened Collections
  import opened Paths
  import opened FileSystem

  /** The relative path recorded for one walked entry: `os.path.relpath`
      with backslashes normalised; where `relpath` raises `ValueError`, the
      directory prefix stripped by hand followed by `lstrip('\\/')`, and
      nothing at all when the full path does not start with the directory. */
  function RelativeEntry(disk: Disk, directory: string, full: string): (r: Option<string>)
    ensures r.Some? ==> '\\' !in r.value
    ensures disk.relpath(full, directory).Some? ==> r.Some?
    ensures r.None? <==> disk.relpath(full, directory).None? && !(directory <= full)
    ensures disk.relpath(full, directory).None? && r.Some? ==>
      r.value == [] || r.value[0] != '/'
  {
    match disk.relpath(full, directory)
    case Some(rel) => Some(Normalize(rel))
    case None =>
      if directory <= full then Some(Normalize(LStripSeparators(full[|directory|..]))) else None
  }

  /** What one walked entry adds to the set. */
  function EntrySet(disk: Disk, directory: string, full: string): set<string> {
    match RelativeEntry(disk, directory, full)
    case Some(rel) => {rel}
    case None => {}
  }

  /** The set the enumeration loops build from a sequence of walked entries. */
  function RelativeSet(disk: Disk, directory: string, refs: seq<EntryRef>): set<string> {
    if refs == [] then {}
    else RelativeSet(disk, directory, refs[..|refs| - 1]) + EntrySet(disk, directory, refs[|refs| - 1].path)
  }

  /** Every relative path the enumeration records uses forward slashes only,
      and every one comes from a walked entry. */
  lemma {:induction false} RelativeSetSound(disk: Disk, directory: string, refs: seq<EntryRef>, p: string)
    requires p in RelativeSet(disk, directory, refs)
    ensures '\\' !in p
    ensures exists r :: r in refs && RelativeEntry(disk, directory, r.path) == Some(p)
  {
    var last := refs[|refs| - 1];
    var front := refs[..|refs| - 1];
    if p in RelativeSet(disk, directory, front) {
      RelativeSetSound(disk, directory, front, p);
      var r :| r in front && RelativeEntry(disk, directory, r.path) == Some(p);
      assert r in refs;
    } else {
      assert RelativeEntry(disk, directory, last.path) == Some(p);
    }
  }

  /** Every walked entry whose relative path can be computed is recorded. */
  lemma {:induction false} RelativeSetComplete(disk: Disk, directory: string, refs: seq<EntryRef>, k: nat)
    requires k < |refs| && RelativeEntry(disk, directory, refs[k].path).Some?
    ensures RelativeEntry(disk, directory, refs[k].path).value in RelativeSet(disk, directory, refs)
  {
    if k < |refs| - 1 {
      RelativeSetComplete(disk, directory, refs[..|refs| - 1], k);
    }
  }

  /** What `get_file_list(directory)` returns. */
  function FileList(disk: Disk, directory: string): set<string> {
    RelativeSet(disk, directory, WalkFiles(WalkOf(disk, directory, false)))
  }

  /** What `get_directory_list(directory)` returns. */
  function DirectoryList(disk: Disk, directory: string): set<string> {
    RelativeSet(disk, directory, WalkDirs(WalkOf(disk, directory, false)))
  }

  lemma RelativeSetPrefixStep(disk: Disk, directory: string, refs: seq<EntryRef>, i: nat)
    requires i < |refs|
    ensures RelativeSet(disk, directory, refs[..i + 1])
      == RelativeSet(disk, directory, refs[..i]) + EntrySet(disk, directory, refs[i].path)
  {
    assert refs[..i + 1][..i] == refs[..i];
  }

  /** The body of both enumeration loops for one walked entry: record its
      path relative to `directory`, falling back to stripping the prefix by
      hand when `relpath` raises. */
  method AddRelative(disk: Disk, directory: string, fullPath: string, found: set<string>)
    returns (r: set<string>)
    ensures r == found + EntrySet(disk, directory, fullPath)
  {
    match disk.relpath(fullPath, directory) {
      case Some(rel) =>
        r := found + {Normalize(rel)};
      case None =>
        if directory <= fullPath {
          var relative := LStripSeparators(fullPath[|directory|..]);
          r := found + {Normalize(relative)};
        } else {
          r := found;
        }
    }
  }

  lemma {:induction false} RelativeSetConcat(disk: Disk, directory: string, a: seq<EntryRef>, b: seq<EntryRef>)
    ensures RelativeSet(disk, directory, a + b)
      == RelativeSet(disk, directory, a) + RelativeSet(disk, directory, b)
    decreases |b|
  {
    if b == [] {
      assert a + b == a;
    } else {
      var front := b[..|b| - 1];
      assert (a + b)[..|a + b| - 1] == a + front;
      RelativeSetConcat(disk, directory, a, front);
    }
  }

  /** The inner loop of both enumerations: every name listed under one
      walked root is joined to it and recorded relative to `directory`. */
  method AddEntries(disk: Disk, directory: string, root: string, names: seq<string>, found: set<string>)
    returns (r: set<string>)
    ensures r == found + RelativeSet(disk, directory, JoinedNames(root, names))
  {
    ghost var refs := JoinedNames(root, names);
    r := found;
    var i := 0;
    while i < |names|
      invariant 0 <= i <= |names|
      invariant r == found + RelativeSet(disk, directory, refs[..i])
    {
      var fullPath := PathJoin(root, names[i]);
      assert refs[i].path == fullPath;
      RelativeSetPrefixStep(disk, directory, refs, i);
      r := AddRelative(disk, directory, fullPath, r);
      i := i + 1;
    }
    assert refs[..i] == refs;
  }

  /** `get_file_list(directory)`: every file under `directory`, relative to
      it, with forward slashes. */
  method GetFileList(disk: Disk, directory: string) returns (fileSet: set<string>)
    ensures fileSet == FileList(disk, directory)
    ensures forall p :: p in fileSet ==> '\\' !in p
  {
    fileSet := {};
    var steps := WalkOf(disk, directory, false);
    var s := 0;
    while s < |steps|
      invariant 0 <= s <= |steps|
      invariant fileSet == RelativeSet(disk, directory, WalkFiles(steps[..s]))
    {
      var step := steps[s];
      WalkFilesStep(steps, s);
      RelativeSetConcat(disk, directory, WalkFiles(steps[..s]), StepFiles(step));
      fileSet := AddEntries(disk, directory, step.root, step.files, fileSet);
      s := s + 1;
    }
    assert steps[..s] == steps;
    forall p | p in fileSet ensures '\\' !in p {
      RelativeSetSound(disk, directory, WalkFiles(steps), p);
    }
  }

  /** `get_directory_list(directory)`: every directory under `directory`, relative to
      it, with forward slashes. */
  method GetDirectoryList(disk: Disk, directory: string) returns (dirSet: set<string>)
    ensures dirSet == DirectoryList(disk, directory)
    ensures forall p :: p in dirSet ==> '\\' !in p
  {
    dirSet := {};
    var steps := WalkOf(disk, directory, false);
    var s := 0;
    while s < |steps|
      invariant 0 <= s <= |steps|
      invariant dirSet == RelativeSet(disk, directory, WalkDirs(steps[..s]))
    {
      var step := steps[s];
      WalkDirsStep(steps, s);
      RelativeSetConcat(disk, directory, WalkDirs(steps[..s]), StepDirs(step));
      dirSet := AddEntries(disk, directory, step.root, step.dirs, dirSet);
      s := s + 1;
    }
    assert steps[..s] == steps;
    forall p | p in dirSet ensures '\\' !in p {
      RelativeSetSound(disk, directory, WalkDirs(steps), p);
    }
  }
}
