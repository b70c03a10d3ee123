/** The filesystem as both engines see it, given as data: for each root path
    the folder tree `os.walk` traverses from it, for each full path what
    `open`/`read` and `os.path.getsize` answer, and `os.path.relpath` as an
    oracle that may raise `ValueError` (volumes that differ). */
module FileSystem {
  import opened Collections
  import opened Paths

  newtype Byte = x: int | 0 <= x < 256

  /** What the operating system answers for one full path: the bytes a read
      returns (None: opening or reading raises `OSError`), and the result of
      `os.path.getsize` (a failure carries the text of the `OSError`). */
  datatype FileInfo = FileInfo(content: Option<seq<Byte>>, size: Result<nat, string>)

  /** One directory as `os.walk` lists it: its file names and its
      sub-directories, in the order the walk yields them. */
  datatype Folder = Folder(files: seq<string>, subfolders: seq<Subfolder>)
  datatype Subfolder = Subfolder(name: string, folder: Folder)

  /** `trees[p]` is what `os.walk(p)` traverses; `entries[f]` the answers for
      the full path `f`; `relpath(path, start)` is `os.path.relpath(path, start)`,
      None where it raises `ValueError`. */
  datatype Disk = Disk(
    trees: map<string, Folder>,
    entries: map<string, FileInfo>,
    relpath: (string, string) -> Option<string>)

  /** One `(root, dirs, files)` triple yielded by `os.walk`. */
  datatype WalkStep = WalkStep(root: string, dirs: seq<string>, files: seq<string>)

  /** A name under a walked root, with its full path `os.path.join(root, name)`. */
  datatype EntryRef = EntryRef(name: string, path: string)

  /** The directory names the duplicate scan removes from `dirs` before the
      walk descends: dot-prefixed names and the fixed system names. */
  predicate IsSkippedDirectory(name: string) {
    || (|name| > 0 && name[0] == '.')
    || name in ["System Volume Information", "$RECYCLE.BIN", "hiberfil.sys", "pagefile.sys"]
  }

  predicate Descends(name: string, prune: bool) {
    !prune || !IsSkippedDirectory(name)
  }

  /** The sub-directory names left in `dirs` (all of them without pruning). */
  function DescendedNames(subs: seq<Subfolder>, prune: bool): (names: seq<string>)
    ensures |names| <= |subs|
    ensures forall n :: n in names ==> Descends(n, prune)
    ensures !prune ==> names == seq(|subs|, i requires 0 <= i < |subs| => subs[i].name)
  {
    if subs == [] then []
    else (if Descends(subs[0].name, prune) then [subs[0].name] else []) + DescendedNames(subs[1..], prune)
  }

  /** `idx` lists positions of `subs`, and `names` the names at those positions. */
  ghost predicate Picks(subs: seq<Subfolder>, names: seq<string>, idx: seq<nat>) {
    |idx| == |names| && forall j :: 0 <= j < |idx| ==> idx[j] < |subs| && names[j] == subs[idx[j]].name
  }

  ghost predicate Increasing(idx: seq<nat>) {
    forall j, j' :: 0 <= j < j' < |idx| ==> idx[j] < idx[j']
  }

  /** Every position of `subs` whose name passes the filter is among `idx`. */
  ghost predicate CoversKept(subs: seq<Subfolder>, prune: bool, idx: seq<nat>) {
    forall i :: 0 <= i < |subs| && Descends(subs[i].name, prune) ==> i in idx
  }

  /** `names` are the names of `subs` that pass the filter, in their original
      order: `idx` picks their positions in strictly increasing order. */
  ghost predicate KeptPositions(subs: seq<Subfolder>, prune: bool, names: seq<string>, idx: seq<nat>) {
    Picks(subs, names, idx) && Increasing(idx) && CoversKept(subs, prune, idx)
  }

  /** `dirs[:] = [d for d in dirs if ...]` keeps exactly the names that pass
      the filter, in their original order. */
  lemma {:induction false} DescendedNamesKept(subs: seq<Subfolder>, prune: bool)
    ensures exists idx :: KeptPositions(subs, prune, DescendedNames(subs, prune), idx)
  {
    if subs == [] {
      assert KeptPositions(subs, prune, DescendedNames(subs, prune), []);
    } else {
      var rest := DescendedNames(subs[1..], prune);
      DescendedNamesKept(subs[1..], prune);
      var tail :| KeptPositions(subs[1..], prune, rest, tail);
      var take := Descends(subs[0].name, prune);
      var idx := (if take then [0] else []) + Shifted(tail);
      PicksCons(subs, take, rest, tail);
      IncreasingCons(take, tail);
      CoversCons(subs, prune, tail);
      assert DescendedNames(subs, prune) == (if take then [subs[0].name] else []) + rest;
      assert KeptPositions(subs, prune, DescendedNames(subs, prune), idx);
    }
  }

  function Shifted(tail: seq<nat>): (r: seq<nat>)
    ensures |r| == |tail| && forall j :: 0 <= j < |tail| ==> r[j] == tail[j] + 1
  {
    seq(|tail|, j requires 0 <= j < |tail| => tail[j] + 1)
  }

  lemma PicksCons(subs: seq<Subfolder>, take: bool, rest: seq<string>, tail: seq<nat>)
    requires subs != [] && Picks(subs[1..], rest, tail)
    ensures Picks(subs, (if take then [subs[0].name] else []) + rest, (if take then [0] else []) + Shifted(tail))
  {
    var names := (if take then [subs[0].name] else []) + rest;
    var idx := (if take then [0] else []) + Shifted(tail);
    var d := if take then 1 else 0;
    forall j | d <= j < |idx|
      ensures idx[j] < |subs| && names[j] == subs[idx[j]].name
    {
      assert names[j] == rest[j - d] && idx[j] == tail[j - d] + 1;
      assert subs[1..][tail[j - d]] == subs[idx[j]];
    }
  }

  lemma IncreasingCons(take: bool, tail: seq<nat>)
    requires Increasing(tail)
    ensures Increasing((if take then [0] else []) + Shifted(tail))
  {
    var idx := (if take then [0] else []) + Shifted(tail);
    var d := if take then 1 else 0;
    forall j, j' | d <= j < j' < |idx|
      ensures idx[j] < idx[j']
    {
      assert idx[j] == tail[j - d] + 1 && idx[j'] == tail[j' - d] + 1;
    }
  }

  /** Prepending position 0 exactly when the first name passes the filter
      keeps every passing position covered. */
  lemma CoversCons(subs: seq<Subfolder>, prune: bool, tail: seq<nat>)
    requires subs != [] && CoversKept(subs[1..], prune, tail)
    ensures CoversKept(subs, prune, (if Descends(subs[0].name, prune) then [0] else []) + Shifted(tail))
  {
    var shifted := Shifted(tail);
    var idx := (if Descends(subs[0].name, prune) then [0] else []) + shifted;
    forall i | 0 < i < |subs| && Descends(subs[i].name, prune)
      ensures i in idx
    {
      assert subs[1..][i - 1] == subs[i];
      var j :| 0 <= j < |tail| && tail[j] == i - 1;
      assert shifted[j] == i && shifted[j] in idx;
    }
  }

  /** Top-down `os.walk(root)`: the root's own triple first, then the walks of
      the sub-directories it descends into, in order. With `prune` the
      sub-directories the duplicate scan filters out are not entered. */
  function Walk(root: string, folder: Folder, prune: bool): (steps: seq<WalkStep>)
    ensures |steps| >= 1 && steps[0].root == root && steps[0].files == folder.files
    decreases folder, |folder.subfolders| + 1
  {
    [WalkStep(root, DescendedNames(folder.subfolders, prune), folder.files)]
      + WalkSubfolders(root, folder, 0, prune)
  }

  function WalkSubfolders(root: string, folder: Folder, k: nat, prune: bool): seq<WalkStep>
    requires k <= |folder.subfolders|
    decreases folder, |folder.subfolders| - k
  {
    if k == |folder.subfolders| then []
    else
      var sub := folder.subfolders[k];
      assert sub in folder.subfolders;
      (if Descends(sub.name, prune) then Walk(PathJoin(root, sub.name), sub.folder, prune) else [])
        + WalkSubfolders(root, folder, k + 1, prune)
  }

  /** `os.walk(directory)`: nothing at all for a directory that does not exist. */
  function WalkOf(disk: Disk, directory: string, prune: bool): seq<WalkStep> {
    if directory in disk.trees then Walk(directory, disk.trees[directory], prune) else []
  }

  /** The tree with every sub-folder the duplicate scan skips removed, at
      every depth. */
  function Pruned(folder: Folder): Folder
    decreases folder, |folder.subfolders| + 1
  {
    Folder(folder.files, PrunedFrom(folder, 0))
  }

  function PrunedFrom(folder: Folder, k: nat): seq<Subfolder>
    requires k <= |folder.subfolders|
    decreases folder, |folder.subfolders| - k
  {
    if k == |folder.subfolders| then []
    else
      var sub := folder.subfolders[k];
      assert sub in folder.subfolders;
      (if IsSkippedDirectory(sub.name) then [] else [Subfolder(sub.name, Pruned(sub.folder))])
        + PrunedFrom(folder, k + 1)
  }

  /** No folder anywhere in the tree is one the duplicate scan skips. */
  predicate NoSkipped(folder: Folder)
    decreases folder
  {
    forall k :: 0 <= k < |folder.subfolders| ==>
      !IsSkippedDirectory(folder.subfolders[k].name) && NoSkippedAt(folder, k)
  }

  predicate NoSkippedAt(folder: Folder, k: nat)
    requires k < |folder.subfolders|
    decreases folder, 0
  {
    assert folder.subfolders[k] in folder.subfolders;
    NoSkipped(folder.subfolders[k].folder)
  }

  /** The pruned walk is the plain walk of the pruned tree: a walked file
      or folder lies under no skipped folder. */
  lemma {:induction false} WalkPruned(root: string, folder: Folder)
    ensures Walk(root, folder, true) == Walk(root, Pruned(folder), false)
    decreases folder, |folder.subfolders| + 1
  {
    PrunedNames(folder, 0);
    WalkSubfoldersPruned(root, folder, 0, Pruned(folder), 0);
  }

  lemma {:induction false} PrunedNames(folder: Folder, k: nat)
    requires k <= |folder.subfolders|
    ensures DescendedNames(folder.subfolders[k..], true) == DescendedNames(PrunedFrom(folder, k), false)
    decreases |folder.subfolders| - k
  {
    if k < |folder.subfolders| {
      PrunedNames(folder, k + 1);
      var subs := folder.subfolders[k..];
      assert subs[1..] == folder.subfolders[k + 1..];
      var rest := PrunedFrom(folder, k + 1);
      var sub := folder.subfolders[k];
      if !IsSkippedDirectory(sub.name) {
        var head := Subfolder(sub.name, Pruned(sub.folder));
        assert ([head] + rest)[1..] == rest;
      }
    }
  }

  lemma {:induction false} WalkSubfoldersPruned(root: string, folder: Folder, k: nat, pruned: Folder, j: nat)
    requires k <= |folder.subfolders| && j <= |pruned.subfolders|
    requires pruned.subfolders[j..] == PrunedFrom(folder, k)
    ensures WalkSubfolders(root, folder, k, true) == WalkSubfolders(root, pruned, j, false)
    decreases folder, |folder.subfolders| - k
  {
    if k < |folder.subfolders| {
      var sub := folder.subfolders[k];
      assert sub in folder.subfolders;
      if IsSkippedDirectory(sub.name) {
        WalkSubfoldersPruned(root, folder, k + 1, pruned, j);
      } else {
        assert pruned.subfolders[j] == pruned.subfolders[j..][0] == Subfolder(sub.name, Pruned(sub.folder));
        assert pruned.subfolders[j + 1..] == pruned.subfolders[j..][1..];
        WalkPruned(PathJoin(root, sub.name), sub.folder);
        WalkSubfoldersPruned(root, folder, k + 1, pruned, j + 1);
      }
    }
  }

  /** The pruned tree holds no skipped folder. */
  lemma {:induction false} PrunedHasNoSkipped(folder: Folder)
    ensures NoSkipped(Pruned(folder))
    decreases folder, |folder.subfolders| + 1
  {
    PrunedFromNoSkipped(folder, 0);
  }

  lemma {:induction false} PrunedFromNoSkipped(folder: Folder, k: nat)
    requires k <= |folder.subfolders|
    ensures forall i :: 0 <= i < |PrunedFrom(folder, k)| ==>
      !IsSkippedDirectory(PrunedFrom(folder, k)[i].name) && NoSkipped(PrunedFrom(folder, k)[i].folder)
    decreases folder, |folder.subfolders| - k
  {
    if k < |folder.subfolders| {
      var sub := folder.subfolders[k];
      assert sub in folder.subfolders;
      PrunedFromNoSkipped(folder, k + 1);
      if !IsSkippedDirectory(sub.name) {
        PrunedHasNoSkipped(sub.folder);
      }
    }
  }

  /** The names listed under one walked root, each with its full path. */
  function JoinedNames(root: string, names: seq<string>): (refs: seq<EntryRef>)
    ensures |refs| == |names|
    ensures forall k :: 0 <= k < |names| ==> refs[k] == EntryRef(names[k], PathJoin(root, names[k]))
  {
    seq(|names|, k requires 0 <= k < |names| => EntryRef(names[k], PathJoin(root, names[k])))
  }

  /** The files of one triple, with their full paths. */
  function StepFiles(step: WalkStep): seq<EntryRef> {
    JoinedNames(step.root, step.files)
  }

  /** The sub-directories of one triple, with their full paths. */
  function StepDirs(step: WalkStep): seq<EntryRef> {
    JoinedNames(step.root, step.dirs)
  }

  /** Every file the nested `for root, _, files in walk: for file in files`
      loops visit, in visiting order. */
  function WalkFiles(steps: seq<WalkStep>): seq<EntryRef> {
    if steps == [] then [] else WalkFiles(steps[..|steps| - 1]) + StepFiles(steps[|steps| - 1])
  }

  /** Every directory the nested `for root, dirs, _ in walk: for d in dirs`
      loops visit, in visiting order. */
  function WalkDirs(steps: seq<WalkStep>): seq<EntryRef> {
    if steps == [] then [] else WalkDirs(steps[..|steps| - 1]) + StepDirs(steps[|steps| - 1])
  }

  lemma WalkFilesStep(steps: seq<WalkStep>, s: nat)
    requires s < |steps|
    ensures WalkFiles(steps[..s + 1]) == WalkFiles(steps[..s]) + StepFiles(steps[s])
  {
    assert steps[..s + 1][..s] == steps[..s];
  }

  lemma WalkDirsStep(steps: seq<WalkStep>, s: nat)
    requires s < |steps|
    ensures WalkDirs(steps[..s + 1]) == WalkDirs(steps[..s]) + StepDirs(steps[s])
  {
    assert steps[..s + 1][..s] == steps[..s];
  }

  predicate Readable(disk: Disk, path: string) {
    path in disk.entries && disk.entries[path].content.Some?
  }

  /** `os.path.getsize(path)`; a path the disk does not hold raises
      `FileNotFoundError`. */
  function GetSize(disk: Disk, path: string): (r: Result<nat, string>)
    ensures path !in disk.entries ==> r.Failure?
    ensures path in disk.entries ==> r == disk.entries[path].size
  {
    if path in disk.entries then disk.entries[path].size
    else Failure("[Errno 2] No such file or directory: '" + path + "'")
  }
}
