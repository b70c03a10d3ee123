/** The duplicate finder, `_scan_for_duplicates`: a counting pass and a
    hashing pass over the same pruned walk, grouping of the files by content
    digest, and the space that deleting all but one copy would free. */
module Duplicates {
  import opened Collections
  import opened Paths
  import opened FileSystem
  import opened Hashing
  import opened Arith

  /** The smallest and the largest file size the scan considers (1 KiB, 2 GiB). */
  const MinSize: nat := 1024
  const MaxSize: nat := 2147483648

  /** `c.lower()` on ASCII letters. */
  function LowerChar(c: char): char {
    if 'A' <= c <= 'Z' then (c as int + 32) as char else c
  }

  function Lower(s: string): (r: string)
    ensures |r| == |s|
  {
    seq(|s|, i requires 0 <= i < |s| => LowerChar(s[i]))
  }

  predicate EndsWith(s: string, suffix: string) {
    |suffix| <= |s| && s[|s| - |suffix|..] == suffix
  }

  /** The name filter of both passes: no leading dot, and no `.tmp`,
      `.temp` or `.log` ending in any letter case. */
  predicate NameQualifies(name: string) {
    && !(|name| > 0 && name[0] == '.')
    && !(EndsWith(Lower(name), ".tmp") || EndsWith(Lower(name), ".temp") || EndsWith(Lower(name), ".log"))
  }

  /** The name filter ignores letter case: a name passes exactly when its
      lowercase form does, so `.LOG` is refused like `.log`. */
  lemma NameFilterIgnoresCase(name: string)
    ensures NameQualifies(Lower(name)) == NameQualifies(name)
  {
    assert Lower(Lower(name)) == Lower(name);
    if |name| > 0 {
      assert Lower(name)[0] == LowerChar(name[0]);
    }
  }

  /** Hidden files and the three temporary endings in any case are
      refused; an ending in the middle of the name is not. */
  lemma NameFilterExamples()
    ensures !NameQualifies(".profile")
    ensures !NameQualifies("Backup.LOG") && !NameQualifies("x.Temp")
    ensures NameQualifies("notes.tmp.txt")
  {
    assert Lower("Backup.LOG")[6..] == ".log";
    assert Lower("x.Temp")[1..] == ".temp";
    var n := Lower("notes.tmp.txt");
    assert n[9..] == ".txt" && n[8..] == "p.txt";
  }

  predicate SizeQualifies(size: nat) {
    MinSize <= size <= MaxSize
  }

  /** A walked file both passes take on: its name passes the filter and
      `getsize` gives a size in range. */
  predicate InRange(disk: Disk, e: EntryRef) {
    && NameQualifies(e.name)
    && GetSize(disk, e.path).Success?
    && SizeQualifies(GetSize(disk, e.path).value)
  }

  /** Walked files whose name passes the filter. */
  function NamedCount(entries: seq<EntryRef>): nat {
    if entries == [] then 0
    else NamedCount(entries[..|entries| - 1]) + if NameQualifies(entries[|entries| - 1].name) then 1 else 0
  }

  /** Walked files the scan hashes. */
  function InRangeCount(disk: Disk, entries: seq<EntryRef>): nat {
    if entries == [] then 0
    else InRangeCount(disk, entries[..|entries| - 1]) + if InRange(disk, entries[|entries| - 1]) then 1 else 0
  }

  /** Walked files whose name passes but whose size cannot be read, or
      which are hashed but cannot be read. */
  function FailureCount(disk: Disk, entries: seq<EntryRef>): nat {
    if entries == [] then 0
    else
      var e := entries[|entries| - 1];
      FailureCount(disk, entries[..|entries| - 1])
        + if NameQualifies(e.name) && GetSize(disk, e.path).Failure? then 1
          else if InRange(disk, e) && !Readable(disk, e.path) then 1
          else 0
  }

  // ---------------------------------------------------------------------
  // The counting pass

  /** `total_files` and `skipped_files` of the counting pass. */
  datatype Tally = Tally(total: nat, skipped: nat)

  /** One file of the counting pass. */
  function CountEntry(disk: Disk, t: Tally, e: EntryRef): Tally {
    if !NameQualifies(e.name) then t
    else
      match GetSize(disk, e.path)
      case Success(size) =>
        if SizeQualifies(size) then Tally(t.total + 1, t.skipped) else Tally(t.total, t.skipped + 1)
      case Failure(_) => Tally(t.total, t.skipped + 1)
  }

  function CountPass(disk: Disk, start: Tally, entries: seq<EntryRef>): Tally {
    if entries == [] then start
    else CountEntry(disk, CountPass(disk, start, entries[..|entries| - 1]), entries[|entries| - 1])
  }

  lemma {:induction false} CountPassConcat(disk: Disk, start: Tally, a: seq<EntryRef>, b: seq<EntryRef>)
    ensures CountPass(disk, start, a + b) == CountPass(disk, CountPass(disk, start, a), b)
    decreases |b|
  {
    if b == [] {
      assert a + b == a;
    } else {
      assert (a + b)[..|a + b| - 1] == a + b[..|b| - 1];
      CountPassConcat(disk, start, a, b[..|b| - 1]);
    }
  }

  /** One more walked file of a directory extends the counting pass by one entry. */
  lemma CountPassPrefixStep(disk: Disk, start: Tally, root: string, names: seq<string>, i: nat)
    requires i < |names|
    ensures var refs := JoinedNames(root, names);
      CountPass(disk, start, refs[..i + 1])
        == CountEntry(disk, CountPass(disk, start, refs[..i]), EntryRef(names[i], PathJoin(root, names[i])))
  {
    var refs := JoinedNames(root, names);
    assert refs[..i + 1][..i] == refs[..i];
  }

  /** The counting pass counts each name-qualified file exactly once: as a
      file to analyse when its size is in range, as skipped otherwise. */
  lemma {:induction false} CountPassTotals(disk: Disk, start: Tally, entries: seq<EntryRef>)
    ensures CountPass(disk, start, entries).total == start.total + InRangeCount(disk, entries)
    ensures CountPass(disk, start, entries).total + CountPass(disk, start, entries).skipped
      == start.total + start.skipped + NamedCount(entries)
  {
    if entries != [] {
      CountPassTotals(disk, start, entries[..|entries| - 1]);
    }
  }

  // ---------------------------------------------------------------------
  // The hashing pass

  /** `file_hashes`, `processed_files` and `error_files` of the hashing pass. */
  datatype ScanState = ScanState(fileHashes: OrderedMap<Digest, seq<string>>, processed: nat, errors: nat)

  function InitialScan(): (st: ScanState)
    ensures st.fileHashes.Valid() && st.fileHashes.values == map[]
  {
    ScanState(EmptyOrderedMap(), 0, 0)
  }

  /** `file_hashes.setdefault(d, []).append(path)` */
  function Append(m: OrderedMap<Digest, seq<string>>, d: Digest, path: string): (r: OrderedMap<Digest, seq<string>>)
    ensures m.Valid() ==> r.Valid()
    ensures r.values == m.values[d := (if d in m.values then m.values[d] else []) + [path]]
  {
    m.Put(d, (if d in m.values then m.values[d] else []) + [path])
  }

  /** One file of the hashing pass. */
  function HashEntry(disk: Disk, sha: seq<Byte> -> Digest, st: ScanState, e: EntryRef): ScanState {
    if !NameQualifies(e.name) then st
    else
      match GetSize(disk, e.path)
      case Failure(_) => st.(errors := st.errors + 1)
      case Success(size) =>
        if !SizeQualifies(size) then st
        else
          match CalculateFileHashSafe(disk, e.path, sha)
          case Some(d) => ScanState(Append(st.fileHashes, d, e.path), st.processed + 1, st.errors)
          case None => st.(processed := st.processed + 1, errors := st.errors + 1)
  }

  function HashPass(disk: Disk, sha: seq<Byte> -> Digest, start: ScanState, entries: seq<EntryRef>): (st: ScanState)
    ensures start.fileHashes.Valid() ==> st.fileHashes.Valid()
  {
    if entries == [] then start
    else HashEntry(disk, sha, HashPass(disk, sha, start, entries[..|entries| - 1]), entries[|entries| - 1])
  }

  lemma {:induction false} HashPassConcat(disk: Disk, sha: seq<Byte> -> Digest, start: ScanState,
                                          a: seq<EntryRef>, b: seq<EntryRef>)
    ensures HashPass(disk, sha, start, a + b) == HashPass(disk, sha, HashPass(disk, sha, start, a), b)
    decreases |b|
  {
    if b == [] {
      assert a + b == a;
    } else {
      assert (a + b)[..|a + b| - 1] == a + b[..|b| - 1];
      HashPassConcat(disk, sha, start, a, b[..|b| - 1]);
    }
  }

  /** One more walked file of a directory extends the hashing pass by one entry. */
  lemma HashPassPrefixStep(disk: Disk, sha: seq<Byte> -> Digest, start: ScanState, root: string,
                           names: seq<string>, i: nat)
    requires i < |names|
    ensures var refs := JoinedNames(root, names);
      HashPass(disk, sha, start, refs[..i + 1])
        == HashEntry(disk, sha, HashPass(disk, sha, start, refs[..i]), EntryRef(names[i], PathJoin(root, names[i])))
  {
    var refs := JoinedNames(root, names);
    assert refs[..i + 1][..i] == refs[..i];
  }

  /** The hashing pass processes exactly the files the counting pass counts
      as files to analyse, and counts an error for each size it cannot read
      and each hashed file it cannot read. */
  lemma {:induction false} HashPassCounts(disk: Disk, sha: seq<Byte> -> Digest, start: ScanState, entries: seq<EntryRef>)
    ensures HashPass(disk, sha, start, entries).processed == start.processed + InRangeCount(disk, entries)
    ensures HashPass(disk, sha, start, entries).errors == start.errors + FailureCount(disk, entries)
  {
    if entries != [] {
      HashPassCounts(disk, sha, start, entries[..|entries| - 1]);
    }
  }

  /** A path stored under digest `d`: its size is in range, it is readable,
      and its bytes hash to `d`. */
  predicate Stored(disk: Disk, sha: seq<Byte> -> Digest, d: Digest, p: string) {
    && GetSize(disk, p).Success? && SizeQualifies(GetSize(disk, p).value)
    && Readable(disk, p) && sha(disk.entries[p].content.value) == d
  }

  /** What the hashing pass stores, starting from an empty `file_hashes`. */
  function FileHashes(disk: Disk, sha: seq<Byte> -> Digest, entries: seq<EntryRef>): map<Digest, seq<string>> {
    HashPass(disk, sha, InitialScan(), entries).fileHashes.values
  }

  /** Every path in `file_hashes` is a walked, name-qualified file of
      in-range size whose bytes hash to the digest it is stored under, and
      no digest has an empty list. */
  lemma {:induction false} FileHashesSound(disk: Disk, sha: seq<Byte> -> Digest, entries: seq<EntryRef>)
    ensures forall d :: d in FileHashes(disk, sha, entries) ==> FileHashes(disk, sha, entries)[d] != []
    ensures forall d, p :: d in FileHashes(disk, sha, entries) && p in FileHashes(disk, sha, entries)[d] ==>
      Stored(disk, sha, d, p) && exists e :: e in entries && InRange(disk, e) && e.path == p
  {
    if entries != [] {
      var front := entries[..|entries| - 1];
      var e := entries[|entries| - 1];
      FileHashesSound(disk, sha, front);
      var before := FileHashes(disk, sha, front);
      forall d, p | d in FileHashes(disk, sha, entries) && p in FileHashes(disk, sha, entries)[d]
        ensures Stored(disk, sha, d, p) && exists e :: e in entries && InRange(disk, e) && e.path == p
      {
        if d in before && p in before[d] {
          var x :| x in front && InRange(disk, x) && x.path == p;
          assert x in entries;
        } else {
          assert p == e.path;
        }
      }
    }
  }

  /** Every walked, name-qualified, readable file of in-range size is
      stored under the digest of its bytes. */
  lemma {:induction false} FileHashesComplete(disk: Disk, sha: seq<Byte> -> Digest, entries: seq<EntryRef>, e: EntryRef)
    requires e in entries && InRange(disk, e) && Readable(disk, e.path)
    ensures sha(disk.entries[e.path].content.value) in FileHashes(disk, sha, entries)
    ensures e.path in FileHashes(disk, sha, entries)[sha(disk.entries[e.path].content.value)]
  {
    var front := entries[..|entries| - 1];
    if e != entries[|entries| - 1] {
      assert e in front by {
        assert entries == front + [entries[|entries| - 1]];
      }
      FileHashesComplete(disk, sha, front, e);
    }
  }

  // ---------------------------------------------------------------------
  // Grouping

  /** `duplicate_groups` and `unique_files` after visiting `keys`. */
  datatype Grouping = Grouping(groups: OrderedMap<string, seq<string>>, unique: nat)

  /** The loop over `file_hashes.items()`: a digest with several files
      becomes a group named after the base name of its first file (a later
      group with the same name replaces the earlier one); a digest with one
      file counts as unique. */
  function GroupKeys(values: map<Digest, seq<string>>, keys: seq<Digest>): (g: Grouping)
    requires forall k :: k in keys ==> k in values
    ensures g.groups.Valid()
  {
    if keys == [] then Grouping(EmptyOrderedMap(), 0)
    else
      var g := GroupKeys(values, keys[..|keys| - 1]);
      var paths := values[keys[|keys| - 1]];
      if |paths| > 1 then Grouping(g.groups.Put(Basename(paths[0]), paths), g.unique)
      else Grouping(g.groups, g.unique + 1)
  }

  /** Digests among `keys` with more than one file. */
  function SharedCount(values: map<Digest, seq<string>>, keys: seq<Digest>): nat
    requires forall k :: k in keys ==> k in values
  {
    if keys == [] then 0
    else SharedCount(values, keys[..|keys| - 1]) + if |values[keys[|keys| - 1]]| > 1 then 1 else 0
  }

  /** Every group is the file list of one digest with at least two files,
      named after the base name of its first file; every digest is either
      counted unique or shared; and there are at most as many groups as
      shared digests. */
  lemma {:induction false} GroupKeysGroups(values: map<Digest, seq<string>>, keys: seq<Digest>)
    requires forall k :: k in keys ==> k in values
    ensures forall name :: name in GroupKeys(values, keys).groups.values ==>
      && |GroupKeys(values, keys).groups.values[name]| >= 2
      && exists k :: k in keys && values[k] == GroupKeys(values, keys).groups.values[name]
                  && name == Basename(values[k][0])
    ensures GroupKeys(values, keys).unique + SharedCount(values, keys) == |keys|
    ensures |GroupKeys(values, keys).groups.keys| <= SharedCount(values, keys)
  {
    if keys != [] {
      var front := keys[..|keys| - 1];
      var last := keys[|keys| - 1];
      GroupKeysGroups(values, front);
      var g := GroupKeys(values, front);
      DistinctCardinality(g.groups.keys);
      var paths := values[last];
      if |paths| > 1 {
        var r := g.groups.Put(Basename(paths[0]), paths);
        DistinctCardinality(r.keys);
        forall name | name in r.values
          ensures |r.values[name]| >= 2
          ensures exists k :: k in keys && values[k] == r.values[name] && name == Basename(values[k][0])
        {
          if name == Basename(paths[0]) {
            assert values[last] == r.values[name];
          } else {
            var k :| k in front && values[k] == g.groups.values[name] && name == Basename(values[k][0]);
            assert k in keys;
          }
        }
      }
    }
  }

  /** Digest `k` has at least two files, the first of which has base name `name`. */
  predicate NamesGroup(values: map<Digest, seq<string>>, k: Digest, name: string) {
    k in values && |values[k]| > 1 && Basename(values[k][0]) == name
  }

  /** Every digest among `keys` with at least two files yields a group
      under the base name of its first file. */
  lemma {:induction false} GroupKeysComplete(values: map<Digest, seq<string>>, keys: seq<Digest>)
    requires forall k :: k in keys ==> k in values
    ensures forall k :: k in keys && |values[k]| > 1 ==> Basename(values[k][0]) in GroupKeys(values, keys).groups.values
  {
    if keys != [] {
      var front := keys[..|keys| - 1];
      GroupKeysComplete(values, front);
      forall k | k in keys && |values[k]| > 1
        ensures Basename(values[k][0]) in GroupKeys(values, keys).groups.values
      {
        var i :| 0 <= i < |keys| && keys[i] == k;
        if i < |keys| - 1 {
          assert front[i] == k;
        }
      }
    }
  }

  /** `keys[j]` is the last of `keys` that names a group `name`. */
  predicate LastNamer(values: map<Digest, seq<string>>, keys: seq<Digest>, name: string, j: int) {
    && 0 <= j < |keys| && NamesGroup(values, keys[j], name)
    && forall j' :: j < j' < |keys| ==> !NamesGroup(values, keys[j'], name)
  }

  /** The files grouped under a name are those of the last digest among
      `keys` that names a group after it: a later group with the same name
      replaces an earlier one. */
  lemma {:induction false} GroupKeysLastWins(values: map<Digest, seq<string>>, keys: seq<Digest>, name: string)
    requires forall k :: k in keys ==> k in values
    requires name in GroupKeys(values, keys).groups.values
    ensures exists j :: LastNamer(values, keys, name, j) && GroupKeys(values, keys).groups.values[name] == values[keys[j]]
  {
    var front := keys[..|keys| - 1];
    var last := keys[|keys| - 1];
    assert forall k :: k in front ==> k in keys;
    GroupKeysLastName(values, keys, name);
    if NamesGroup(values, last, name) {
      assert LastNamer(values, keys, name, |keys| - 1);
    } else {
      GroupKeysLastWins(values, front, name);
      var j :| LastNamer(values, front, name, j)
        && GroupKeys(values, front).groups.values[name] == values[front[j]];
      LastNamerExtend(values, keys, name, j);
      assert LastNamer(values, keys, name, j) && GroupKeys(values, keys).groups.values[name] == values[keys[j]];
    }
  }

  /** The last digest of `keys` either names the group `name` and supplies
      its files, or leaves that group as the earlier digests made it. */
  lemma GroupKeysLastName(values: map<Digest, seq<string>>, keys: seq<Digest>, name: string)
    requires forall k :: k in keys ==> k in values
    requires keys != []
    ensures var groups := GroupKeys(values, keys).groups.values;
      var before := GroupKeys(values, keys[..|keys| - 1]).groups.values;
      if NamesGroup(values, keys[|keys| - 1], name) then name in groups && groups[name] == values[keys[|keys| - 1]]
      else (name in groups <==> name in before) && (name in groups ==> groups[name] == before[name])
  {
  }

  lemma LastNamerExtend(values: map<Digest, seq<string>>, keys: seq<Digest>, name: string, j: int)
    requires keys != []
    requires LastNamer(values, keys[..|keys| - 1], name, j) && !NamesGroup(values, keys[|keys| - 1], name)
    ensures LastNamer(values, keys, name, j) && keys[j] == keys[..|keys| - 1][j]
  {
    forall j' | j < j' < |keys|
      ensures !NamesGroup(values, keys[j'], name)
    {
      if j' < |keys| - 1 {
        assert keys[j'] == keys[..|keys| - 1][j'];
      }
    }
  }


  lemma GroupKeysStep(values: map<Digest, seq<string>>, keys: seq<Digest>, i: nat)
    requires forall k :: k in keys ==> k in values
    requires i < |keys|
    ensures var g := GroupKeys(values, keys[..i]);
      var paths := values[keys[i]];
      GroupKeys(values, keys[..i + 1])
        == if |paths| > 1 then Grouping(g.groups.Put(Basename(paths[0]), paths), g.unique)
           else Grouping(g.groups, g.unique + 1)
  {
    assert keys[..i + 1][..i] == keys[..i];
  }

  /** A first shared digest opens one group named after its first file. */
  lemma FirstGroup(values: map<Digest, seq<string>>, keys: seq<Digest>, name: string)
    requires forall k :: k in keys ==> k in values
    requires |keys| >= 1 && |values[keys[0]]| > 1 && Basename(values[keys[0]][0]) == name
    ensures GroupKeys(values, keys[..1]) == Grouping(OrderedMap([name], map[name := values[keys[0]]]), 0)
    ensures SharedCount(values, keys[..1]) == 1
  {
    assert keys[..1][..0] == [];
    GroupKeysStep(values, keys, 0);
  }

  /** Two shared digests whose first files have the same base name leave a
      single group: the later list replaces the earlier one, so one list of
      duplicates is missing from the report. */
  lemma SameNameGroupsCollide(values: map<Digest, seq<string>>, keys: seq<Digest>, name: string)
    requires |keys| == 2 && keys[0] in values && keys[1] in values
    requires |values[keys[0]]| > 1 && Basename(values[keys[0]][0]) == name
    requires |values[keys[1]]| > 1 && Basename(values[keys[1]][0]) == name
    ensures forall k :: k in keys ==> k in values
    ensures GroupKeys(values, keys).groups.keys == [name]
    ensures name in GroupKeys(values, keys).groups.values
    ensures GroupKeys(values, keys).groups.values[name] == values[keys[1]]
    ensures GroupKeys(values, keys).unique == 0
    ensures SharedCount(values, keys) == 2
  {
    assert forall k :: k in keys ==> k in values by {
      assert keys == [keys[0], keys[1]];
    }
    FirstGroup(values, keys, name);
    assert keys[..2] == keys;
    GroupKeysStep(values, keys, 1);
    assert keys[..|keys| - 1] == keys[..1];
  }

  /** `sum(len(group) for group in duplicate_groups.values())` */
  function TotalLengths(values: map<string, seq<string>>, names: seq<string>): nat
    requires forall n :: n in names ==> n in values
  {
    if names == [] then 0
    else TotalLengths(values, names[..|names| - 1]) + |values[names[|names| - 1]]|
  }

  // ---------------------------------------------------------------------
  // The report

  /** The dictionary `_scan_for_duplicates` returns; the two error counts
      are absent from the early return for a tree with nothing to analyse. */
  datatype DuplicateReport = DuplicateReport(
    totalFiles: nat,
    uniqueFiles: nat,
    duplicateGroups: OrderedMap<string, seq<string>>,
    totalDuplicateFiles: nat,
    errorFiles: Option<nat>,
    skippedFiles: Option<nat>)

  /** The files both passes visit: the walk with the skipped directories pruned. */
  function ScannedFiles(disk: Disk, directory: string): seq<EntryRef> {
    WalkFiles(WalkOf(disk, directory, true))
  }

  /** Both passes visit exactly the files of the plain walk of the tree
      with the skipped folders removed, none of which it holds anywhere. */
  lemma ScannedFilesPruned(disk: Disk, directory: string)
    requires directory in disk.trees
    ensures ScannedFiles(disk, directory) == WalkFiles(Walk(directory, Pruned(disk.trees[directory]), false))
    ensures NoSkipped(Pruned(disk.trees[directory]))
  {
    WalkPruned(directory, disk.trees[directory]);
    PrunedHasNoSkipped(disk.trees[directory]);
  }

  /** What `_scan_for_duplicates(directory)` returns. */
  function DuplicateScan(disk: Disk, directory: string, sha: seq<Byte> -> Digest): DuplicateReport {
    var entries := ScannedFiles(disk, directory);
    var tally := CountPass(disk, Tally(0, 0), entries);
    if tally.total == 0 then DuplicateReport(0, 0, EmptyOrderedMap(), 0, None, None)
    else
      var st := HashPass(disk, sha, InitialScan(), entries);
      var g := GroupKeys(st.fileHashes.values, st.fileHashes.keys);
      DuplicateReport(st.processed, g.unique, g.groups, TotalLengths(g.groups.values, g.groups.keys),
                      Some(st.errors), Some(tally.skipped))
  }

  /** The counting loop over the files of one walked directory. */
  method CountFiles(disk: Disk, root: string, names: seq<string>, start: Tally) returns (tally: Tally)
    ensures tally == CountPass(disk, start, JoinedNames(root, names))
  {
    ghost var refs := JoinedNames(root, names);
    tally := start;
    var i := 0;
    while i < |names|
      invariant 0 <= i <= |names|
      invariant tally == CountPass(disk, start, refs[..i])
    {
      CountPassPrefixStep(disk, start, root, names, i);
      var file := names[i];
      if NameQualifies(file) {
        var filePath := PathJoin(root, file);
        match GetSize(disk, filePath) {
          case Success(fileSize) =>
            if SizeQualifies(fileSize) {
              tally := tally.(total := tally.total + 1);
            } else {
              tally := tally.(skipped := tally.skipped + 1);
            }
          case Failure(_) =>
            tally := tally.(skipped := tally.skipped + 1);
        }
      }
      i := i + 1;
    }
    assert refs[..i] == refs;
  }

  /** The hashing loop over the files of one walked directory. */
  method HashFiles(disk: Disk, sha: seq<Byte> -> Digest, root: string, names: seq<string>, start: ScanState)
    returns (st: ScanState)
    ensures st == HashPass(disk, sha, start, JoinedNames(root, names))
  {
    ghost var refs := JoinedNames(root, names);
    st := start;
    var i := 0;
    while i < |names|
      invariant 0 <= i <= |names|
      invariant st == HashPass(disk, sha, start, refs[..i])
    {
      HashPassPrefixStep(disk, sha, start, root, names, i);
      var file := names[i];
      if NameQualifies(file) {
        var filePath := PathJoin(root, file);
        match GetSize(disk, filePath) {
          case Failure(_) =>
            st := st.(errors := st.errors + 1);
          case Success(fileSize) =>
            if SizeQualifies(fileSize) {
              var fileHash := CalculateFileHashSafe(disk, filePath, sha);
              if fileHash.Some? {
                st := st.(fileHashes := Append(st.fileHashes, fileHash.value, filePath));
              } else {
                st := st.(errors := st.errors + 1);
              }
              st := st.(processed := st.processed + 1);
            }
        }
      }
      i := i + 1;
    }
    assert refs[..i] == refs;
  }

  /** The loop over `file_hashes.items()`. */
  method GroupDuplicates(fileHashes: OrderedMap<Digest, seq<string>>) returns (g: Grouping)
    requires fileHashes.Valid()
    ensures g == GroupKeys(fileHashes.values, fileHashes.keys)
  {
    var groups: OrderedMap<string, seq<string>> := EmptyOrderedMap();
    var uniqueFiles := 0;
    var i := 0;
    while i < |fileHashes.keys|
      invariant 0 <= i <= |fileHashes.keys|
      invariant Grouping(groups, uniqueFiles) == GroupKeys(fileHashes.values, fileHashes.keys[..i])
    {
      GroupKeysStep(fileHashes.values, fileHashes.keys, i);
      assert fileHashes.keys[i] in ToSet(fileHashes.keys);
      var filePaths := fileHashes.values[fileHashes.keys[i]];
      if |filePaths| > 1 {
        var groupName := Basename(filePaths[0]);
        groups := groups.Put(groupName, filePaths);
      } else {
        uniqueFiles := uniqueFiles + 1;
      }
      i := i + 1;
    }
    assert fileHashes.keys[..i] == fileHashes.keys;
    g := Grouping(groups, uniqueFiles);
  }

  /** `sum(len(group) for group in duplicate_groups.values())` as a loop. */
  method SumGroupLengths(groups: OrderedMap<string, seq<string>>) returns (total: nat)
    requires groups.Valid()
    ensures total == TotalLengths(groups.values, groups.keys)
  {
    total := 0;
    var i := 0;
    while i < |groups.keys|
      invariant 0 <= i <= |groups.keys|
      invariant total == TotalLengths(groups.values, groups.keys[..i])
    {
      assert groups.keys[..i + 1][..i] == groups.keys[..i];
      total := total + |groups.values[groups.keys[i]]|;
      i := i + 1;
    }
    assert groups.keys[..i] == groups.keys;
  }

  /** `_scan_for_duplicates(directory)` */
  method ScanForDuplicates(disk: Disk, directory: string, sha: seq<Byte> -> Digest) returns (report: DuplicateReport)
    ensures report == DuplicateScan(disk, directory, sha)
  {
    var steps := WalkOf(disk, directory, true);
    var tally := Tally(0, 0);
    var s := 0;
    while s < |steps|
      invariant 0 <= s <= |steps|
      invariant tally == CountPass(disk, Tally(0, 0), WalkFiles(steps[..s]))
    {
      WalkFilesStep(steps, s);
      CountPassConcat(disk, Tally(0, 0), WalkFiles(steps[..s]), StepFiles(steps[s]));
      tally := CountFiles(disk, steps[s].root, steps[s].files, tally);
      s := s + 1;
    }
    assert steps[..s] == steps;

    if tally.total == 0 {
      return DuplicateReport(0, 0, EmptyOrderedMap(), 0, None, None);
    }

    var st := InitialScan();
    s := 0;
    while s < |steps|
      invariant 0 <= s <= |steps|
      invariant st == HashPass(disk, sha, InitialScan(), WalkFiles(steps[..s]))
    {
      WalkFilesStep(steps, s);
      HashPassConcat(disk, sha, InitialScan(), WalkFiles(steps[..s]), StepFiles(steps[s]));
      st := HashFiles(disk, sha, steps[s].root, steps[s].files, st);
      s := s + 1;
    }
    assert steps[..s] == steps;

    var g := GroupDuplicates(st.fileHashes);
    var totalDuplicateFiles := SumGroupLengths(g.groups);
    report := DuplicateReport(st.processed, g.unique, g.groups, totalDuplicateFiles,
                              Some(st.errors), Some(tally.skipped));
  }

  /** The counts of a report: the files analysed are exactly the walked,
      name-qualified files of in-range size; when any exist, every other
      name-qualified file is counted skipped and the errors are the sizes
      and files that could not be read. */
  lemma ScanCounts(disk: Disk, directory: string, sha: seq<Byte> -> Digest)
    ensures var r := DuplicateScan(disk, directory, sha);
      var entries := ScannedFiles(disk, directory);
      && r.totalFiles == InRangeCount(disk, entries)
      && (r.errorFiles.None? <==> InRangeCount(disk, entries) == 0)
      && (r.skippedFiles.None? <==> InRangeCount(disk, entries) == 0)
      && (r.skippedFiles.Some? ==> r.skippedFiles.value == NamedCount(entries) - InRangeCount(disk, entries))
      && (r.errorFiles.Some? ==> r.errorFiles.value == FailureCount(disk, entries))
  {
    var entries := ScannedFiles(disk, directory);
    CountPassTotals(disk, Tally(0, 0), entries);
    HashPassCounts(disk, sha, InitialScan(), entries);
  }

  /** Every path of `paths` is stored under digest `d`. */
  predicate AllStored(disk: Disk, sha: seq<Byte> -> Digest, d: Digest, paths: seq<string>) {
    forall p :: p in paths ==> Stored(disk, sha, d, p)
  }

  /** The shape of `duplicate_groups`: each group holds at least two files of
      in-range size with one content digest, and is named after the base
      name of its first file. */
  ghost predicate WellFormedGroups(disk: Disk, sha: seq<Byte> -> Digest, groups: OrderedMap<string, seq<string>>) {
    && groups.Valid()
    && forall name :: name in groups.values ==>
      && |groups.values[name]| >= 2
      && name == Basename(groups.values[name][0])
      && exists d :: AllStored(disk, sha, d, groups.values[name])
  }

  /** Grouping a `file_hashes` whose every path is stored under its digest
      gives well-formed groups. */
  lemma GroupsWellFormed(disk: Disk, sha: seq<Byte> -> Digest, fileHashes: OrderedMap<Digest, seq<string>>)
    requires fileHashes.Valid()
    requires forall d, p :: d in fileHashes.values && p in fileHashes.values[d] ==> Stored(disk, sha, d, p)
    ensures WellFormedGroups(disk, sha, GroupKeys(fileHashes.values, fileHashes.keys).groups)
  {
    var values := fileHashes.values;
    var groups := GroupKeys(values, fileHashes.keys).groups;
    GroupKeysGroups(values, fileHashes.keys);
    forall name | name in groups.values
      ensures exists d :: AllStored(disk, sha, d, groups.values[name])
    {
      var k :| k in fileHashes.keys && values[k] == groups.values[name] && name == Basename(values[k][0]);
      assert AllStored(disk, sha, k, values[k]);
    }
  }

  lemma ScanTotalDuplicates(disk: Disk, directory: string, sha: seq<Byte> -> Digest)
    ensures DuplicateScan(disk, directory, sha).totalDuplicateFiles
      == TotalLengths(DuplicateScan(disk, directory, sha).duplicateGroups.values,
                      DuplicateScan(disk, directory, sha).duplicateGroups.keys)
  {
  }

  /** The report either is the early one, with no groups and no error
      counts, or holds the groups of what the hashing pass stores; in both
      cases `total_duplicate_files` is the sum of the group lengths. */
  lemma ScanShape(disk: Disk, directory: string, sha: seq<Byte> -> Digest)
    ensures var r := DuplicateScan(disk, directory, sha);
      r.totalDuplicateFiles == TotalLengths(r.duplicateGroups.values, r.duplicateGroups.keys)
    ensures var r := DuplicateScan(disk, directory, sha);
      var st := HashPass(disk, sha, InitialScan(), ScannedFiles(disk, directory));
      || (r.errorFiles.None? && r.duplicateGroups == EmptyOrderedMap())
      || r.duplicateGroups == GroupKeys(st.fileHashes.values, st.fileHashes.keys).groups
  {
  }

  /** The groups of a report are well formed, and hold at least two files
      each; every file of a group is a scanned, name-qualified file of
      in-range size. */
  lemma ScanGroups(disk: Disk, directory: string, sha: seq<Byte> -> Digest)
    ensures WellFormedGroups(disk, sha, DuplicateScan(disk, directory, sha).duplicateGroups)
    ensures DuplicateScan(disk, directory, sha).totalDuplicateFiles
      >= 2 * |DuplicateScan(disk, directory, sha).duplicateGroups.keys|
    ensures var groups := DuplicateScan(disk, directory, sha).duplicateGroups.values;
      forall name, p :: name in groups && p in groups[name] ==>
        exists e :: e in ScannedFiles(disk, directory) && InRange(disk, e) && e.path == p
  {
    var entries := ScannedFiles(disk, directory);
    var r := DuplicateScan(disk, directory, sha);
    var st := HashPass(disk, sha, InitialScan(), entries);
    ScanShape(disk, directory, sha);
    FileHashesSound(disk, sha, entries);
    GroupsWellFormed(disk, sha, st.fileHashes);
    LengthsAtLeastTwice(r.duplicateGroups.values, r.duplicateGroups.keys);
    GroupsWalked(disk, sha, entries, directory);
  }

  /** The files of every group of a report are files the hashing pass stored. */
  lemma GroupsWalked(disk: Disk, sha: seq<Byte> -> Digest, entries: seq<EntryRef>, directory: string)
    requires entries == ScannedFiles(disk, directory)
    ensures var groups := DuplicateScan(disk, directory, sha).duplicateGroups.values;
      forall name, p :: name in groups && p in groups[name] ==>
        exists e :: e in entries && InRange(disk, e) && e.path == p
  {
    var st := HashPass(disk, sha, InitialScan(), entries);
    var values := st.fileHashes.values;
    var groups := DuplicateScan(disk, directory, sha).duplicateGroups.values;
    ScanShape(disk, directory, sha);
    FileHashesSound(disk, sha, entries);
    assert values == FileHashes(disk, sha, entries);
    GroupKeysGroups(values, st.fileHashes.keys);
    forall name, p | name in groups && p in groups[name]
      ensures exists e :: e in entries && InRange(disk, e) && e.path == p
    {
      var k :| k in st.fileHashes.keys && values[k] == groups[name];
      assert k in values;
    }
  }

  /** A walked file the scan takes on is counted among the files to analyse. */
  lemma {:induction false} InRangeCounted(disk: Disk, entries: seq<EntryRef>, e: EntryRef)
    requires e in entries && InRange(disk, e)
    ensures InRangeCount(disk, entries) > 0
  {
    var front := entries[..|entries| - 1];
    if e != entries[|entries| - 1] {
      assert e in front by {
        assert entries == front + [entries[|entries| - 1]];
      }
      InRangeCounted(disk, front, e);
    }
  }

  /** Every digest the hashing pass stores with at least two files yields a
      group of the report, named after the base name of its first file; the
      early return only happens when nothing at all is stored. */
  lemma ScanGroupsComplete(disk: Disk, directory: string, sha: seq<Byte> -> Digest)
    ensures var hashes := FileHashes(disk, sha, ScannedFiles(disk, directory));
      forall d :: d in hashes && |hashes[d]| >= 2 ==>
        Basename(hashes[d][0]) in DuplicateScan(disk, directory, sha).duplicateGroups.values
    ensures FileHashes(disk, sha, ScannedFiles(disk, directory)) != map[] ==>
      DuplicateScan(disk, directory, sha).errorFiles.Some?
  {
    var entries := ScannedFiles(disk, directory);
    var st := HashPass(disk, sha, InitialScan(), entries);
    var hashes := st.fileHashes.values;
    FileHashesSound(disk, sha, entries);
    assert hashes == FileHashes(disk, sha, entries);
    if hashes != map[] {
      var d :| d in hashes;
      assert hashes[d][0] in hashes[d];
      var e :| e in entries && InRange(disk, e) && e.path == hashes[d][0];
      InRangeCounted(disk, entries, e);
      CountPassTotals(disk, Tally(0, 0), entries);
    }
    forall d | d in hashes && |hashes[d]| >= 2
      ensures Basename(hashes[d][0]) in DuplicateScan(disk, directory, sha).duplicateGroups.values
    {
      assert hashes == FileHashes(disk, sha, entries);
      assert hashes[d][0] in hashes[d];
      var e :| e in entries && InRange(disk, e) && e.path == hashes[d][0];
      InRangeCounted(disk, entries, e);
      CountPassTotals(disk, Tally(0, 0), entries);
      assert CountPass(disk, Tally(0, 0), entries).total > 0;
      assert DuplicateScan(disk, directory, sha).duplicateGroups == GroupKeys(hashes, st.fileHashes.keys).groups;
      assert d in ToSet(st.fileHashes.keys);
      GroupKeysComplete(hashes, st.fileHashes.keys);
    }
  }

  lemma {:induction false} LengthsAtLeastTwice(values: map<string, seq<string>>, names: seq<string>)
    requires forall n :: n in names ==> n in values && |values[n]| >= 2
    ensures TotalLengths(values, names) >= 2 * |names|
  {
    if names != [] {
      LengthsAtLeastTwice(values, names[..|names| - 1]);
    }
  }

  // ---------------------------------------------------------------------
  // Reclaimable space

  /** What one group adds to the reclaimable space: the size of its first
      file for each further copy; nothing when that size cannot be read. */
  function GroupWaste(disk: Disk, paths: seq<string>): nat {
    if paths == [] then 0
    else
      match GetSize(disk, paths[0])
      case Success(size) => size * (|paths| - 1)
      case Failure(_) => 0
  }

  function Reclaimable(disk: Disk, values: map<string, seq<string>>, names: seq<string>): nat
    requires forall n :: n in names ==> n in values
  {
    if names == [] then 0
    else Reclaimable(disk, values, names[..|names| - 1]) + GroupWaste(disk, values[names[|names| - 1]])
  }

  /** The reclaimable-space loop of the duplicate report display. */
  method ReclaimableSpace(disk: Disk, groups: OrderedMap<string, seq<string>>) returns (totalWastedSpace: nat)
    requires groups.Valid()
    ensures totalWastedSpace == Reclaimable(disk, groups.values, groups.keys)
  {
    totalWastedSpace := 0;
    var i := 0;
    while i < |groups.keys|
      invariant 0 <= i <= |groups.keys|
      invariant totalWastedSpace == Reclaimable(disk, groups.values, groups.keys[..i])
    {
      assert groups.keys[..i + 1][..i] == groups.keys[..i];
      var filePaths := groups.values[groups.keys[i]];
      if filePaths != [] {
        match GetSize(disk, filePaths[0]) {
          case Success(fileSize) =>
            totalWastedSpace := totalWastedSpace + fileSize * (|filePaths| - 1);
          case Failure(_) =>
        }
      }
      i := i + 1;
    }
    assert groups.keys[..i] == groups.keys;
  }

  /** When every group is non-empty and its first file has a size in the
      scanned range, the reclaimable space is between 1 KiB and 2 GiB per
      redundant copy. */
  lemma {:induction false} ReclaimableBounds(disk: Disk, values: map<string, seq<string>>, names: seq<string>)
    requires forall n :: n in names ==>
      && n in values && values[n] != []
      && GetSize(disk, values[n][0]).Success? && SizeQualifies(GetSize(disk, values[n][0]).value)
    ensures TotalLengths(values, names) >= |names|
    ensures MinSize * (TotalLengths(values, names) - |names|) <= Reclaimable(disk, values, names)
    ensures Reclaimable(disk, values, names) <= MaxSize * (TotalLengths(values, names) - |names|)
  {
    if names != [] {
      var front := names[..|names| - 1];
      var paths := values[names[|names| - 1]];
      ReclaimableBounds(disk, values, front);
      var size := GetSize(disk, paths[0]).value;
      var copies := |paths| - 1;
      MulMonotone(MinSize, size, copies);
      MulMonotone(size, MaxSize, copies);
      var before := TotalLengths(values, front) - |front|;
      assert MinSize * (before + copies) == MinSize * before + MinSize * copies;
      assert MaxSize * (before + copies) == MaxSize * before + MaxSize * copies;
    }
  }

  /** For well-formed groups, the space the display announces is between
      1 KiB and 2 GiB per redundant copy. */
  lemma GroupsReclaimable(disk: Disk, sha: seq<Byte> -> Digest, groups: OrderedMap<string, seq<string>>)
    requires WellFormedGroups(disk, sha, groups)
    ensures var copies := TotalLengths(groups.values, groups.keys) - |groups.keys|;
      var waste := Reclaimable(disk, groups.values, groups.keys);
      copies >= 0 && MinSize * copies <= waste <= MaxSize * copies
  {
    forall n | n in groups.keys
      ensures n in groups.values && groups.values[n] != []
      ensures GetSize(disk, groups.values[n][0]).Success?
      ensures SizeQualifies(GetSize(disk, groups.values[n][0]).value)
    {
      assert n in ToSet(groups.keys);
      var paths := groups.values[n];
      var d :| AllStored(disk, sha, d, paths);
      assert Stored(disk, sha, d, paths[0]);
    }
    ReclaimableBounds(disk, groups.values, groups.keys);
  }

  /** For a report produced by the scan, the space the display announces
      is between 1 KiB and 2 GiB per redundant copy. */
  lemma ScanReclaimable(disk: Disk, directory: string, sha: seq<Byte> -> Digest)
    ensures var r := DuplicateScan(disk, directory, sha);
      var waste := Reclaimable(disk, r.duplicateGroups.values, r.duplicateGroups.keys);
      var copies := r.totalDuplicateFiles - |r.duplicateGroups.keys|;
      copies >= 0 && MinSize * copies <= waste <= MaxSize * copies
  {
    var r := DuplicateScan(disk, directory, sha);
    var groups := r.duplicateGroups;
    ScanTotalDuplicates(disk, directory, sha);
    ScanGroups(disk, directory, sha);
    GroupsReclaimable(disk, sha, groups);

  }
}
