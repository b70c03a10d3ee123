/** The archive comparison engine, `compare_archives_with_progress`: the
    file and directory sets of the reference tree and of the extracted
    archive are reconciled, every common file is hashed on both sides, and
    a report lists what is missing, extra and modified, while progress
    messages are emitted in batches. */
module Compare {
  import opened Collections
  import opened Paths
  import opened FileSystem
  import opened Hashing
  import opened Enumerate
  import opened Arith

  /** The progress messages, in the order they are emitted. */
  datatype Progress =
    | ScanningReference
    | ScanningExtracted
    | ComparingFileLists
    | CheckingIntegrity(common: nat)
    | CheckingFile(position: nat, total: nat, percent: nat)
    | GeneratingReport

  /** One entry of `modified_files`: both hashes and sizes, and the text of
      the `OSError` when the entry was made because `getsize` failed. */
  datatype ModifiedFile = ModifiedFile(
    file: string,
    hashRef: HashText,
    hashExt: HashText,
    sizeRef: nat,
    sizeExt: nat,
    error: Option<string>)

  datatype ComparisonReport = ComparisonReport(
    missingFiles: seq<string>,
    extraFiles: seq<string>,
    modifiedFiles: seq<ModifiedFile>,
    missingDirectories: seq<string>,
    extraDirectories: seq<string>,
    numMissing: nat,
    numExtra: nat,
    numModified: nat,
    numMissingDirs: nat,
    numExtraDirs: nat,
    numCommon: int)

  /** The files present in both trees. */
  function CommonFiles(disk: Disk, extractedPath: string, referencePath: string): set<string> {
    FileList(disk, referencePath) * FileList(disk, extractedPath)
  }

  /** The outcome of the integrity check of one common file: nothing when
      both hash strings agree (both unreadable included); otherwise a record
      with both hashes and both sizes, or, when `getsize` raises on either
      side, a record with `'ERROR'` hashes, zero sizes and the first error. */
  function CheckCommonFile(disk: Disk, referencePath: string, extractedPath: string,
                           path: string, sha: seq<Byte> -> Digest): (r: Option<ModifiedFile>)
    ensures r.Some? ==> r.value.file == path
    ensures r.None? <==>
      CalculateFileHash(disk, PathJoin(referencePath, path), sha)
        == CalculateFileHash(disk, PathJoin(extractedPath, path), sha)
    ensures r.Some? && r.value.error.None? ==>
      && GetSize(disk, PathJoin(referencePath, path)) == Success(r.value.sizeRef)
      && GetSize(disk, PathJoin(extractedPath, path)) == Success(r.value.sizeExt)
      && r.value.hashRef == CalculateFileHash(disk, PathJoin(referencePath, path), sha)
      && r.value.hashExt == CalculateFileHash(disk, PathJoin(extractedPath, path), sha)
    ensures r.Some? && r.value.error.Some? ==>
      && r.value.hashRef == ErrorMarker && r.value.hashExt == ErrorMarker
      && r.value.sizeRef == 0 && r.value.sizeExt == 0
      && (GetSize(disk, PathJoin(referencePath, path)).Failure?
          || GetSize(disk, PathJoin(extractedPath, path)).Failure?)
    ensures r.Some? && GetSize(disk, PathJoin(referencePath, path)).Failure? ==>
      r.value.error == Some(GetSize(disk, PathJoin(referencePath, path)).error)
    ensures (r.Some? && GetSize(disk, PathJoin(referencePath, path)).Success?
             && GetSize(disk, PathJoin(extractedPath, path)).Failure?) ==>
      r.value.error == Some(GetSize(disk, PathJoin(extractedPath, path)).error)
  {
    var refFilePath := PathJoin(referencePath, path);
    var extFilePath := PathJoin(extractedPath, path);
    var refHash := CalculateFileHash(disk, refFilePath, sha);
    var extHash := CalculateFileHash(disk, extFilePath, sha);
    if refHash == extHash then None
    else
      match GetSize(disk, refFilePath)
      case Failure(e) => Some(ModifiedFile(path, ErrorMarker, ErrorMarker, 0, 0, Some(e)))
      case Success(refSize) =>
        match GetSize(disk, extFilePath)
        case Failure(e) => Some(ModifiedFile(path, ErrorMarker, ErrorMarker, 0, 0, Some(e)))
        case Success(extSize) => Some(ModifiedFile(path, refHash, extHash, refSize, extSize, None))
  }

  /** The integrity check of every common file, as a function of its path. */
  function Checker(disk: Disk, referencePath: string, extractedPath: string,
                   sha: seq<Byte> -> Digest): (check: string -> Option<ModifiedFile>)
    ensures forall p :: check(p) == CheckCommonFile(disk, referencePath, extractedPath, p, sha)
  {
    p => CheckCommonFile(disk, referencePath, extractedPath, p, sha)
  }

  /** A check whose records carry the path they were made for. */
  ghost predicate KeepsPath(check: string -> Option<ModifiedFile>) {
    forall p :: check(p).Some? ==> check(p).value.file == p
  }

  /** The records the integrity loop appends, visiting `order`. */
  function Collect(check: string -> Option<ModifiedFile>, order: seq<string>): seq<ModifiedFile> {
    if order == [] then []
    else
      Collect(check, order[..|order| - 1])
        + match check(order[|order| - 1])
          case Some(m) => [m]
          case None => []
  }

  /** The `file` fields of a list of records. */
  function Files(records: seq<ModifiedFile>): (files: seq<string>)
    ensures |files| == |records|
    ensures forall k :: 0 <= k < |records| ==> files[k] == records[k].file
  {
    if records == [] then [] else Files(records[..|records| - 1]) + [records[|records| - 1].file]
  }

  /** The files among `common` that the check reports. */
  function Flagged(check: string -> Option<ModifiedFile>, common: set<string>): set<string> {
    set p | p in common && check(p).Some?
  }

  /** The files among `common` that the check finds identical. */
  function Unflagged(check: string -> Option<ModifiedFile>, common: set<string>): set<string> {
    set p | p in common && check(p).None?
  }

  /** `records` lists the findings for `common`: one record per reported
      file, none for any other, each the check's own outcome. */
  predicate ListsFindings(check: string -> Option<ModifiedFile>, common: set<string>, records: seq<ModifiedFile>) {
    && Lists(Files(records), Flagged(check, common))
    && forall m :: m in records ==> check(m.file) == Some(m)
  }

  /** One more visited file appends its record, if any. */
  lemma CollectStep(check: string -> Option<ModifiedFile>, order: seq<string>, i: nat)
    requires i < |order|
    ensures Collect(check, order[..i + 1])
      == Collect(check, order[..i]) + match check(order[i]) case Some(m) => [m] case None => []
  {
    assert order[..i + 1][..i] == order[..i];
  }

  lemma FilesStep(records: seq<ModifiedFile>, m: ModifiedFile)
    ensures Files(records + [m]) == Files(records) + [m.file]
  {
    assert (records + [m])[..|records + [m]| - 1] == records;
  }

  /** Visiting each common file once yields exactly one record per reported
      file and no other record. */
  lemma {:induction false} CollectListsFindings(check: string -> Option<ModifiedFile>, order: seq<string>)
    requires KeepsPath(check) && Distinct(order)
    ensures ListsFindings(check, ToSet(order), Collect(check, order))
  {
    if order != [] {
      var front := order[..|order| - 1];
      var last := order[|order| - 1];
      assert Distinct(front);
      CollectListsFindings(check, front);
      var before := Collect(check, front);
      assert ToSet(order) == ToSet(front) + {last};
      assert last !in ToSet(front);
      match check(last)
      case Some(m) =>
        FilesStep(before, m);
        assert Flagged(check, ToSet(order)) == Flagged(check, ToSet(front)) + {last};
        assert ToSet(Files(before) + [last]) == ToSet(Files(before)) + {last};
      case None =>
        assert before + [] == before;
        assert Flagged(check, ToSet(order)) == Flagged(check, ToSet(front));
    }
  }

  /** Every common file is either reported or counted as identical, never
      both, so the identical count is what remains of the common files. */
  lemma CommonSplits(check: string -> Option<ModifiedFile>, common: set<string>, records: seq<ModifiedFile>)
    requires ListsFindings(check, common, records)
    ensures |Unflagged(check, common)| == |common| - |records|
    ensures |records| <= |common|
  {
    DistinctCardinality(Files(records));
    assert common == Flagged(check, common) + Unflagged(check, common);
    assert Flagged(check, common) !! Unflagged(check, common);
  }

  /** When the archive is compared with itself every file hashes alike on
      both sides, so nothing is reported. */
  lemma SelfComparisonFindsNothing(disk: Disk, root: string, common: set<string>,
                                   sha: seq<Byte> -> Digest, records: seq<ModifiedFile>)
    requires ListsFindings(Checker(disk, root, root, sha), common, records)
    ensures records == []
  {
    assert Flagged(Checker(disk, root, root, sha), common) == {};
    EmptyListing(Files(records));
  }

  lemma EmptyListing<T>(s: seq<T>)
    requires Lists(s, {})
    ensures s == []
  {
    DistinctCardinality(s);
  }

  /** A file unreadable in both trees is never reported: both sides carry
      the same sentinel. */
  lemma BothUnreadableNotReported(disk: Disk, referencePath: string, extractedPath: string,
                                  path: string, sha: seq<Byte> -> Digest)
    requires !Readable(disk, PathJoin(referencePath, path))
    requires !Readable(disk, PathJoin(extractedPath, path))
    ensures CheckCommonFile(disk, referencePath, extractedPath, path, sha).None?
  {
  }

  /** A file readable on exactly one side is always reported. */
  lemma OneSideUnreadableReported(disk: Disk, referencePath: string, extractedPath: string,
                                  path: string, sha: seq<Byte> -> Digest)
    requires Readable(disk, PathJoin(referencePath, path)) != Readable(disk, PathJoin(extractedPath, path))
    ensures CheckCommonFile(disk, referencePath, extractedPath, path, sha).Some?
  {
  }

  /** Identical bytes on both sides are never reported. */
  lemma SameContentNotReported(disk: Disk, referencePath: string, extractedPath: string,
                               path: string, sha: seq<Byte> -> Digest)
    requires Readable(disk, PathJoin(referencePath, path)) && Readable(disk, PathJoin(extractedPath, path))
    requires disk.entries[PathJoin(referencePath, path)].content
          == disk.entries[PathJoin(extractedPath, path)].content
    ensures CheckCommonFile(disk, referencePath, extractedPath, path, sha).None?
  {
    HashDependsOnContentOnly(disk, PathJoin(referencePath, path), PathJoin(extractedPath, path), sha);
  }

  /** How many files pass between two progress messages: one percent of the
      common files, but never fewer than 50. */
  function BatchSize(n: nat): (b: nat)
    ensures b >= 50
    ensures b >= n / 100
    ensures b == 50 || b == n / 100
  {
    var b := if 1 < n / 100 then n / 100 else 1;
    if b < 50 then 50 else b
  }

  /** The percentage shown before the file at index `i` of `n` is checked. */
  function Percent(i: nat, n: nat): (p: nat)
    requires i < n
    ensures p <= 99
  {
    DivBelow(i * 100, n, 100);
    (i * 100) / n
  }

  /** The messages emitted while the first `i` common files are checked. */
  function IntegrityMessages(n: nat, b: nat, i: nat): seq<Progress>
    requires b >= 1 && i <= n
  {
    if i == 0 then []
    else
      IntegrityMessages(n, b, i - 1)
        + if (i - 1) % b == 0 then [CheckingFile(i, n, Percent(i - 1, n))] else []
  }

  /** Everything `compare_archives_with_progress` reports through its
      callback, for `n` common files. */
  function ComparisonProgress(n: nat): seq<Progress> {
    [ScanningReference, ScanningExtracted, ComparingFileLists, CheckingIntegrity(n)]
      + IntegrityMessages(n, BatchSize(n), n)
      + [GeneratingReport]
  }

  lemma IntegrityMessagesStep(n: nat, b: nat, i: nat)
    requires b >= 1 && i < n
    ensures IntegrityMessages(n, b, i + 1)
      == IntegrityMessages(n, b, i) + if i % b == 0 then [CheckingFile(i + 1, n, Percent(i, n))] else []
  {
  }

  /** With `c` multiples of `b` below `j`, `j` itself is a multiple only
      when it is the next one, `c * b`. */
  lemma NextMultiple(j: nat, b: nat, c: nat)
    requires b >= 1 && c * b >= j && (c == 0 || (c - 1) * b < j)
    ensures j % b == 0 <==> c * b == j
  {
    if j % b == 0 {
      var m := j / b;
      assert j == m * b;
      if c > 0 {
        MulCancel(c - 1, m, b);
      }
      if c < m {
        assert (c + 1) * b == c * b + b;
        MulMonotone(c + 1, m, b);
        assert false;
      }
    } else if c * b == j {
      DivFromParts(j, b, c, 0);
      assert false;
    }
  }

  /** A message is emitted for each index that is a multiple of the batch
      size, the first one for index 0: message `k` announces file
      `k * b + 1` at `Percent(k * b, n)`, and after `i` files there are as
      many messages as multiples of `b` below `i`. */
  lemma {:induction false} IntegrityMessagesShape(n: nat, b: nat, i: nat)
    requires b >= 1 && i <= n
    ensures |IntegrityMessages(n, b, i)| * b >= i
    ensures |IntegrityMessages(n, b, i)| == 0 || (|IntegrityMessages(n, b, i)| - 1) * b < i
    ensures forall k :: 0 <= k < |IntegrityMessages(n, b, i)| ==>
      k * b < i && IntegrityMessages(n, b, i)[k] == CheckingFile(k * b + 1, n, Percent(k * b, n))
  {
    if i > 0 {
      var j := i - 1;
      IntegrityMessagesShape(n, b, j);
      IntegrityMessagesStep(n, b, j);
      var c := |IntegrityMessages(n, b, j)|;
      NextMultiple(j, b, c);
      assert (c + 1) * b == c * b + b;
    }
  }

  /** Progress stays cheap on any tree: at most 102 per-file messages. */
  lemma IntegrityMessageCount(n: nat)
    ensures |IntegrityMessages(n, BatchSize(n), n)| <= 102
  {
    var b := BatchSize(n);
    var c := |IntegrityMessages(n, b, n)|;
    IntegrityMessagesShape(n, b, n);
    if c > 0 {
      assert (c - 1) * b < n;
      if b == 50 && n / 100 < 50 {
        assert n < 5000;
      } else {
        assert b == n / 100 && b >= 50;
        assert n < 100 * b + 100;
      }
      assert n <= 102 * b;
      MulCancel(c - 1, 102, b);
    }
  }

  /** The progress callback before the file at index `i`: a message at
      every multiple of the batch size. */
  method ReportBatch(n: nat, batchSize: nat, i: nat, messages: seq<Progress>) returns (r: seq<Progress>)
    requires batchSize >= 1 && i < n
    requires messages == IntegrityMessages(n, batchSize, i)
    ensures r == IntegrityMessages(n, batchSize, i + 1)
  {
    IntegrityMessagesStep(n, batchSize, i);
    r := messages;
    if i % batchSize == 0 {
      var percent := Percent(i, n);
      r := r + [CheckingFile(i + 1, n, percent)];
    }
  }

  /** The body of the integrity loop for one common file: both hashes,
      and both sizes when the hashes differ. */
  method CheckFile(disk: Disk, referencePath: string, extractedPath: string, filePath: string,
                   sha: seq<Byte> -> Digest)
    returns (found: Option<ModifiedFile>)
    ensures found == CheckCommonFile(disk, referencePath, extractedPath, filePath, sha)
  {
    var refFilePath := PathJoin(referencePath, filePath);
    var extFilePath := PathJoin(extractedPath, filePath);
    var refHash := CalculateFileHash(disk, refFilePath, sha);
    var extHash := CalculateFileHash(disk, extFilePath, sha);
    if refHash == extHash {
      return None;
    }
    var refSize := GetSize(disk, refFilePath);
    if refSize.Failure? {
      return Some(ModifiedFile(filePath, ErrorMarker, ErrorMarker, 0, 0, Some(refSize.error)));
    }
    var extSize := GetSize(disk, extFilePath);
    if extSize.Failure? {
      return Some(ModifiedFile(filePath, ErrorMarker, ErrorMarker, 0, 0, Some(extSize.error)));
    }
    found := Some(ModifiedFile(filePath, refHash, extHash, refSize.value, extSize.value, None));
  }

  /** The integrity loop of `compare_archives_with_progress` over the common
      files in set-iteration order `order`: a progress message at every
      batch boundary, and a record for each file the check reports. */
  method CheckIntegrity(disk: Disk, referencePath: string, extractedPath: string,
                        order: seq<string>, sha: seq<Byte> -> Digest)
    returns (modifiedFiles: seq<ModifiedFile>, messages: seq<Progress>)
    ensures modifiedFiles == Collect(Checker(disk, referencePath, extractedPath, sha), order)
    ensures messages == IntegrityMessages(|order|, BatchSize(|order|), |order|)
  {
    ghost var check := Checker(disk, referencePath, extractedPath, sha);
    var n := |order|;
    var batchSize := BatchSize(n);
    modifiedFiles := [];
    messages := [];
    var i := 0;
    while i < n
      invariant 0 <= i <= n
      invariant modifiedFiles == Collect(check, order[..i])
      invariant messages == IntegrityMessages(n, batchSize, i)
    {
      messages := ReportBatch(n, batchSize, i, messages);
      var filePath := order[i];
      CollectStep(check, order, i);
      var found := CheckFile(disk, referencePath, extractedPath, filePath, sha);
      if found.Some? {
        modifiedFiles := modifiedFiles + [found.value];
      }
      i := i + 1;
    }
    assert order[..i] == order;
  }

  /** `compare_archives_with_progress(extracted_path, reference_path)`:
      `progress` is everything passed to the callback. */
  method CompareArchivesWithProgress(disk: Disk, extractedPath: string, referencePath: string,
                                     sha: seq<Byte> -> Digest)
    returns (report: ComparisonReport, progress: seq<Progress>)
    ensures Lists(report.missingFiles, FileList(disk, referencePath) - FileList(disk, extractedPath))
    ensures Lists(report.extraFiles, FileList(disk, extractedPath) - FileList(disk, referencePath))
    ensures Lists(report.missingDirectories, DirectoryList(disk, referencePath) - DirectoryList(disk, extractedPath))
    ensures Lists(report.extraDirectories, DirectoryList(disk, extractedPath) - DirectoryList(disk, referencePath))
    ensures ListsFindings(Checker(disk, referencePath, extractedPath, sha),
                          CommonFiles(disk, extractedPath, referencePath), report.modifiedFiles)
    ensures report.numMissing == |report.missingFiles| && report.numExtra == |report.extraFiles|
    ensures report.numModified == |report.modifiedFiles|
    ensures report.numMissingDirs == |report.missingDirectories|
    ensures report.numExtraDirs == |report.extraDirectories|
    ensures report.numCommon
      == |Unflagged(Checker(disk, referencePath, extractedPath, sha), CommonFiles(disk, extractedPath, referencePath))|
    ensures 0 <= report.numCommon <= |CommonFiles(disk, extractedPath, referencePath)|
    ensures progress == ComparisonProgress(|CommonFiles(disk, extractedPath, referencePath)|)
    ensures extractedPath == referencePath ==>
      report.missingFiles == [] && report.extraFiles == [] && report.modifiedFiles == []
      && report.missingDirectories == [] && report.extraDirectories == []
  {
    progress := [ScanningReference];
    var referenceFiles := GetFileList(disk, referencePath);
    var referenceDirs := GetDirectoryList(disk, referencePath);

    progress := progress + [ScanningExtracted];
    var extractedFiles := GetFileList(disk, extractedPath);
    var extractedDirs := GetDirectoryList(disk, extractedPath);

    progress := progress + [ComparingFileLists];
    var missingFiles := referenceFiles - extractedFiles;
    var extraFiles := extractedFiles - referenceFiles;
    var commonFiles := referenceFiles * extractedFiles;
    var missingDirs := referenceDirs - extractedDirs;
    var extraDirs := extractedDirs - referenceDirs;

    progress := progress + [CheckingIntegrity(|commonFiles|)];
    assert progress == [ScanningReference, ScanningExtracted, ComparingFileLists, CheckingIntegrity(|commonFiles|)];
    var order := ListFromSet(commonFiles);
    var modifiedFiles, messages := CheckIntegrity(disk, referencePath, extractedPath, order, sha);
    progress := progress + messages + [GeneratingReport];

    var missingList := ListFromSet(missingFiles);
    var extraList := ListFromSet(extraFiles);
    var missingDirList := ListFromSet(missingDirs);
    var extraDirList := ListFromSet(extraDirs);
    report := ComparisonReport(
      missingList, extraList, modifiedFiles, missingDirList, extraDirList,
      |missingList|, |extraList|, |modifiedFiles|, |missingDirList|, |extraDirList|,
      |commonFiles| - |modifiedFiles|);

    assert commonFiles == CommonFiles(disk, extractedPath, referencePath);
    ghost var check := Checker(disk, referencePath, extractedPath, sha);
    CollectListsFindings(check, order);
    CommonSplits(check, commonFiles, modifiedFiles);
    if extractedPath == referencePath {
      SelfComparisonFindsNothing(disk, referencePath, commonFiles, sha, modifiedFiles);
      EmptyListing(missingList);
      EmptyListing(extraList);
      EmptyListing(missingDirList);
      EmptyListing(extraDirList);
    }
  }
}
