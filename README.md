# Archive comparator and duplicate finder: a Dafny model

This project models the core of the archive comparison tool in `main.py`:

- **Comparison.** `compare_archives_with_progress` compares an extracted archive with a reference directory. It finds:
  - missing, extra and common files;
  - missing and extra directories;
  - common files whose hashes differ.

  It also reports progress in batches.
- **Hashing.** `calculate_file_hash` hashes a file, and gives the sentinel `"ERROR_READING_FILE"` when the file cannot be read.
- **Tree listings.** `get_file_list` and `get_directory_list` turn an `os.walk` into the set of relative paths with forward slashes.
- **Duplicate scan.** `_scan_for_duplicates` has four parts:
  - a counting pass, with the name filter, the size filter and the pruned walk;
  - a hashing pass that builds `file_hashes`;
  - a grouping step that builds `duplicate_groups`;
  - the final counters.
- **Reclaimable space.** The sum over the duplicate groups.
- **Directory entries.** `_enhance_report_with_directories` adds directory entries to an imported report that lacks them. `_filter_parent_directories` reduces each side to its outermost folders.
- **Import.** The required-key check of `import_result`, with Python's meaning of `in` and `[]` on whatever JSON value was loaded.

The filesystem is data: a `Disk` holds three things:
- for each root path, the folder tree `os.walk` traverses from it;
- for each full path, what a read and `os.path.getsize` answer;
- `os.path.relpath`, as an oracle that may raise `ValueError`.

SHA-256 is a function parameter. Sets the source iterates over are visited in an arbitrary order, given as a parameter, or chosen with `:|`. Every result is proved for every such order.

Each loop of the source is a method with loop invariants. It is proved equal to a specification function, and the properties the program promises are proved as lemmas about those functions.

Modules, one per file:
- `Collections`: Option/Result, list-of-set, and Python's insertion-ordered dict.
- `Arith`: small multiplication and division facts.
- `Paths`: separator normalisation, `posixpath.join`, `basename`, `split('/')`/`'/'.join`, and the "below a folder" relation.
- `FileSystem`: the disk and `os.walk`, with the scan's directory pruning.
- `Hashing`: the hash strings.
- `Enumerate`: the two tree listings.
- `Compare`: the archive comparison.
- `Duplicates`: the duplicate scan and reclaimable space.
- `DirReport`: the directory entries.
- `ImportCheck`: the import validation.

## Model

| member | source | states |
|---|---|---|
| Hashing.CalculateFileHash | main.py:1658-1680 | The result is the sentinel `ERROR_READING_FILE` exactly when the file cannot be opened or read. It is never the `ERROR` marker. Otherwise it is the digest of the file's bytes. |
| Hashing.CalculateFileHashSafe | main.py:1393-1425 | The result is None exactly when the file is not readable. Otherwise it is the digest of its bytes. |
| Hashing.HashersAgree | main.py:1393-1425 | Within the model, the two hashers agree: the sentinel string where the safe one gives None, and the same digest otherwise. This holds only because both read the one readability oracle. In the source, the safe hasher also gives None when `os.access` refuses a file that `open` could read, or when reading raises `MemoryError`, which `calculate_file_hash` lets propagate. |
| Hashing.Hex | main.py:1680 | `hexdigest()` gives two characters per byte, each a lowercase hexadecimal digit. |
| Hashing.HashDependsOnContentOnly | main.py:1669-1680 | Two readable files with the same bytes get the same hash from both hashers. |
| Hashing.RenderInjective | main.py:1603 | Distinct hash values never render as the same string. Comparing the stored strings is therefore comparing values, and a digest never equals a sentinel. |
| Hashing.HexInjective | main.py:1680 | `hexdigest()` is injective on byte strings of equal length. |
| FileSystem.IsSkippedDirectory | main.py:1255 | The folders the scan does not enter: names starting with '.', and the four fixed system names. |
| FileSystem.DescendedNames | main.py:1255 | The pruned `dirs[:]` keeps only names that are not hidden and not system folders. Without pruning it is the list of every sub-folder name, in order. |
| FileSystem.DescendedNamesKept | main.py:1255 | The list comprehension keeps exactly the sub-folder names that pass the filter, in their original order: their positions are strictly increasing, and every passing position is among them. |
| FileSystem.WalkPruned | main.py:1254-1255 | The walk that prunes `dirs` in place equals the plain walk of the tree with every skipped folder removed at every depth. |
| FileSystem.PrunedHasNoSkipped | main.py:1255 | The pruned tree holds no skipped folder at any depth. |
| Paths.Normalize | main.py:1698 | `replace('\\', '/')` keeps the length, turns every backslash into '/', changes nothing else, and leaves no backslash. |
| Paths.LStripSeparators | main.py:1707 | `lstrip('\\/')` is the longest suffix that does not start with a separator. Everything it drops is a separator. |
| Paths.BasenameOfJoin | main.py:1359 | The base name of `os.path.join(root, name)` is `name`, for a name without '/'. |
| Paths.BasenameIsSuffix | main.py:1359 | `basename` is the part of the path after its last '/'. |
| Paths.JoinSplit | main.py:950-952 | `'/'.join(s.split('/')) == s`. |
| Paths.ComponentPrefix | main.py:950-952 | Every folder `'/'.join(parts[:i + 1])` derived from a path, followed by '/', is a prefix of that path. |
| Paths.UnderIsDeeper | main.py:983-990 | A folder that starts with `d + '/'` has more separators than `d`. |
| Paths.UnderTransitive | main.py:990 | "Lies below" is transitive. |
| Enumerate.RelativeEntry | main.py:1728-1745 | A recorded relative path has no backslash. The fallback applies only where `relpath` raises, and then the result does not start with '/'. No path is recorded only when `relpath` raises and the full path does not start with the directory. |
| Enumerate.AddRelative | main.py:1728-1745 | The `try`/`except ValueError` body for one walked entry adds exactly that entry's relative path, if it has one, to the set. The same body serves the directory listing at main.py:1695-1712. |
| Enumerate.AddEntries | main.py:1727-1745 | The inner loop over one walked folder's names adds exactly the relative paths of those entries. The directory listing's inner loop at main.py:1694-1712 is the same method. |
| Enumerate.RelativeSetSound | main.py:1726-1746 | Every recorded path has forward slashes only and comes from a walked entry. |
| Enumerate.RelativeSetComplete | main.py:1726-1746 | Every walked entry whose relative path can be computed is recorded. |
| Enumerate.GetFileList | main.py:1715-1746 | The nested walk loops return exactly the relative paths of all walked files, with no backslash. |
| Enumerate.GetDirectoryList | main.py:1682-1713 | The nested walk loops return exactly the relative paths of all walked sub-directories, with no backslash. |
| Compare.CheckCommonFile | main.py:1595-1624 | A common file is reported exactly when its two hash strings differ. A report carries both hashes and both sizes. When `getsize` raises on either side, it carries `ERROR` hashes, zero sizes and the error instead. The error is the reference side's when that side raises, and otherwise the extracted side's. |
| Compare.CheckFile | main.py:1595-1624 | The loop body for one common file computes exactly that outcome. |
| Compare.CollectListsFindings | main.py:1591-1624 | Visiting each common file once gives exactly one record per reported file and no other record, and each record is that file's outcome. |
| Compare.CommonSplits | main.py:1640 | `num_common` counts exactly the common files not reported, so it is never negative. |
| Compare.SelfComparisonFindsNothing | main.py:1595-1603 | Comparing a directory with itself reports no modified file. |
| Compare.BothUnreadableNotReported | main.py:1600-1603 | A file unreadable on both sides hashes to the same sentinel twice and is not reported. |
| Compare.OneSideUnreadableReported | main.py:1600-1603 | A file readable on one side only is reported. |
| Compare.SameContentNotReported | main.py:1600-1603 | Files with the same bytes are not reported. |
| Compare.BatchSize | main.py:1587-1589 | The batch size is at least 50 and at least 1% of the common files, and it is one of the two. |
| Compare.Percent | main.py:1593 | The shown percentage is at most 99, since it is computed before each file. |
| Compare.IntegrityMessagesShape | main.py:1591-1594 | Message `k` is emitted before file `k * batch_size` and shows position `k * batch_size + 1` and that file's percentage. These are all the multiples of the batch size below the count. |
| Compare.IntegrityMessageCount | main.py:1587-1594 | However many files there are, at most 102 per-file progress messages are emitted. |
| Compare.ReportBatch | main.py:1592-1594 | The callback before each file adds a message exactly at a batch boundary. |
| Compare.CheckIntegrity | main.py:1584-1624 | The integrity loop returns the records `Collect` gives and the progress messages `IntegrityMessages` gives. |
| Compare.CompareArchivesWithProgress | main.py:1547-1643 | The missing and extra files and directories are listings of the two set differences. Modified files are exactly the common files whose hashes differ. Each count is its list's length, and `num_common` is the number of unreported common files. Progress is the four phase messages, the batch messages and the final one. A directory compared with itself gives empty lists. |
| Duplicates.NameQualifies | main.py:1259 | The name filter of both passes: no leading '.', and no `.tmp`, `.temp` or `.log` ending in any letter case. |
| Duplicates.NameFilterIgnoresCase | main.py:1259 | A name passes the filter exactly when its lowercase form does. |
| Duplicates.NameFilterExamples | main.py:1259 | A hidden file, `Backup.LOG` and `x.Temp` are refused. `notes.tmp.txt` passes, because only the ending counts. |
| Duplicates.SizeQualifies | main.py:1264 | The size filter of both passes: from 1024 to 2 GiB, both included. |
| Duplicates.CountPassTotals | main.py:1253-1269 | The first pass counts every name-qualified file of in-range size as a file to analyse. Every other name-qualified file, including those whose size cannot be read, counts as skipped. |
| Duplicates.CountFiles | main.py:1257-1269 | The counting loop over one walked folder is the counting pass over its files. |
| Duplicates.HashPassCounts | main.py:1293-1345 | The second pass processes exactly the files the first pass counts. It counts an error for each unreadable size and each unreadable in-range file. |
| Duplicates.HashFiles | main.py:1293-1345 | The hashing loop over one walked folder is the hashing pass over its files. |
| Duplicates.HashPass | main.py:1303-1308 | `file_hashes` stays a well-formed insertion-ordered dict. |
| Duplicates.FileHashesSound | main.py:1303-1308 | No digest has an empty list. Every stored path is a walked, name-qualified, in-range, readable file whose bytes hash to the digest it is stored under. |
| Duplicates.FileHashesComplete | main.py:1303-1308 | Every walked, qualifying, readable file is stored under the digest of its bytes. |
| Duplicates.GroupKeysGroups | main.py:1353-1362 | Each group is the file list of one digest with at least two files, named after the base name of its first file. Each digest counts as unique or shared. There are at most as many groups as shared digests. |
| Duplicates.GroupKeysComplete | main.py:1356-1360 | Every digest with at least two files yields a group under the base name of its first file. |
| Duplicates.GroupKeysLastWins | main.py:1356-1360 | The files under a group name are those of the last digest, in `file_hashes` order, whose group has that name. |
| Duplicates.SameNameGroupsCollide | main.py:1359-1360 | Two shared digests whose first files have the same base name leave one group holding the later list. One set of duplicates then disappears from the report. |
| Duplicates.GroupDuplicates | main.py:1356-1362 | The grouping loop over `file_hashes.items()` computes `GroupKeys`, whose groups the lemmas above characterise. |
| Duplicates.SumGroupLengths | main.py:1374 | The loop computes `sum(len(group) for group in duplicate_groups.values())`. |
| Duplicates.ScanForDuplicates | main.py:1241-1377 | The scan returns the specified report. When no file qualifies, it returns the early report without error and skip counts. |
| Duplicates.ScanCounts | main.py:1245-1283 | `total_files` counts the in-range files, and the error and skip counts are present exactly when some file is in range. `skipped_files` counts the name-qualified files outside the size range. `error_files` counts unreadable sizes and contents. |
| Duplicates.ScanGroups | main.py:1353-1374 | Each reported group holds at least two files with identical digests, named after its first file. Every file of a group is a scanned file whose name passes the filter and whose size is in range. `total_duplicate_files` is at least twice the number of groups. |
| Duplicates.ScanGroupsComplete | main.py:1272-1360 | Every digest the hashing pass stores with at least two files yields a group of the report, under the base name of its first file. The early return only happens when nothing is stored. |
| Duplicates.ScannedFilesPruned | main.py:1252-1259 | Both passes visit exactly the files of the plain walk of the pruned tree, which holds no skipped folder. |
| Duplicates.ScanTotalDuplicates | main.py:1374 | `total_duplicate_files` is the sum of the group lengths. |
| Duplicates.LengthsAtLeastTwice | main.py:1357-1360 | Groups of at least two paths sum to at least twice their number. |
| Duplicates.ReclaimableSpace | main.py:1475-1484 | The loop sums the size of each group's first file times the number of extra copies, skipping groups whose size raises. |
| Duplicates.ReclaimableBounds | main.py:1476-1482 | When every first file has an in-range size, the sum lies between 1 KiB and 2 GiB times the number of extra copies. |
| Duplicates.ScanReclaimable | main.py:1476-1482 | For any scanned report, the reclaimable space lies between 1 KiB and 2 GiB per extra copy. |
| DirReport.DerivedDirsAreAncestors | main.py:948-952 | The folders derived from a file path are exactly the strings `d` for which the normalised path starts with `d + '/'`. |
| DirReport.AncestorDirsExact | main.py:947-959 | A folder is derived from a file list exactly when one of its files lies below it. |
| DirReport.CollectDirs | main.py:947-959 | The loops over one side's files collect exactly the derived folders. |
| DirReport.AddDerivedDirs | main.py:949-952 | The inner loop adds exactly one file's derived folders. |
| DirReport.ShallowestCovers | main.py:979-999 | The filter's result covers every input folder, which is kept or lies below a kept folder. No kept folder lies below another. |
| DirReport.SortByDepth | main.py:983 | The sort lists every folder once, in non-decreasing number of '/'. |
| DirReport.HasParentIn | main.py:986-992 | The inner loop finds a kept folder above the current one exactly when one exists. |
| DirReport.ShallowestExtend | main.py:986-997 | Visiting a folder at least as deep as all before it either drops it, when it lies below a kept folder, or adds it. Nothing kept is removed. |
| DirReport.FilterParentDirectories | main.py:979-999 | The result is exactly the input folders that lie below no other input folder: the outermost ones. |
| DirReport.EnhanceReport | main.py:939-977 | The returned dict holds only `missing_files`, `extra_files`, `num_missing` and `num_extra`, passed through, and the two directory lists. Each directory list is a listing of the outermost folders derived from its side and not from the other. |
| DirReport.SideDirsMeaning | main.py:961-968 | A reported missing folder has a missing file below it and no extra file below it, and every folder above it holds an extra file. The same holds for extra folders, with the sides swapped. |
| DirReport.SideDirsComplete | main.py:961-968 | Every folder with a file of one side below it and none of the other is reported, or lies below a reported folder. |
| DirReport.SidesDisjoint | main.py:961-964 | No folder is reported both missing and extra. |
| ImportCheck.PyIn | main.py:1158-1178 | `in` with a string key succeeds exactly on dicts, lists and strings, with key, element and substring meaning. Anything else raises TypeError. |
| ImportCheck.PyGetItem | main.py:1159 | Indexing by a string succeeds exactly on a dict holding the key. Otherwise it raises KeyError for a dict and TypeError for anything else. |
| ImportCheck.AllIn | main.py:1178 | `all(key in report ...)` with at least one key raises TypeError on a value that is not a dict, list or string. |
| ImportCheck.AllInContainer | main.py:1177-1178 | On a container, `all(key in report ...)` returns, and holds exactly when every required key is `in` it. |
| ImportCheck.ReadMetadata | main.py:1160-1169 | The four `in metadata` tests succeed on a dict, and raise TypeError on a value that is not a dict, list or string. |
| ImportCheck.ValidateImport | main.py:1156-1181 | An accepted report has every required key `in` it. |
| ImportCheck.BareReportImport | main.py:1170-1181 | A legacy report object without `results` is accepted unchanged exactly when it has the four required keys. Otherwise the import fails as malformed. |
| ImportCheck.WrappedLikeBare | main.py:1157-1181 | A report wrapped in a `results` block next to a metadata dict is accepted exactly as the bare report is. |
| ImportCheck.MetadataNumberRejected | main.py:1159-1163 | Metadata that is a number makes the import fail with TypeError. |
| ImportCheck.ScalarRejected | main.py:1158 | A document that is a number, boolean or null fails with TypeError. |
| ImportCheck.KeyNameListAccepted | main.py:1158-1178 | A JSON list of the four key names passes the check, because `in` on a list tests membership. |
| ImportCheck.ExportDocument | main.py:1114-1125 | The document `export_result` writes: a metadata block whose `total_differences` is the sum of the three counts, and the report under `results`. |
| ImportCheck.ExportedReportImports | main.py:1114-1125 | The document `export_result` writes for a comparison report imports back as the same report, and so does the bare report. |

## Left out

- The Tk window, dialogs, message boxes, log text and status bar are not modelled.
- Reading and writing JSON files is not modelled. The import is modelled from the loaded value onward, and the export only as the document it writes.
- The SHA-256 algorithm is a function parameter. The 8 KiB chunked reading is not modelled.
- `_calculate_file_hash` (main.py:1379) is not modelled because nothing calls it. `_get_display_path` and the size formatting are display code and are not modelled.
- The duplicate scan's progress bar, `update_idletasks`/`update`, `gc.collect`, and the capped error messages do not affect the report and are not modelled.
- `KeyboardInterrupt` is not modelled: the model cannot be interrupted.
- In the duplicate scan, the `except Exception` branch is not modelled, because in the model nothing other than `getsize` and reading can fail.
- The `os.access` and broken-link checks, and the `MemoryError` branch, of `_calculate_file_hash_safe` are folded into one readability oracle.
- The filesystem does not change during a run. A file whose size cannot be read is therefore skipped in the first pass and an error in the second, and files cannot appear or vanish between the passes.
- Symbolic links, Windows paths and drive letters are not modelled. Paths are POSIX (`os.sep` is '/'), and `os.path.relpath` is an oracle.
- The fallback to `os.path.basename` in the two listings is not modelled: it can only run if the line above it raises, which it cannot.
- Compare.Percent: the source computes `int((i / n) * 100)` in floating point. The model uses the exact floor `(i * 100) / n`, which can be one above the float result for some inputs.
- Duplicates.Lower: `str.lower()` is modelled for ASCII letters only.
- DirReport.EnhanceReport: the directory lists are listings of the sets, not `sorted()` lists in lexicographic order.
- The dict `_enhance_report_with_directories` returns drops `modified_files`, `num_modified`, `num_common` and any directory counts of the imported report. A legacy report's modified files therefore never reach the display (main.py:865-866, 909). The model returns the same six fields; the display itself is not modelled.
- JSON numbers keep only their integer part. The check only looks at the type of a value.
- After the check, showing an accepted report is display code. It can still fail on a report that passes the key check, such as the list of key names, and is not modelled.
- The existence checks on the two roots are made by the window before a comparison starts and are not modelled. A root that does not exist walks as empty.
- The docstring of `_filter_parent_directories` says parents are removed when their children are listed. The code does the opposite, keeping the outermost folders, and the model follows the code.
