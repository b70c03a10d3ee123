/** Importing a saved comparison: the JSON document is unwrapped from its
    `results` block when it has one, its metadata is read for the log, and
    the report is accepted when the four required keys are `in` it, with
    Python's meaning of `in` and `[]` for whatever JSON value was loaded. */
module ImportCheck {
  import opened Collections
  import opened Hashing
  import opened Compare

  /** A value as `json.load` returns it (numbers keep only their integer
      part here; the check never looks at them). */
  datatype Json =
    | JNull
    | JBool(b: bool)
    | JNumber(n: int)
    | JString(s: string)
    | JArray(items: seq<Json>)
    | JObject(members: seq<(string, Json)>)

  /** The exceptions the import can raise before a report is accepted. */
  datatype ImportError =
    | TypeError        // `in` or `[]` on a value that does not support it
    | KeyError         // `d[k]` with `k` not in the dict
    | MissingFields    // "Format de fichier invalide - champs requis manquants"

  /** A JSON object read into a dict has key `key`. */
  function HasKey(members: seq<(string, Json)>, key: string): (r: bool)
    ensures r <==> exists i :: 0 <= i < |members| && members[i].0 == key
  {
    if members == [] then false
    else members[|members| - 1].0 == key || HasKey(members[..|members| - 1], key)
  }

  /** `d[key]`: with duplicate keys in the document, the last one wins. */
  function Lookup(members: seq<(string, Json)>, key: string): (v: Json)
    requires HasKey(members, key)
    ensures exists i :: 0 <= i < |members| && members[i] == (key, v)
  {
    if members[|members| - 1].0 == key then members[|members| - 1].1
    else
      var v := Lookup(members[..|members| - 1], key);
      var i :| 0 <= i < |members| - 1 && members[..|members| - 1][i] == (key, v);
      assert members[i] == (key, v);
      v
  }

  /** `key` occurs in `s` as a contiguous piece: it starts `s` or occurs
      in what follows the first character. */
  predicate IsSubstring(key: string, s: string) {
    key <= s || (s != [] && IsSubstring(key, s[1..]))
  }

  /** `key in v` for a string `key`: a dict key, a list element equal to
      the string, a substring; a TypeError for numbers, booleans and null. */
  function PyIn(key: string, v: Json): (r: Result<bool, ImportError>)
    ensures r.Success? <==> v.JObject? || v.JArray? || v.JString?
    ensures r.Failure? ==> r.error == TypeError
  {
    match v
    case JObject(members) => Success(HasKey(members, key))
    case JArray(items) => Success(JString(key) in items)
    case JString(s) => Success(IsSubstring(key, s))
    case _ => Failure(TypeError)
  }

  /** `v[key]` for a string `key`: only a dict can be indexed by a string. */
  function PyGetItem(v: Json, key: string): (r: Result<Json, ImportError>)
    ensures r.Success? <==> v.JObject? && HasKey(v.members, key)
    ensures r.Failure? ==> r.error == (if v.JObject? then KeyError else TypeError)
  {
    if !v.JObject? then Failure(TypeError)
    else if HasKey(v.members, key) then Success(Lookup(v.members, key))
    else Failure(KeyError)
  }

  /** `d.get(key, default)` on a dict. */
  function Get(members: seq<(string, Json)>, key: string, default: Json): Json {
    if HasKey(members, key) then Lookup(members, key) else default
  }

  const RequiredKeys: seq<string> := ["missing_files", "extra_files", "num_missing", "num_extra"]

  const MetadataKeys: seq<string> := ["timestamp", "reference_path", "extracted_path", "total_differences"]

  /** `all(key in report for key in keys)`: stops at the first key that is
      not in `report`, and raises if `in` does. */
  function AllIn(keys: seq<string>, report: Json): (r: Result<bool, ImportError>)
    ensures keys != [] && !(report.JObject? || report.JArray? || report.JString?) ==> r == Failure(TypeError)
  {
    if keys == [] then Success(true)
    else
      match PyIn(keys[0], report)
      case Failure(e) => Failure(e)
      case Success(found) => if found then AllIn(keys[1..], report) else Success(false)
  }

  /** For a container, `all` holds exactly when every key is `in` it. */
  lemma {:induction false} AllInContainer(keys: seq<string>, report: Json)
    requires report.JObject? || report.JArray? || report.JString?
    ensures AllIn(keys, report).Success?
    ensures AllIn(keys, report).value <==> forall k :: k in keys ==> PyIn(k, report) == Success(true)
  {
    if keys != [] {
      AllInContainer(keys[1..], report);
      assert forall k :: k in keys ==> k == keys[0] || k in keys[1..];
    }
  }

  /** The metadata lines of the log: each key is tested with `in` and, when
      present, read with `[]`. */
  function ReadMetadata(metadata: Json, keys: seq<string>): (r: Result<(), ImportError>)
    ensures metadata.JObject? ==> r.Success?
    ensures keys != [] && !(metadata.JObject? || metadata.JArray? || metadata.JString?) ==> r == Failure(TypeError)
  {
    if keys == [] then Success(())
    else
      match PyIn(keys[0], metadata)
      case Failure(e) => Failure(e)
      case Success(found) =>
        if found && PyGetItem(metadata, keys[0]).Failure? then Failure(PyGetItem(metadata, keys[0]).error)
        else ReadMetadata(metadata, keys[1..])
  }

  /** The required-key check on the (unwrapped) report. */
  function CheckRequired(report: Json): (r: Result<Json, ImportError>)
    ensures r.Success? ==> r.value == report
  {
    match AllIn(RequiredKeys, report)
    case Failure(e) => Failure(e)
    case Success(ok) => if ok then Success(report) else Failure(MissingFields)
  }

  /** The body of `import_result` after `json.load`: the accepted report,
      or the exception that ends the import. */
  function ValidateImport(data: Json): (r: Result<Json, ImportError>)
    ensures r.Success? ==> forall k :: k in RequiredKeys ==> PyIn(k, r.value) == Success(true)
  {
    match PyIn("results", data)
    case Failure(e) => Failure(e)
    case Success(wrapped) =>
      if wrapped then
        match PyGetItem(data, "results")
        case Failure(e) => Failure(e)
        case Success(report) =>
          var metadata := Get(data.members, "metadata", JObject([]));
          match ReadMetadata(metadata, MetadataKeys)
          case Failure(e) => Failure(e)
          case Success(_) => AcceptedHasKeys(report); CheckRequired(report)
      else
        AcceptedHasKeys(data); CheckRequired(data)
  }

  /** A report that passes the check has every required key `in` it. */
  lemma AcceptedHasKeys(report: Json)
    ensures CheckRequired(report).Success? ==> forall k :: k in RequiredKeys ==> PyIn(k, report) == Success(true)
  {
    if CheckRequired(report).Success? {
      AllInContainer(RequiredKeys, report);
    }
  }

  /** A bare (legacy) report object is accepted exactly when it has the
      four required keys, and rejected as malformed otherwise. */
  lemma BareReportImport(members: seq<(string, Json)>)
    requires !HasKey(members, "results")
    ensures var r := ValidateImport(JObject(members));
      && (r.Success? <==> forall k :: k in RequiredKeys ==> HasKey(members, k))
      && (r.Success? ==> r.value == JObject(members))
      && (r.Failure? ==> r.error == MissingFields)
  {
    AllInContainer(RequiredKeys, JObject(members));
  }

  /** Wrapping a report in a `results` block next to a metadata dict does
      not change whether it is accepted. */
  lemma WrappedLikeBare(report: seq<(string, Json)>, metadata: seq<(string, Json)>)
    requires !HasKey(report, "results")
    ensures ValidateImport(JObject([("metadata", JObject(metadata)), ("results", JObject(report))]))
      == ValidateImport(JObject(report))
  {
    var doc := [("metadata", JObject(metadata)), ("results", JObject(report))];
    assert HasKey(doc, "results");
    assert Lookup(doc, "results") == JObject(report);
    assert doc[..1] == [("metadata", JObject(metadata))];
    assert HasKey(doc[..1], "metadata");
    assert Get(doc, "metadata", JObject([])) == JObject(metadata);
  }

  /** Metadata that is not a dict, list or string makes the import fail with
      a TypeError before the report is looked at. */
  lemma MetadataNumberRejected(report: Json, n: int)
    ensures ValidateImport(JObject([("metadata", JNumber(n)), ("results", report)])) == Failure(TypeError)
  {
    var doc := [("metadata", JNumber(n)), ("results", report)];
    assert HasKey(doc, "results");
    assert doc[..1] == [("metadata", JNumber(n))];
    assert HasKey(doc[..1], "metadata");
    assert Get(doc, "metadata", JObject([])) == JNumber(n);
  }

  /** A document that is a number, a boolean or null is rejected with a
      TypeError. */
  lemma ScalarRejected(data: Json)
    requires data.JNull? || data.JBool? || data.JNumber?
    ensures ValidateImport(data) == Failure(TypeError)
  {
  }

  /** A JSON list holding the four key names passes the check, because `in`
      on a list tests membership. */
  lemma KeyNameListAccepted()
    ensures var data := JArray([JString("missing_files"), JString("extra_files"),
                                JString("num_missing"), JString("num_extra")]);
      ValidateImport(data) == Success(data)
  {
    var data := JArray([JString("missing_files"), JString("extra_files"),
                        JString("num_missing"), JString("num_extra")]);
    assert JString("results") !in data.items;
    AllInContainer(RequiredKeys, data);
  }

  // ---------------------------------------------------------------------
  // The exported document

  function Strings(s: seq<string>): (r: seq<Json>)
    ensures |r| == |s| && forall i :: 0 <= i < |s| ==> r[i] == JString(s[i])
  {
    seq(|s|, i requires 0 <= i < |s| => JString(s[i]))
  }

  /** One entry of `modified_files` as `json.dump` writes it. */
  function ModifiedJson(m: ModifiedFile): Json {
    var sizes := [("hash_ref", JString(Render(m.hashRef))), ("hash_ext", JString(Render(m.hashExt))),
                  ("size_ref", JNumber(m.sizeRef)), ("size_ext", JNumber(m.sizeExt))];
    match m.error
    case None => JObject([("file", JString(m.file))] + sizes)
    case Some(e) => JObject([("file", JString(m.file)), ("error", JString(e))] + sizes)
  }

  /** The report dict of `compare_archives_with_progress` as `json.dump`
      writes it. */
  function ReportJson(report: ComparisonReport): Json {
    JObject([
      ("missing_files", JArray(Strings(report.missingFiles))),
      ("extra_files", JArray(Strings(report.extraFiles))),
      ("modified_files", JArray(seq(|report.modifiedFiles|, i requires 0 <= i < |report.modifiedFiles| =>
                                      ModifiedJson(report.modifiedFiles[i])))),
      ("missing_directories", JArray(Strings(report.missingDirectories))),
      ("extra_directories", JArray(Strings(report.extraDirectories))),
      ("num_missing", JNumber(report.numMissing)),
      ("num_extra", JNumber(report.numExtra)),
      ("num_modified", JNumber(report.numModified)),
      ("num_missing_dirs", JNumber(report.numMissingDirs)),
      ("num_extra_dirs", JNumber(report.numExtraDirs)),
      ("num_common", JNumber(report.numCommon))])
  }

  /** `export_data` of `export_result` for a comparison report; the
      timestamp and both paths come from the clock and the window. */
  function ExportDocument(report: ComparisonReport, timestamp: string, referencePath: string,
                          extractedPath: string): Json {
    JObject([
      ("metadata", JObject([
        ("timestamp", JString(timestamp)),
        ("reference_path", JString(referencePath)),
        ("extracted_path", JString(extractedPath)),
        ("application", JString("Comparateur d'Archives v2.0 - APST2607")),
        ("total_differences", JNumber(report.numMissing + report.numExtra + report.numModified))])),
      ("results", ReportJson(report))])
  }

  /** Every key of a comparison report, and "results" is not one of them. */
  lemma ReportKeys(report: ComparisonReport)
    ensures ReportJson(report).JObject?
    ensures !HasKey(ReportJson(report).members, "results")
    ensures forall k :: k in RequiredKeys ==> HasKey(ReportJson(report).members, k)
  {
    var members := ReportJson(report).members;
    assert members[0].0 == "missing_files" && members[1].0 == "extra_files";
    assert members[5].0 == "num_missing" && members[6].0 == "num_extra";
  }

  /** An exported comparison imports back as the same report, and so does
      the bare report. */
  lemma ExportedReportImports(report: ComparisonReport, timestamp: string, referencePath: string,
                              extractedPath: string)
    ensures ValidateImport(ExportDocument(report, timestamp, referencePath, extractedPath))
      == Success(ReportJson(report))
    ensures ValidateImport(ReportJson(report)) == Success(ReportJson(report))
  {
    ReportKeys(report);
    BareReportImport(ReportJson(report).members);
    var doc := ExportDocument(report, timestamp, referencePath, extractedPath);
    WrappedLikeBare(ReportJson(report).members, doc.members[0].1.members);
  }
}
