/**
 * The upload plan of the results uploader (result/upload/uploadresults3.go, `getFileMap`):
 * the log, the output file and the custom root store of one scan, keyed by the scan date.
 * The key formats are the data uploader's; `time.Parse` with "20060102" is `parse`.
 */
module UploadResults {
  import opened Wrappers
  import opened Strings
  import opened Dates
  import Misc
  import UploadData

  /** What `getFileMap` returns for a scan on day `d`; the custom entry is inserted last. */
  function ResultPlan(port: int, d: Date, rootCAFile: string, logFile: string, outputFile: string): map<string, string>
  {
    var ymd, ts := Segment(d), Stamp(d);
    var logged: map<string, string> := if logFile != "" then map[logFile := UploadData.LogKey(ymd, ts)] else map[];
    var output := logged[outputFile := UploadData.OutputKey(port, ymd, ts)];
    if rootCAFile != "" then output[rootCAFile := UploadData.StoreKey("custom", ymd, ts, Base(rootCAFile))] else output
  }

  /** What `getFileMap` returns: the plan, or the scan date's parse error and a nil map. */
  function ResultFiles(parse: Misc.DateParser, port: int, scanDate: string, rootCAFile: string, logFile: string,
                       outputFile: string): Result<map<string, string>, string>
  {
    match parse(scanDate)
    case None => Err(Misc.ParseError(scanDate, "20060102"))
    case Some(d) => Ok(ResultPlan(port, d, rootCAFile, logFile, outputFile))
  }

  /** The output file is always planned; the log and the custom store exactly when named. */
  lemma ResultPlanKeys(port: int, d: Date, rootCAFile: string, logFile: string, outputFile: string)
    ensures ResultPlan(port, d, rootCAFile, logFile, outputFile).Keys ==
      {outputFile} + (if logFile != "" then {logFile} else {}) + (if rootCAFile != "" then {rootCAFile} else {})
  {
  }

  /** The plan has one to three entries. */
  lemma ResultPlanSize(port: int, d: Date, rootCAFile: string, logFile: string, outputFile: string)
    ensures 1 <= |ResultPlan(port, d, rootCAFile, logFile, outputFile)| <= 3
  {
    var m := ResultPlan(port, d, rootCAFile, logFile, outputFile);
    ResultPlanKeys(port, d, rootCAFile, logFile, outputFile);
    AtMostThree(m.Keys, outputFile, logFile, rootCAFile);
    assert outputFile in m.Keys;
    assert |m.Keys| == |m|;
  }

  /** A set of strings drawn from three has at most three elements, and one when it holds one. */
  lemma AtMostThree(s: set<string>, a: string, b: string, c: string)
    requires s <= {a, b, c}
    ensures |s| <= 3
  {
    var t := {a, b, c};
    assert t == s + (t - s);
    assert |{a, b, c}| <= 3;
  }

  /**
   * The custom store is inserted last and wins any collision; the output key holds unless the
   * custom file is the output file, and the log key unless the log is one of the others.
   */
  lemma ResultPlanValues(port: int, d: Date, rootCAFile: string, logFile: string, outputFile: string)
    ensures var m, ymd, ts := ResultPlan(port, d, rootCAFile, logFile, outputFile), Segment(d), Stamp(d);
      (rootCAFile != "" ==> m[rootCAFile] == UploadData.StoreKey("custom", ymd, ts, Base(rootCAFile)))
      && (rootCAFile == "" || rootCAFile != outputFile ==> m[outputFile] == UploadData.OutputKey(port, ymd, ts))
      && (logFile != "" && logFile != outputFile && (rootCAFile == "" || rootCAFile != logFile) ==>
            m[logFile] == UploadData.LogKey(ymd, ts))
  {
  }

  /**
   * `getFileMap`: parses the scan date, then inserts the log when named, the output file, and
   * the custom store when named.
   */
  method GetFileMap(parse: Misc.DateParser, port: int, scanDate: string, rootCAFile: string, logFile: string,
                    outputFile: string)
    returns (r: Result<map<string, string>, string>)
    ensures r == ResultFiles(parse, port, scanDate, rootCAFile, logFile, outputFile)
    ensures parse(scanDate).None? <==> r.Err?
    ensures r.Ok? ==> outputFile in r.value
  {
    var timestamp := parse(scanDate);
    if timestamp.None? {
      return Err(Misc.ParseError(scanDate, "20060102"));
    }
    var yearMonthDay := Segment(timestamp.value);
    var timestampStr := Stamp(timestamp.value);
    var fileMap: map<string, string> := map[];
    if logFile != "" {
      fileMap := fileMap[logFile := UploadData.LogKey(yearMonthDay, timestampStr)];
    }
    fileMap := fileMap[outputFile := UploadData.OutputKey(port, yearMonthDay, timestampStr)];
    if rootCAFile != "" {
      fileMap := fileMap[rootCAFile := UploadData.StoreKey("custom", yearMonthDay, timestampStr, Base(rootCAFile))];
    }
    return Ok(fileMap);
  }
}
