/**
 * The upload plan of the data uploader (upload/uploaddatas3.go, `getUploadFiles`): the object
 * key each local file of one scan is stored under, built from the scan date.  `time.Parse`
 * with the layout "20060102" is the parameter `parse`.
 */
module UploadData {
  import opened Wrappers
  import opened Strings
  import opened Dates
  import Misc
  import Ccadb
  import RootStores
  import Collect

  const RootstoreBasePath := "rootstores/format=raw"

  /** `fmt.Sprintf("artefacts/tool=cert-validator/%s/%s_log.json", yearMonthDay, timestampStr)`. */
  function LogKey(yearMonthDay: string, timestampStr: string): string
  {
    "artefacts/tool=cert-validator/" + yearMonthDay + "/" + timestampStr + "_log.json"
  }

  /**
   * `fmt.Sprintf("data_processing/tool=cert-validator/format=parquet/port=%d/%s/%s_%d_cert-validator.parquet",
   * port, yearMonthDay, timestampStr, port)`: the port appears twice.
   */
  function OutputKey(port: int, yearMonthDay: string, timestampStr: string): string
  {
    "data_processing/tool=cert-validator/format=parquet/port=" + IntToString(port) + "/" + yearMonthDay + "/"
      + timestampStr + "_" + IntToString(port) + "_cert-validator.parquet"
  }

  /** `fmt.Sprintf("%s/store=<store>/%s/%s_%s", rootstoreBasePath, yearMonthDay, timestampStr, baseName)`. */
  function StoreKey(store: string, yearMonthDay: string, timestampStr: string, baseName: string): string
  {
    RootstoreBasePath + "/store=" + store + "/" + yearMonthDay + "/" + timestampStr + "_" + baseName
  }

  /** What `getUploadFiles` returns for a scan on day `d`. */
  function UploadPlan(port: int, d: Date, rootCAFile: string, logFile: string, outputFile: string): map<string, string>
  {
    var ymd, ts := Segment(d), Stamp(d);
    var stores := map[Ccadb.TlsRootsFile := StoreKey("ccadb-tls", ymd, ts, Ccadb.TlsRootsName)]
      [Ccadb.SMimeRootsFile := StoreKey("ccadb-smime", ymd, ts, Ccadb.SMimeRootsName)]
      [RootStores.GoogleServicesFile := StoreKey("google", ymd, ts, RootStores.GoogleServicesName)];
    var custom := if rootCAFile != "" then stores[rootCAFile := StoreKey("custom", ymd, ts, Base(rootCAFile))] else stores;
    var logged := if logFile != "" then custom[logFile := LogKey(ymd, ts)] else custom;
    logged[outputFile := OutputKey(port, ymd, ts)]
  }

  /** What `getUploadFiles` returns: the plan, or the scan date's parse error and a nil map. */
  function UploadFiles(parse: Misc.DateParser, port: int, scanDate: string, rootCAFile: string, logFile: string,
                       outputFile: string): Result<map<string, string>, string>
  {
    match parse(scanDate)
    case None => Err(Misc.ParseError(scanDate, "20060102"))
    case Some(d) => Ok(UploadPlan(port, d, rootCAFile, logFile, outputFile))
  }

  /**
   * The plan's local files: the three root lists and the output always, the custom store and
   * the log exactly when they are named.
   */
  lemma UploadPlanKeys(port: int, d: Date, rootCAFile: string, logFile: string, outputFile: string)
    ensures UploadPlan(port, d, rootCAFile, logFile, outputFile).Keys ==
      {Ccadb.TlsRootsFile, Ccadb.SMimeRootsFile, RootStores.GoogleServicesFile, outputFile}
      + (if rootCAFile != "" then {rootCAFile} else {})
      + (if logFile != "" then {logFile} else {})
  {
  }

  /**
   * Later insertions win: the output file always has the output key, the log file has the log
   * key unless it is the output file, and the custom file its store key unless it is one of those.
   */
  lemma UploadPlanValues(port: int, d: Date, rootCAFile: string, logFile: string, outputFile: string)
    ensures var m, ymd, ts := UploadPlan(port, d, rootCAFile, logFile, outputFile), Segment(d), Stamp(d);
      m[outputFile] == OutputKey(port, ymd, ts)
      && (logFile != "" && logFile != outputFile ==> m[logFile] == LogKey(ymd, ts))
      && (rootCAFile != "" && rootCAFile != outputFile && (logFile == "" || rootCAFile != logFile) ==>
            m[rootCAFile] == StoreKey("custom", ymd, ts, Base(rootCAFile)))
  {
  }

  /** A root list keeps its store key unless a later entry has the same local path. */
  lemma RootListKeys(port: int, d: Date, rootCAFile: string, logFile: string, outputFile: string)
    ensures var m, ymd, ts := UploadPlan(port, d, rootCAFile, logFile, outputFile), Segment(d), Stamp(d);
      var later := {outputFile} + (if rootCAFile != "" then {rootCAFile} else {}) + (if logFile != "" then {logFile} else {});
      (Ccadb.TlsRootsFile !in later ==> m[Ccadb.TlsRootsFile] == StoreKey("ccadb-tls", ymd, ts, Ccadb.TlsRootsName))
      && (Ccadb.SMimeRootsFile !in later ==> m[Ccadb.SMimeRootsFile] == StoreKey("ccadb-smime", ymd, ts, Ccadb.SMimeRootsName))
      && (RootStores.GoogleServicesFile !in later ==>
            m[RootStores.GoogleServicesFile] == StoreKey("google", ymd, ts, RootStores.GoogleServicesName))
  {
    Collect.RootListFilesDistinct();
  }

  /**
   * The custom root store uploaded for a scan is one `DownloadS3` dates back to the scan day,
   * when it reads stamps as `time.Parse` does.
   */
  lemma CustomKeyReadsBack(d: Date, rootCAFile: string, parse: Misc.DateParser)
    requires Valid(d) && d.year < 10000
    requires rootCAFile != "" && Base(rootCAFile) != "/"
    requires parse(Stamp(d)) == ParseLayout(Stamp(d), "")
    ensures Misc.KeyDate(parse)(StoreKey("custom", Segment(d), Stamp(d), Base(rootCAFile))) == Ok(d)
  {
    var prefix := RootstoreBasePath + "/store=" + "custom";
    assert StoreKey("custom", Segment(d), Stamp(d), Base(rootCAFile)) == Collect.DatedKey(prefix, d, Base(rootCAFile));
    Collect.FileKeyReadsBack(prefix, d, rootCAFile, parse);
  }

  /**
   * `getUploadFiles`: parses the scan date, then inserts the TLS, S/MIME and Google lists,
   * the custom store and the log when named, and the output file last.
   */
  method GetUploadFiles(parse: Misc.DateParser, port: int, scanDate: string, rootCAFile: string, logFile: string,
                        outputFile: string)
    returns (r: Result<map<string, string>, string>)
    ensures r == UploadFiles(parse, port, scanDate, rootCAFile, logFile, outputFile)
    ensures parse(scanDate).None? <==> r.Err?
    ensures r.Ok? ==> outputFile in r.value && Ccadb.TlsRootsFile in r.value
  {
    var timestamp := parse(scanDate);
    if timestamp.None? {
      return Err(Misc.ParseError(scanDate, "20060102"));
    }
    var yearMonthDay := Segment(timestamp.value);
    var timestampStr := Stamp(timestamp.value);
    var fileMap: map<string, string> := map[];
    fileMap := fileMap[Ccadb.TlsRootsFile := StoreKey("ccadb-tls", yearMonthDay, timestampStr, Ccadb.TlsRootsName)];
    fileMap := fileMap[Ccadb.SMimeRootsFile := StoreKey("ccadb-smime", yearMonthDay, timestampStr, Ccadb.SMimeRootsName)];
    fileMap := fileMap[RootStores.GoogleServicesFile := StoreKey("google", yearMonthDay, timestampStr, RootStores.GoogleServicesName)];
    if rootCAFile != "" {
      fileMap := fileMap[rootCAFile := StoreKey("custom", yearMonthDay, timestampStr, Base(rootCAFile))];
    }
    if logFile != "" {
      fileMap := fileMap[logFile := LogKey(yearMonthDay, timestampStr)];
    }
    fileMap := fileMap[outputFile := OutputKey(port, yearMonthDay, timestampStr)];
    return Ok(fileMap);
  }
}
