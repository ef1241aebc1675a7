/**
 * The CCADB root lists (rootstores/ccadb_smime_tls.go and rootstores/ccadb_microsoft.go):
 * a downloaded CSV file whose rows carry a PEM certificate in column 0 and, for the Mozilla
 * lists, a distrust date in column 1.  The download, the CSV reader, the clock and
 * `time.Parse` are parameters.
 */
module Ccadb {
  import opened Wrappers
  import opened Strings
  import opened Dates

  const TlsUrl := "https://ccadb.my.salesforce-sites.com/mozilla/IncludedRootsDistrustTLSSSLPEMCSV?TrustBitsInclude=Websites"
  const SMimeUrl := "https://ccadb.my.salesforce-sites.com/mozilla/IncludedRootsDistrustSMIMEPEMCSV?TrustBitsInclude=Email"
  const TlsRootsName := "IncludedRootsDistrustTLSSSLPEM.csv"
  const TlsRootsFile := "shared_dir/" + TlsRootsName
  const SMimeRootsName := "IncludedRootsDistrustSMIMEPEM.csv"
  const SMimeRootsFile := "shared_dir/" + SMimeRootsName
  const MicrosoftUrl := "https://ccadb.my.salesforce-sites.com/microsoft/IncludedRootsPEMCSVForMSFT?MicrosoftEKUs=Code%20Signing"
  const MicrosoftFile := "IncludedRootsPEMForMSFT.csv"

  /** The `rootType` selectors, Go's `iota` constants. */
  const TLS: nat := 0
  const SMIME: nat := 1

  type Row = seq<string>

  /** `Download(url, filePath)`: the error of fetching `url` into `filePath`, if any. */
  type Download = (string, string) -> Option<string>

  /** `misc.LoadCsv(filePath)`: the records after the header line, or the error. */
  type LoadCsv = string -> Result<seq<Row>, string>

  /** `time.Parse("2006.01.02", text)`; `Dates.ParseLayout(text, ".")` is what it computes. */
  type DistrustParser = string -> Option<Date>

  /**
   * Every record `loadCsv` returns has at least `width` fields.  Go's CSV reader gives every
   * record the header's field count; the code indexes the columns without checking.
   */
  ghost predicate HasColumns(loadCsv: LoadCsv, width: nat)
  {
    forall path :: loadCsv(path).Ok? ==> forall i :: 0 <= i < |loadCsv(path).value| ==> |loadCsv(path).value[i]| >= width
  }

  /** The URL and the local file a root type selects. */
  function Source(rootType: nat): (r: (string, string))
    ensures rootType == TLS ==> r == (TlsUrl, TlsRootsFile)
    ensures rootType != TLS ==> r == (SMimeUrl, SMimeRootsFile)
  {
    if rootType == TLS then (TlsUrl, TlsRootsFile) else (SMimeUrl, SMimeRootsFile)
  }

  /** `strings.ReplaceAll(s, "'", "")`. */
  function StripQuotes(s: string): string
  {
    ReplaceAll(s, '\'', "")
  }

  /** Stripping leaves no quote behind, and stripping again changes nothing. */
  lemma StripQuotesClean(s: string)
    ensures '\'' !in StripQuotes(s)
    ensures StripQuotes(StripQuotes(s)) == StripQuotes(s)
    ensures |StripQuotes(s)| <= |s|
  {
    RemoveAllIdempotent(s, '\'');
  }

  /** A row whose distrust date parses and lies strictly before `now` is dropped. */
  predicate Distrusted(row: Row, parse: DistrustParser, now: Instant)
    requires |row| >= 2
  {
    row[1] != "" && parse(row[1]).Some? && BeforeInstant(parse(row[1]).value, now)
  }

  /** The PEM texts the filter keeps from the first `n` rows, in row order. */
  function Kept(rows: seq<Row>, parse: DistrustParser, now: Instant, n: nat): seq<string>
    requires n <= |rows|
    requires forall i :: 0 <= i < |rows| ==> |rows[i]| >= 2
  {
    if n == 0 then []
    else Kept(rows, parse, now, n - 1) + (if Distrusted(rows[n - 1], parse, now) then [] else [StripQuotes(rows[n - 1][0])])
  }

  /** The indices of the rows among the first `n` that the filter keeps. */
  function KeptIndices(rows: seq<Row>, parse: DistrustParser, now: Instant, n: nat): seq<nat>
    requires n <= |rows|
    requires forall i :: 0 <= i < |rows| ==> |rows[i]| >= 2
  {
    if n == 0 then []
    else KeptIndices(rows, parse, now, n - 1) + (if Distrusted(rows[n - 1], parse, now) then [] else [n - 1])
  }

  /** Output `j` is the quote-stripped column 0 of row `KeptIndices[j]`. */
  lemma {:induction false} KeptAt(rows: seq<Row>, parse: DistrustParser, now: Instant, n: nat)
    requires n <= |rows|
    requires forall i :: 0 <= i < |rows| ==> |rows[i]| >= 2
    ensures |Kept(rows, parse, now, n)| == |KeptIndices(rows, parse, now, n)|
    ensures forall j :: 0 <= j < |KeptIndices(rows, parse, now, n)| ==>
      KeptIndices(rows, parse, now, n)[j] < n
      && Kept(rows, parse, now, n)[j] == StripQuotes(rows[KeptIndices(rows, parse, now, n)[j]][0])
  {
    if n > 0 {
      KeptAt(rows, parse, now, n - 1);
    }
  }

  /** The kept indices increase, so the output keeps the rows' order. */
  lemma {:induction false} KeptInOrder(rows: seq<Row>, parse: DistrustParser, now: Instant, n: nat)
    requires n <= |rows|
    requires forall i :: 0 <= i < |rows| ==> |rows[i]| >= 2
    ensures forall j :: 0 <= j < |KeptIndices(rows, parse, now, n)| ==> KeptIndices(rows, parse, now, n)[j] < n
    ensures forall j, k :: 0 <= j < k < |KeptIndices(rows, parse, now, n)| ==>
      KeptIndices(rows, parse, now, n)[j] < KeptIndices(rows, parse, now, n)[k]
  {
    if n > 0 {
      KeptInOrder(rows, parse, now, n - 1);
    }
  }

  /** A row is kept exactly when it is not distrusted. */
  lemma {:induction false} KeptExactly(rows: seq<Row>, parse: DistrustParser, now: Instant, n: nat, i: nat)
    requires n <= |rows|
    requires forall i :: 0 <= i < |rows| ==> |rows[i]| >= 2
    requires i < n
    ensures i in KeptIndices(rows, parse, now, n) <==> !Distrusted(rows[i], parse, now)
  {
    KeptInOrder(rows, parse, now, n - 1);
    if i < n - 1 {
      KeptExactly(rows, parse, now, n - 1, i);
    }
  }

  /** Nothing the filter outputs contains a single quote. */
  lemma {:induction false} KeptUnquoted(rows: seq<Row>, parse: DistrustParser, now: Instant, n: nat)
    requires n <= |rows|
    requires forall i :: 0 <= i < |rows| ==> |rows[i]| >= 2
    ensures forall j :: 0 <= j < |Kept(rows, parse, now, n)| ==> '\'' !in Kept(rows, parse, now, n)[j]
  {
    if n > 0 {
      KeptUnquoted(rows, parse, now, n - 1);
      StripQuotesClean(rows[n - 1][0]);
    }
  }

  /** What `LoadCCADBRoots(rootType)` returns. */
  function CcadbRoots(rootType: nat, download: Download, loadCsv: LoadCsv, parse: DistrustParser, now: Instant)
    : Result<seq<string>, string>
    requires HasColumns(loadCsv, 2)
  {
    var (url, filePath) := Source(rootType);
    match download(url, filePath)
    case Some(e) => Err(e)
    case None =>
      match loadCsv(filePath)
      case Err(e) => Err(e)
      case Ok(rows) => Ok(Kept(rows, parse, now, |rows|))
  }

  /**
   * `LoadCCADBRoots`: the rows of the selected list whose distrust date is empty, unparseable
   * or not yet reached, with every single quote removed from their PEM text.
   */
  method LoadCcadbRoots(rootType: nat, download: Download, loadCsv: LoadCsv, parse: DistrustParser, now: Instant)
    returns (r: Result<seq<string>, string>)
    requires HasColumns(loadCsv, 2)
    ensures r == CcadbRoots(rootType, download, loadCsv, parse, now)
    ensures download(Source(rootType).0, Source(rootType).1).Some? ==>
      r == Err(download(Source(rootType).0, Source(rootType).1).value)
    ensures download(Source(rootType).0, Source(rootType).1).None? && loadCsv(Source(rootType).1).Err? ==>
      r == Err(loadCsv(Source(rootType).1).error)
  {
    var url, filePath;
    if rootType == TLS {
      url := TlsUrl;
      filePath := TlsRootsFile;
    } else {
      url := SMimeUrl;
      filePath := SMimeRootsFile;
    }
    var err := download(url, filePath);
    if err.Some? {
      return Err(err.value);
    }
    var records := loadCsv(filePath);
    if records.Err? {
      return Err(records.error);
    }
    var rows := records.value;
    var rootStores := [];
    for i := 0 to |rows|
      invariant rootStores == Kept(rows, parse, now, i)
    {
      var v := rows[i];
      if v[1] != "" {
        var distrustDate := parse(v[1]);
        if distrustDate.Some? && BeforeInstant(distrustDate.value, now) {
          continue;
        }
      }
      var pemCert := StripQuotes(v[0]);
      rootStores := rootStores + [pemCert];
    }
    return Ok(rootStores);
  }

  /** The PEM texts of the first `n` rows, quotes removed. */
  function AllRows(rows: seq<Row>, n: nat): seq<string>
    requires n <= |rows|
    requires forall i :: 0 <= i < |rows| ==> |rows[i]| >= 1
  {
    if n == 0 then [] else AllRows(rows, n - 1) + [StripQuotes(rows[n - 1][0])]
  }

  lemma {:induction false} AllRowsAt(rows: seq<Row>, n: nat)
    requires n <= |rows|
    requires forall i :: 0 <= i < |rows| ==> |rows[i]| >= 1
    ensures |AllRows(rows, n)| == n
    ensures forall i :: 0 <= i < n ==> AllRows(rows, n)[i] == StripQuotes(rows[i][0])
  {
    if n > 0 {
      AllRowsAt(rows, n - 1);
    }
  }

  /** What `LoadMicrosoftRoot` returns; the removal of the temporary file plays no part. */
  function MicrosoftRoots(download: Download, loadCsv: LoadCsv): Result<seq<string>, string>
    requires HasColumns(loadCsv, 1)
  {
    match download(MicrosoftUrl, MicrosoftFile)
    case Some(e) => Err(e)
    case None =>
      match loadCsv(MicrosoftFile)
      case Err(e) => Err(e)
      case Ok(rows) => Ok(AllRows(rows, |rows|))
  }

  /**
   * `LoadMicrosoftRoot`: one quote-stripped PEM text per row, in row order.  `removeErr` is
   * the outcome of deleting the downloaded file, which is only logged.
   */
  method LoadMicrosoftRoot(download: Download, loadCsv: LoadCsv, removeErr: Option<string>)
    returns (r: Result<seq<string>, string>)
    requires HasColumns(loadCsv, 1)
    ensures r == MicrosoftRoots(download, loadCsv)
    ensures download(MicrosoftUrl, MicrosoftFile).None? && loadCsv(MicrosoftFile).Ok? ==>
      r.Ok? && |r.value| == |loadCsv(MicrosoftFile).value|
      && forall i :: 0 <= i < |r.value| ==> r.value[i] == StripQuotes(loadCsv(MicrosoftFile).value[i][0])
  {
    var err := download(MicrosoftUrl, MicrosoftFile);
    if err.Some? {
      return Err(err.value);
    }
    var records := loadCsv(MicrosoftFile);
    if records.Err? {
      return Err(records.error);
    }
    var rows := records.value;
    var rootStores := [];
    for i := 0 to |rows|
      invariant rootStores == AllRows(rows, i)
    {
      var pemCert := StripQuotes(rows[i][0]);
      rootStores := rootStores + [pemCert];
    }
    AllRowsAt(rows, |rows|);
    return Ok(rootStores);
  }
}
