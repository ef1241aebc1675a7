# cert-validator in Dafny

A model of the core of cert-validator, a Go tool (plus one Python analysis script). It validates
X.509 certificate chains collected by network scans against several root stores and uploads the
inputs and results to object storage. The model covers the following modules:

- **Validator** (`validator.dfy`, with `permute.dfy`): `ValidateChainPem`, which validates one
  chain and sends exactly one record on the result channel. Element 0 is the leaf. Every later
  element is appended to an intermediate pool. The leaf is verified against the roots with that
  pool, and the verified chains are recorded as quoted, upper-cased fingerprint sequences. The
  model also covers the reordering loop over the intermediates (at most 250000 arrangements),
  the final roots-only verification, and `tryAppendChain` and `inSlice`. The result channel is a
  class whose `sent` sequence grows by one record per send. The Heap permutation generator
  becomes a sequence of index swaps.
- **RootStores** (`rootstores.dfy`): the registry of root-store pools `RootCertsPool`, a class
  with a map field. It covers `IsEmptyRootCertsPool`, `PoolRootCerts`, `getCertPool`,
  `getCertPoolFromPEMFile` and `getCertPoolFromDERFiles`.
- **Ccadb** (`ccadb.dfy`): `LoadCCADBRoots` and `LoadMicrosoftRoot`. These turn CCADB CSV
  records into PEM texts, dropping roots whose distrust date has passed.
- **Misc** (`misc.dfy`): `Contains`, `GetFile`, `DownloadS3` and `DownloadS3Files`, the
  selection of the latest dated object key under a prefix.
- **Collect**, **UploadData**, **UploadResults** (`collect.dfy`, `upload_data.dfy`,
  `upload_results.dfy`): the maps from local files to object keys that the three uploaders
  build for a day.
- **ErrorAnalysis** (`analyze.dfy`): `get_error_list` and `error_str2` from the analysis
  script. They classify a chain's per-store verifier errors into short categories.
- **Support modules**: Strings, Dates, X509 and Wrappers model the Go library functions the
  core relies on: `strings.Split`, `filepath.Base`, `strconv.Quote`, `time.Parse` and
  `fmt` zero padding. The x509 library itself is a record of uninterpreted functions
  (`X509.Library`).

Each imperative source function is a `method` that updates its variables and collections the
way the source does. Each method is proved equal to a specification function, and the
properties the source promises are proved as lemmas about those functions.

Modelling decisions that follow the code where a reader might expect otherwise:

- The leaf is always element 0 of the chain. The chain order is not searched for a leaf, and no
  element is excluded from the intermediates for having the leaf's fingerprint.
- An intermediate that fails to append ends the validation of the chain with "failed to append
  intermediate certificate". It is not skipped.
- `tryAppendChain` appends to its own copy of the slice. The chains found while reordering the
  intermediates therefore never reach the record. `Validator.ExpectedResult` does not depend on
  the reordering loop at all.
- `getCertPoolFromDERFiles` on an empty directory returns an empty pool, not an error.
- A verification failure after the first success leaves the record valid and only sets its
  error text.
- The files disagree with each other in places. `PoolRootCerts` passes a scan date that
  `LoadCCADBRoots` does not take, so the date is not modelled there. `GoogleServicesFile` is
  taken from `rootstores/google_services.go`, the file that also defines the prefix the
  collector uses.

## Model

| member | source | states |
|---|---|---|
| Validator.ValidateChainPem | validator/validator.go:23-142 | Exactly one record is sent, and it equals `ExpectedResult` whatever swaps the permutation generator produces. The returned permutation count is `ExpectedPermutations`, at most 250000 |
| Validator.ExpectedPermutations | validator/validator.go:80-119 | The loop tries at most one arrangement per swap and at most 250000, and none when the record is invalid, because every invalid path returns before the loop |
| Validator.PermutationsStop | validator/validator.go:84-118 | For a valid record, the count ends at the first arrangement whose verification fails or finds no new chain, unless the swaps or the bound run out first |
| Validator.ExpectedResult | validator/validator.go:23-142 | The record's id is the chain's id. A leaf that fails to decode gives the "no valid leaf" record. Validity holds exactly when the leaf decodes, every intermediate appends and the first verification succeeds. An invalid record has no chains. A failing append gives "failed to append intermediate certificate", and a failing first verification gives the verifier's error text verbatim |
| Validator.LeafFailureDecides | validator/validator.go:30-36 | When element 0 fails to decode, the record is the same whatever the rest of the chain, the roots, the date, and the append, verify and fingerprint functions |
| Validator.AppendFailureDecides | validator/validator.go:43-49 | The first intermediate that fails to append decides the record: it is invalid with "failed to append intermediate certificate", whatever follows that element |
| Validator.ValidityIgnoresFinalVerification | validator/validator.go:129-138 | Two libraries that differ only in the roots-only verification give the same validity and the same rendered chains |
| Validator.ValidRecordBracketed | validator/validator.go:129-138 | A valid record renders its chains inside brackets, and its error text is the roots-only verification's error, or empty when that verification succeeds |
| Validator.ValidChainsListFirstVerification | validator/validator.go:70-135 | A valid record lists the first verification's chains, each as its quoted, upper-cased fingerprints separated by ", " inside brackets |
| Validator.RenderChainsCommaSeparated | validator/validator.go:135 | When no fingerprint holds a space, replacing spaces with ", " in `fmt.Sprint` of the list gives exactly the comma-separated nested list |
| Validator.ReplaceInterleave | validator/validator.go:135 | Replacing spaces in space-separated items gives the replaced items separated by ", " |
| Validator.GetCertificateFromPem | validator/validator.go:144-159 | Decoding succeeds exactly when there is a PEM block of type "CERTIFICATE" whose bytes parse, with the matching error texts otherwise |
| Validator.CertFingerprintQuoted | validator/validator.go:74 | A fingerprint entry is quoted, and unquoting it gives back the upper-cased fingerprint |
| Validator.ChainFingerprintsAt | validator/validator.go:72-76 | Entry i of a chain's fingerprint sequence is the entry of certificate i |
| Validator.AllFingerprintsAt | validator/validator.go:70-78 | Entry i of the list is the fingerprint sequence of chain i |
| Validator.FingerprintChain | validator/validator.go:72-76 | The inner loop builds the chain's fingerprint sequence |
| Validator.FingerprintChains | validator/validator.go:70-78 | The outer loop builds the fingerprint sequences of every chain, in order |
| Validator.InSlice | validator/validator.go:217-224 | `inSlice` is true exactly when the needle equals, element by element, a sequence of the haystack |
| Validator.TryAppendChain | validator/validator.go:201-215 | The result is true exactly when every chain's fingerprint sequence is already present. The local copy grows only by new, distinct sequences and keeps the caller's entries as its prefix. It is unchanged exactly when the result is true |
| Validator.AllPresentMeans | validator/validator.go:209 | "All present" means every chain's fingerprint sequence is among those recorded |
| Validator.FreshMeans | validator/validator.go:209-212 | Appending only sequences that are not yet present keeps the list duplicate-free |
| Validator.BuildPool | validator/validator.go:91-101 | The loop's pool is the indexed texts that append, in order, and the sticky error is set exactly when some text fails to append |
| Validator.PoolOfEntries | validator/validator.go:91-97 | A pool holds only chain texts that append, and all of them, in order, when every append succeeds |
| Validator.StepAllAppend | validator/validator.go:90-97 | A swap keeps the indexes in range, and every text appends after it exactly when every text did before |
| Validator.ApplySwapsAllAppend | validator/validator.go:84-97 | The same holds after any number of swaps |
| Validator.Opts | validator/validator.go:54-60 | Every verification uses the given roots, date and intermediates, no DNS name and the "any" key usage |
| Validator.VerifyArrangement | validator/validator.go:111-118 | One verification in the loop stops it exactly when verifying fails or `tryAppendChain` finds nothing new |
| Validator.ExploreBounds | validator/validator.go:84-88 | The loop counts at most one iteration per swap and at most 250000 |
| Validator.ExploreAfterFailure | validator/validator.go:93-101 | Once an append has failed, the error stays set and the loop only counts, to the end of the swaps or the bound |
| Validator.ExploreWhileAppending | validator/validator.go:112-118 | While appends succeed, the loop ends exactly at the first arrangement that stops it |
| Validator.ExploreFromStart | validator/validator.go:80-119 | Started from the initial index array, the count and the stopping arrangement are as above |
| Validator.ExploreIteration | validator/validator.go:89-118 | One iteration swaps the index array (a permutation of it), rebuilds the pool, and verifies unless the sticky error is set |
| Validator.ExploreOrderings | validator/validator.go:80-119 | The index array stays a permutation of 1..n-1 with every index in range, and the count obeys the bounds and stopping rules above |
| Permute.SwapAtPermutes | validator/validator.go:90 | Swapping two positions is a permutation |
| Permute.StepPermutes | validator/validator.go:90 | One generator step is a permutation |
| Permute.RangeInRange | validator/validator.go:41-51 | The initial index array 1..n-1 indexes the chain |
| Permute.ApplySwapsInRange | validator/validator.go:84-90 | Any number of swaps keeps every index in range |
| Permute.SwapAt | validator/validator.go:90 | A swap exchanges the two positions and leaves every other position alone |
| Strings.QuoteRoundTrip | validator/validator.go:74 | Unquoting a `strconv.Quote` result gives back the string |
| Strings.ToUpper | validator/validator.go:74 | Upper-casing keeps the length. Each ASCII lower-case letter becomes its capital, and every other character is unchanged |
| RootStores.InitialPools | rootstores/rootstores.go:23-30 | The registry starts with the five store names (not code signing, not custom), all absent |
| RootStores.InitialNames | rootstores/rootstores.go:23-30 | Five initial names, not including code signing or custom |
| RootStores.Registry.constructor | rootstores/rootstores.go:23-30 | The registry starts as `InitialPools` |
| RootStores.Registry.IsEmpty | rootstores/rootstores.go:32-39 | True exactly when every registered pool is absent |
| RootStores.Registry.PoolRootCerts | rootstores/rootstores.go:41-98 | Always returns no error. The new registry is the old one with the TLS, S/MIME, Google, Apple and Windows pools set, and the custom pool set only when a custom file is named |
| RootStores.BuildStores | rootstores/rootstores.go:42-95 | Loads all six pools as `PoolRootCerts` does |
| RootStores.CcadbPool | rootstores/rootstores.go:42-58 | A CCADB pool is `getCertPool` of the loaded list |
| RootStores.CcadbFailureAbsent | rootstores/rootstores.go:42-49 | A failed CCADB load leaves that store absent, with "no root CA file provided" |
| RootStores.InstallAllAbsent | rootstores/rootstores.go:71-95 | After loading, the registry is empty exactly when every loaded pool is absent, and, when a custom file is named, the custom pool too |
| RootStores.PooledFromStartAbsent | rootstores/rootstores.go:32-98 | From the initial registry, `IsEmptyRootCertsPool` after `PoolRootCerts` is true exactly when no store loaded |
| RootStores.GetCertPool | rootstores/rootstores.go:100-111 | An empty list or any text that fails to append gives no pool and an error. Otherwise the pool holds every text, in order. The pool is present exactly when the error is absent |
| RootStores.PemEntriesAt | rootstores/rootstores.go:105-109 | The pool's entry i is text i |
| RootStores.GetCertPoolFromPemFile | rootstores/rootstores.go:113-130 | `GetFile` errors propagate. An empty name gives neither pool nor error. A pool comes only with a named file |
| RootStores.DerEntriesAllOrNothing | rootstores/rootstores.go:139-150 | The directory loads exactly when every file reads and parses, and then the pool holds the parsed certificates in directory order |
| RootStores.GetCertPoolFromDerFiles | rootstores/rootstores.go:132-152 | The loop gives the directory's pool or its first error, and an empty directory gives an empty, non-absent pool |
| Ccadb.Source | rootstores/ccadb_smime_tls.go:26-34 | The TLS type downloads the TLS URL to the TLS file; any other type uses the S/MIME pair |
| Ccadb.LoadCcadbRoots | rootstores/ccadb_smime_tls.go:25-60 | Download and CSV errors propagate. Otherwise the list is `CcadbRoots`: every row not yet distrusted, in order, with its quotes removed |
| Ccadb.KeptExactly | rootstores/ccadb_smime_tls.go:46-57 | A row is kept exactly when it is not distrusted: no date, an unparsable date, or a date not before now |
| Ccadb.KeptInOrder | rootstores/ccadb_smime_tls.go:46-57 | The kept rows appear in their CSV order |
| Ccadb.KeptAt | rootstores/ccadb_smime_tls.go:46-57 | Kept entry j is the unquoted PEM column of kept row j |
| Ccadb.KeptUnquoted | rootstores/ccadb_smime_tls.go:55 | No kept text contains a single quote |
| Ccadb.StripQuotesClean | rootstores/ccadb_smime_tls.go:55 | Removing quotes leaves none, is idempotent and never lengthens |
| Ccadb.LoadMicrosoftRoot | rootstores/ccadb_microsoft.go:15-37 | Download and CSV errors propagate. Otherwise every record's first column is kept, unquoted and in order |
| Ccadb.AllRowsAt | rootstores/ccadb_microsoft.go:27-30 | Entry i is record i's first column without quotes |
| Misc.ContainsExactly | misc/misc.go:288-295 | An offset is listed exactly when the needle is non-empty and occurs there |
| Misc.MentionsMeans | misc/misc.go:262-263 | A file matches exactly when the base name is non-empty and occurs in its path |
| Misc.GetFile | misc/misc.go:253-268 | A `Find` error propagates. Otherwise the result is the first listed file that mentions the base name, or "file not found" exactly when none does |
| Misc.GreatestIsLatest | misc/misc.go:208-212 | The chosen key is listed and no listed key is greater, as element 0 after the descending sort |
| Misc.LatestUnique | misc/misc.go:208-212 | There is only one such key, so the sort's handling of equal keys never matters |
| Misc.Latest | misc/misc.go:208-212 | The scan returns that greatest key |
| Misc.CandidatesMeans | misc/misc.go:194-206 | A key is a candidate exactly when it is listed with a date on or before the scan date |
| Misc.ScanDated | misc/misc.go:194-206 | The listing loop yields the candidates or the first listing or date error |
| Misc.DownloadS3 | misc/misc.go:187-221 | The first listing or date error aborts. No candidate gives "no files found". Otherwise the latest candidate is fetched and its fetch error returned |
| Misc.GroupsMeans | misc/misc.go:138-157 | Each group holds exactly the keys of its year/month/day segment dated on or before the scan date, in listing order, and no group is empty |
| Misc.ScanGroups | misc/misc.go:138-157 | The listing loop yields the groups or the first listing, match or date error |
| Misc.SegmentOf | misc/misc.go:142-148 | A match is 25 characters long, the length of a "year=YYYY/month=MM/day=DD" segment |
| Misc.SegmentOfMeans | misc/misc.go:132-145 | A key has no match, and `DownloadS3Files` fails with "no matches", exactly when none of its lines holds a year/month/day segment. A match is the last segment of the first line that holds one, as the greedy `.*` and the line-bound `.` give |
| Misc.FindSegmentMeans | misc/misc.go:142 | Over a list of lines, the search finds nothing exactly when no line holds a segment, and otherwise finds the last segment of the first line that holds one |
| Misc.LastSegmentBelowMeans | misc/misc.go:142 | Within one line, the backward search finds nothing exactly when no segment starts below the bound, and otherwise finds the last one |
| Misc.KeysOf | misc/misc.go:159-162 | The collected keys are exactly the map's keys |
| Misc.FetchInOrder | misc/misc.go:176-181 | Keys are fetched in order up to the first failure, whose error is returned |
| Misc.DownloadS3Files | misc/misc.go:130-185 | Errors abort in listing order. No group gives "no files found". Otherwise the greatest segment is chosen and its keys are fetched in order, unless creating the directory fails |
| Dates.StampRoundTrip | upload/uploaddatas3.go:111-112 | The "%04d%02d%02d" stamp of a valid date is eight digits and parses back to the date |
| Dates.ParseLayout | misc/misc.go:149 | A parsed date is a valid calendar date with a four-digit year |
| Collect.FileMap.constructor | rootstores/collect/collect.go:93 | The map starts empty |
| Collect.GetFileMap | rootstores/collect/collect.go:88-122 | The map holds the three root lists when "others" is collected, the Apple file when collected and present, and the Windows files when collected and readable, with keys under the day's folder |
| Collect.NothingCollected | rootstores/collect/collect.go:88-122 | Collecting nothing gives an empty map |
| Collect.OthersOnly | rootstores/collect/collect.go:95-103 | Collecting only the others gives exactly the TLS, S/MIME and Google files with their dated keys |
| Collect.AppleWhenPresent | rootstores/collect/collect.go:105-112 | With Apple collected, the Apple file is in the map exactly when it exists, under its dated key |
| Collect.WindowsStageKeeps | rootstores/collect/collect.go:114-119 | The Windows stage keeps every earlier entry that is not a Windows file |
| Collect.TryWindowsFileMap | rootstores/collect/collect.go:124-144 | A nil map, a stat error or a listing error is returned, with the map unchanged. Otherwise every directory entry is added under the Windows prefix |
| Collect.AddWindowsKeys | rootstores/collect/collect.go:139-142 | A key is in the result exactly when it was before or is a listed file, and other keys keep their values |
| Collect.AddWindowsValues | rootstores/collect/collect.go:139-142 | With distinct, non-empty names, each listed file maps to its Windows key |
| Collect.PathJoinInjective | rootstores/collect/collect.go:140 | Distinct non-empty names give distinct local paths |
| Collect.RootListBases | rootstores/collect/collect.go:96-98 | The base names of the three root-list paths are their file names |
| Collect.RootListFilesDistinct | rootstores/collect/collect.go:96-98 | The three root-list paths are distinct |
| Collect.DatedKeyReadsBack | misc/misc.go:198 | A dated key's stamp reads back, in `DownloadS3`, as the day it was written |
| Collect.FileKeyReadsBack | rootstores/collect/collect.go:108 | The key of any local file reads back as its day |
| Collect.StampTextOf | misc/misc.go:198 | The text before "_" in the key's base name is the stamp |
| UploadData.GetUploadFiles | upload/uploaddatas3.go:106-137 | A bad scan date gives only the parse error. Otherwise the map is `UploadPlan`, always holding the output file and the TLS list |
| UploadData.UploadPlanKeys | upload/uploaddatas3.go:114-134 | The planned files are the three root lists and the output, plus the custom store and the log exactly when named |
| UploadData.UploadPlanValues | upload/uploaddatas3.go:120-134 | Later insertions win: the output key always, the log key unless the log is the output, the custom key unless it collides |
| UploadData.RootListKeys | upload/uploaddatas3.go:120-122 | A root list keeps its store key unless a later entry has the same path |
| UploadData.CustomKeyReadsBack | upload/uploaddatas3.go:124 | The custom store's key reads back as the scan day in `DownloadS3` |
| UploadResults.GetFileMap | result/upload/uploadresults3.go:84-107 | A bad scan date gives only the parse error. Otherwise the map is `ResultPlan`, always holding the output file |
| UploadResults.ResultPlanKeys | result/upload/uploadresults3.go:92-104 | The output file always, and the log and the custom store exactly when named |
| UploadResults.ResultPlanSize | result/upload/uploadresults3.go:92-104 | The map has between one and three entries |
| UploadResults.ResultPlanValues | result/upload/uploadresults3.go:94-104 | Later insertions win: the output key unless the custom file has the same path, the log key unless the log is the output or the custom file, and the custom key always |
| ErrorAnalysis.GetErrorList | analyze_leaf_in_chains.py:30-41 | The loop and the emptiness test compute `ErrorList` |
| ErrorAnalysis.ErrorListMeans | analyze_leaf_in_chains.py:30-41 | None exactly for no stores; the empty list exactly when some store's error is empty; otherwise every store's error, in order, none empty |
| ErrorAnalysis.ErrorStr2 | analyze_leaf_in_chains.py:44-62 | The scan and the two lookups compute `ErrorClass` (None where Python raises `KeyError`) |
| ErrorAnalysis.NoValidLeafIff | analyze_leaf_in_chains.py:45-47 | "No valid leaf certificate" exactly for a chain without root stores |
| ErrorAnalysis.ValidChainIff | analyze_leaf_in_chains.py:38-49 | "Valid chain" exactly when some store accepted the chain: no non-empty error has an empty prefix |
| ErrorAnalysis.FirstErrorDecides | analyze_leaf_in_chains.py:51-58 | When every store rejected the chain, the first store's error alone decides the category |
| ErrorAnalysis.KeyErrorIff | analyze_leaf_in_chains.py:56-61 | `KeyError` is raised exactly when neither the three- nor the two-field prefix of the first error is listed |
| ErrorAnalysis.InvalidSignatureClass | analyze_leaf_in_chains.py:24 | An unknown-authority message whose hint is "x509: invalid signature", with any text after it, is "Invalid signature" |
| ErrorAnalysis.ExpiredClass | analyze_leaf_in_chains.py:56-61 | The expiry message with any detail after a third colon falls back to its two-field prefix: "Expired/Not yet valid" |
| ErrorAnalysis.TwoFieldClass | analyze_leaf_in_chains.py:56-61 | A listed two-field prefix decides the category unless the first three fields are the invalid-signature prefix |
| ErrorAnalysis.ListedClass | analyze_leaf_in_chains.py:56-58 | A listed message with at most two colons falls in its own category |
| ErrorAnalysis.ListedFields | analyze_leaf_in_chains.py:17-27 | Every listed prefix except the invalid-signature one has at most two fields |
| ErrorAnalysis.PrefixNonEmpty | analyze_leaf_in_chains.py:56-60 | A prefix of two or more fields of a non-empty error is non-empty, so only an empty error maps to "Valid chain" |
| ErrorAnalysis.FieldPrefixes | analyze_leaf_in_chains.py:56-60 | The two- and three-field prefixes of a message built from colon-free fields |
| Strings.JoinSplit | analyze_leaf_in_chains.py:56 | Joining the fields of a split gives back the string |
| Strings.SplitAround | misc/misc.go:198 | Splitting at one separator splits each side separately |
| Strings.FirstFieldOf | misc/misc.go:198 | The first field is the text before the first separator |
| Strings.BaseOfJoined | rootstores/collect/collect.go:140-141 | The base name of a joined path is the name |
| Strings.RemoveAllIdempotent | rootstores/ccadb_smime_tls.go:55 | Removing all quotes twice is removing them once |

## Left out

- I/O, the network and object storage are parameters or left out. This covers downloads,
  `UploadS3`, `GetMinioClient`, `downloadSingleFileS3`, `ExtractZip`, the upload loops, CSV and
  parquet reading, and writing results. A download, file read, directory listing, `os.Stat` or
  fetch is a function parameter that returns the value or the error.
- Concurrency is left out: the goroutine per chain in `main.go` and the receive loop in
  `result/result.go`. The channel is a sequence of sent records.
- The x509, PEM and fingerprint library code (`Verify`, `ParseCertificate`,
  `AppendCertsFromPEM`, `pem.Decode`, `x509util.Fingerprint`) is uninterpreted functions in
  `X509.Library`. `GetRootCAs`, which reads files into the system pool, is not modelled.
- `RemoveTemporary` and `Download` are not modelled: they only remove and fetch files.
- `time.Parse` is the parameter `parse` (`Misc.DateParser`). `time.Now` is the parameter
  `now`. Calendar validation is modelled in `Dates`. A parse error's text is
  `Misc.ParseError(value, layout)`, not Go's full wording.
- `Find(Dir(path), Ext(path))` in `GetFile` is the given file list (`found`, `Env.find`). The
  directory walk is not modelled.
- `filepath.Join` is `Strings.PathJoin`. It joins with one slash and does not clean `..` or
  repeated slashes.
- The prefix constants and paths the shown files do not define are parameters (`Collect.Layout`
  and `RootStores.Sources`): `CCADBTlsS3Prefix`, `CCADBSMimeS3Prefix`, `AppleS3RootStorePrefix`,
  `WindowsS3Prefix`, `AppleRootStoreFile`, `WindowsRootStoreDir` and `LoadMicrosoftCodeSigningRoot`.
- The base names of the three root-list paths are constants (`Ccadb.TlsRootsName` and others).
  `Collect.RootListBases` proves them equal to `filepath.Base` of those paths.
- Misc.ContainsExactly: lists the offsets in increasing order. Go's suffix array returns them in
  suffix order, and only the order differs.
- Ccadb.LoadCcadbRoots: requires every CSV row to have at least two columns. Go indexes `v[1]`
  and panics on a shorter row. Ccadb.LoadMicrosoftRoot likewise requires one column.
- Validator.ValidateChainPem: requires a non-empty chain. Go indexes element 0 and panics on an
  empty chain.
- Validator.ExploreOrderings: the Heap generator is any sequence of in-range swaps. The model does
  not prove that the generator enumerates every arrangement.
- Strings.ToUpper: upper-cases ASCII letters only. `strings.ToUpper` also maps other letters, but
  hexadecimal fingerprints hold none.
- Strings.Quote: escapes only `"` and `\`. `strconv.Quote` also escapes control and non-printable
  characters, which hexadecimal fingerprints never contain.
- The pandas analyses of the script (`analysis_leaves_in_chains` and the rest), its
  `has_isca_flag` and `_is_valid`, and its printing are not modelled.
- Log lines are not modelled. Only the permutation count reported in the final log line is
  returned.
