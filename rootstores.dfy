/**
 * The trust-store registry of rootstores/rootstores.go: a table from store names to an
 * optional certificate pool, filled once by `PoolRootCerts`, and the three all-or-nothing
 * pool builders it uses.  The filesystem (`Find`, `os.ReadFile`, `os.ReadDir`) is an `Env`
 * value; the certificate library is an `X509.Library`.
 */
module RootStores {
  import opened Wrappers
  import opened Strings
  import opened Dates
  import opened X509
  import Misc
  import Ccadb

  const CcadbTls := "CCADBTLS"
  const CcadbSMime := "CCADBSMIME"
  const GoogleServices := "GOOGLESERVICES"
  const Apple := "APPLE"
  const MicrosoftWindows := "MICROSOFTWINDOWS"
  const MicrosoftCodeSigning := "MICROSOFTCODESIGNING"
  const Custom := "CUSTOM"

  /** rootstores/google_services.go:5. */
  const GoogleServicesName := "google_services_root.pem"
  const GoogleServicesFile := "shared_dir/" + GoogleServicesName

  const NoRootCa := "no root CA file provided"
  const AppendFailed := "failed to append root CA file certificate"
  const AppendToPoolFailed := "failed to append root CA file certificate to the pool"

  /** The five names the registry starts with; code signing is commented out of the table. */
  function InitialNames(): (r: set<string>)
    ensures |r| == 5
    ensures MicrosoftCodeSigning !in r && Custom !in r
  {
    {CcadbTls, CcadbSMime, GoogleServices, Apple, MicrosoftWindows}
  }

  /**
   * The filesystem as the registry sees it.  `find(p)` is what `misc.Find(filepath.Dir(p),
   * filepath.Ext(p))` lists for the file path `p`; `readFile` and `readDir` are `os.ReadFile`
   * and the entry names of `os.ReadDir`, each with its error.
   */
  datatype Env = Env(
    find: string -> Result<seq<string>, string>,
    readFile: string -> Result<string, string>,
    readDir: string -> Result<seq<string>, string>)

  /** A Go `(*x509.CertPool, error)` pair: `None` is nil. */
  type PoolResult = (Option<CertPool>, Option<string>)

  // ---------------------------------------------------------------------------
  // getCertPool (rootstores/rootstores.go:100-111)

  /** One pool entry per PEM text, in order. */
  function PemEntries(texts: seq<string>): seq<PoolEntry>
  {
    if texts == [] then [] else PemEntries(texts[..|texts| - 1]) + [PemText(texts[|texts| - 1])]
  }

  lemma {:induction false} PemEntriesAt(texts: seq<string>)
    ensures |PemEntries(texts)| == |texts|
    ensures forall k :: 0 <= k < |texts| ==> PemEntries(texts)[k] == PemText(texts[k])
  {
    if texts != [] {
      PemEntriesAt(texts[..|texts| - 1]);
    }
  }

  predicate AllAppend(lib: Library, texts: seq<string>)
  {
    forall k :: 0 <= k < |texts| ==> lib.appendsFromPem(texts[k])
  }

  /** What `getCertPool(rootCAs)` returns. */
  function PemListPool(lib: Library, rootCAs: seq<string>): PoolResult
  {
    if rootCAs == [] then (None, Some(NoRootCa))
    else if !AllAppend(lib, rootCAs) then (None, Some(AppendFailed))
    else (Some(CertPool(PemEntries(rootCAs))), None)
  }

  /**
   * `getCertPool`: an empty list is an error; otherwise every text is appended in order, and
   * the first that does not append discards the pool.
   */
  method GetCertPool(lib: Library, rootCAs: seq<string>) returns (pool: Option<CertPool>, err: Option<string>)
    ensures (pool, err) == PemListPool(lib, rootCAs)
    ensures pool.Some? <==> err.None?
    ensures pool.Some? ==>
      (|pool.value.entries| == |rootCAs| && forall k :: 0 <= k < |rootCAs| ==> pool.value.entries[k] == PemText(rootCAs[k]))
  {
    if |rootCAs| == 0 {
      return None, Some(NoRootCa);
    }
    var certPool := CertPool([]);
    for i := 0 to |rootCAs|
      invariant AllAppend(lib, rootCAs[..i])
      invariant certPool.entries == PemEntries(rootCAs[..i])
    {
      if !lib.appendsFromPem(rootCAs[i]) {
        return None, Some(AppendFailed);
      }
      assert rootCAs[..i + 1][..i] == rootCAs[..i];
      certPool := CertPool(certPool.entries + [PemText(rootCAs[i])]);
    }
    assert rootCAs[..|rootCAs|] == rootCAs;
    PemEntriesAt(rootCAs);
    return Some(certPool), None;
  }

  // ---------------------------------------------------------------------------
  // getCertPoolFromPEMFile (rootstores/rootstores.go:113-130)

  /** What `getCertPoolFromPEMFile(rootCAfile)` returns. */
  function PemFilePool(lib: Library, env: Env, rootCAfile: string): PoolResult
  {
    match Misc.FoundFile(rootCAfile, env.find(rootCAfile))
    case Err(e) => (None, Some(e))
    case Ok(path) =>
      if rootCAfile == "" then (None, None)
      else match env.readFile(path)
        case Err(e) => (None, Some(e))
        case Ok(text) =>
          if lib.appendsFromPem(text) then (Some(CertPool([PemText(text)])), None)
          else (None, Some(AppendToPoolFailed))
  }

  /**
   * `getCertPoolFromPEMFile`: the pool of the file `GetFile` finds for `rootCAfile`.  An empty
   * `rootCAfile` for which `GetFile` still succeeds gives neither a pool nor an error.
   */
  method GetCertPoolFromPemFile(lib: Library, env: Env, rootCAfile: string)
    returns (pool: Option<CertPool>, err: Option<string>)
    ensures (pool, err) == PemFilePool(lib, env, rootCAfile)
    ensures Misc.FoundFile(rootCAfile, env.find(rootCAfile)).Err? ==>
      pool.None? && err == Some(Misc.FoundFile(rootCAfile, env.find(rootCAfile)).error)
    ensures Misc.FoundFile(rootCAfile, env.find(rootCAfile)).Ok? && rootCAfile == "" ==> pool.None? && err.None?
    ensures pool.Some? ==> err.None? && rootCAfile != ""
  {
    var timestampRootCaFile := Misc.GetFile(rootCAfile, env.find(rootCAfile));
    if timestampRootCaFile.Err? {
      return None, Some(timestampRootCaFile.error);
    }
    var certPool: Option<CertPool> := None;
    if rootCAfile != "" {
      var rootFile := env.readFile(timestampRootCaFile.value);
      if rootFile.Err? {
        return None, Some(rootFile.error);
      }
      if !lib.appendsFromPem(rootFile.value) {
        return None, Some(AppendToPoolFailed);
      }
      certPool := Some(CertPool([PemText(rootFile.value)]));
    }
    return certPool, None;
  }

  // ---------------------------------------------------------------------------
  // getCertPoolFromDERFiles (rootstores/rootstores.go:132-152)

  /** The certificate in the DER file `name` of `dir`, or the read or parse error. */
  function LoadDer(lib: Library, env: Env, dir: string, name: string): Result<Certificate, string>
  {
    match env.readFile(PathJoin(dir, name))
    case Err(e) => Err(e)
    case Ok(der) => lib.parseCertificate(der)
  }

  /** The pool entries of the files `names`, in order, or the first file's error. */
  function DerEntries(lib: Library, env: Env, dir: string, names: seq<string>): Result<seq<PoolEntry>, string>
  {
    if names == [] then Ok([])
    else match LoadDer(lib, env, dir, names[0])
      case Err(e) => Err(e)
      case Ok(cert) =>
        match DerEntries(lib, env, dir, names[1..])
        case Err(e) => Err(e)
        case Ok(rest) => Ok([Parsed(cert)] + rest)
  }

  /** The entries are all there or none is: one per file, in order, when every file loads. */
  lemma {:induction false} DerEntriesAllOrNothing(lib: Library, env: Env, dir: string, names: seq<string>)
    ensures DerEntries(lib, env, dir, names).Ok? <==> forall k :: 0 <= k < |names| ==> LoadDer(lib, env, dir, names[k]).Ok?
    ensures DerEntries(lib, env, dir, names).Ok? ==>
      |DerEntries(lib, env, dir, names).value| == |names|
      && forall k :: 0 <= k < |names| ==>
        DerEntries(lib, env, dir, names).value[k] == Parsed(LoadDer(lib, env, dir, names[k]).value)
  {
    if names != [] {
      DerEntriesAllOrNothing(lib, env, dir, names[1..]);
      if DerEntries(lib, env, dir, names).Ok? {
        forall k | 0 < k < |names|
          ensures LoadDer(lib, env, dir, names[k]).Ok?
        {
          assert names[k] == names[1..][k - 1];
        }
      } else if LoadDer(lib, env, dir, names[0]).Ok? {
        var k :| 0 <= k < |names[1..]| && !LoadDer(lib, env, dir, names[1..][k]).Ok?;
        assert names[1..][k] == names[k + 1];
      }
    }
  }

  /** What `getCertPoolFromDERFiles(dir)` returns. */
  function DerDirPool(lib: Library, env: Env, dir: string): PoolResult
  {
    match env.readDir(dir)
    case Err(e) => (None, Some(e))
    case Ok(names) =>
      match DerEntries(lib, env, dir, names)
      case Err(e) => (None, Some(e))
      case Ok(entries) => (Some(CertPool(entries)), None)
  }

  /** `Prepend(es, r)` puts `es` in front of the entries of a successful `r`. */
  function Prepend(es: seq<PoolEntry>, r: Result<seq<PoolEntry>, string>): Result<seq<PoolEntry>, string>
  {
    match r
    case Err(e) => Err(e)
    case Ok(rest) => Ok(es + rest)
  }

  lemma PrependTwice(a: seq<PoolEntry>, b: seq<PoolEntry>, r: Result<seq<PoolEntry>, string>)
    ensures Prepend(a, Prepend(b, r)) == Prepend(a + b, r)
  {
    if r.Ok? {
      assert a + (b + r.value) == (a + b) + r.value;
    }
  }

  /**
   * `getCertPoolFromDERFiles`: every file of `dir` read and parsed as one DER certificate; the
   * first file that cannot be read or parsed discards the pool.  An empty directory gives an
   * empty pool, not nil.
   */
  method GetCertPoolFromDerFiles(lib: Library, env: Env, dir: string)
    returns (pool: Option<CertPool>, err: Option<string>)
    ensures (pool, err) == DerDirPool(lib, env, dir)
    ensures env.readDir(dir) == Ok([]) ==> pool == Some(CertPool([])) && err.None?
  {
    var certs := env.readDir(dir);
    if certs.Err? {
      return None, Some(certs.error);
    }
    var names := certs.value;
    var entries: seq<PoolEntry> := [];
    assert names[0..] == names;
    if DerEntries(lib, env, dir, names).Ok? {
      assert [] + DerEntries(lib, env, dir, names).value == DerEntries(lib, env, dir, names).value;
    }
    for i := 0 to |names|
      invariant DerEntries(lib, env, dir, names) == Prepend(entries, DerEntries(lib, env, dir, names[i..]))
    {
      assert names[i..][1..] == names[i + 1..];
      var localFile := PathJoin(dir, names[i]);
      var rootFile := env.readFile(localFile);
      if rootFile.Err? {
        return None, Some(rootFile.error);
      }
      var cert := lib.parseCertificate(rootFile.value);
      if cert.Err? {
        return None, Some(cert.error);
      }
      assert DerEntries(lib, env, dir, names[i..]) == Prepend([Parsed(cert.value)], DerEntries(lib, env, dir, names[i + 1..]));
      PrependTwice(entries, [Parsed(cert.value)], DerEntries(lib, env, dir, names[i + 1..]));
      entries := entries + [Parsed(cert.value)];
    }
    assert names[|names|..] == [];
    assert entries + [] == entries;
    return Some(CertPool(entries)), None;
  }

  // ---------------------------------------------------------------------------
  // The registry (rootstores/rootstores.go:23-98)

  /** Every store in the table is absent. */
  predicate AllAbsent(pools: map<string, Option<CertPool>>)
  {
    forall name :: name in pools ==> pools[name].None?
  }

  /** The list `LoadCCADBRoots` gives for a root type; a failed load leaves Go's nil list. */
  function CcadbList(rootType: nat, download: Ccadb.Download, loadCsv: Ccadb.LoadCsv,
                     parse: Ccadb.DistrustParser, now: Instant): seq<string>
    requires Ccadb.HasColumns(loadCsv, 2)
  {
    match Ccadb.CcadbRoots(rootType, download, loadCsv, parse, now)
    case Err(_) => []
    case Ok(roots) => roots
  }

  /** Everything `PoolRootCerts` reads besides the certificate library and the filesystem. */
  datatype Sources = Sources(
    download: Ccadb.Download,
    loadCsv: Ccadb.LoadCsv,
    parse: Ccadb.DistrustParser,
    now: Instant,
    appleRootStoreFile: string,
    windowsRootStoreDir: string)

  ghost predicate ValidSources(src: Sources)
  {
    Ccadb.HasColumns(src.loadCsv, 2)
  }

  /** The pool each store gets from one `PoolRootCerts` run. */
  datatype Built = Built(
    tls: Option<CertPool>,
    sMime: Option<CertPool>,
    google: Option<CertPool>,
    apple: Option<CertPool>,
    windows: Option<CertPool>,
    custom: Option<CertPool>)

  function BuiltStores(lib: Library, env: Env, src: Sources, rootCAfile: string): Built
    requires ValidSources(src)
  {
    Built(
      PemListPool(lib, CcadbList(Ccadb.TLS, src.download, src.loadCsv, src.parse, src.now)).0,
      PemListPool(lib, CcadbList(Ccadb.SMIME, src.download, src.loadCsv, src.parse, src.now)).0,
      PemFilePool(lib, env, GoogleServicesFile).0,
      PemFilePool(lib, env, src.appleRootStoreFile).0,
      DerDirPool(lib, env, src.windowsRootStoreDir).0,
      if rootCAfile != "" then PemFilePool(lib, env, rootCAfile).0 else None)
  }

  /** The table with the built stores written in; the custom store only for a custom file. */
  function Install(pools: map<string, Option<CertPool>>, b: Built, rootCAfile: string): map<string, Option<CertPool>>
  {
    var stores := pools[CcadbTls := b.tls][CcadbSMime := b.sMime][GoogleServices := b.google][Apple := b.apple][MicrosoftWindows := b.windows];
    if rootCAfile != "" then stores[Custom := b.custom] else stores
  }

  /** The table after `PoolRootCerts`: each store rebuilt on its own, errors only logged. */
  function Pooled(pools: map<string, Option<CertPool>>, lib: Library, env: Env, src: Sources, rootCAfile: string)
    : map<string, Option<CertPool>>
    requires ValidSources(src)
  {
    Install(pools, BuiltStores(lib, env, src, rootCAfile), rootCAfile)
  }

  /**
   * A failed CCADB load is not fatal on its own: the store is then built from an empty list,
   * which `getCertPool` refuses, so the store is absent.
   */
  lemma CcadbFailureAbsent(lib: Library, rootType: nat, download: Ccadb.Download, loadCsv: Ccadb.LoadCsv,
                           parse: Ccadb.DistrustParser, now: Instant)
    requires Ccadb.HasColumns(loadCsv, 2)
    requires Ccadb.CcadbRoots(rootType, download, loadCsv, parse, now).Err?
    ensures PemListPool(lib, CcadbList(rootType, download, loadCsv, parse, now)) == (None, Some(NoRootCa))
  {
  }

  /**
   * After pooling, the table is all absent exactly when every store that was written is
   * absent and every store that was not written already was.
   */
  lemma InstallAllAbsent(pools: map<string, Option<CertPool>>, b: Built, rootCAfile: string)
    ensures AllAbsent(Install(pools, b, rootCAfile)) <==>
      b.tls.None? && b.sMime.None? && b.google.None? && b.apple.None? && b.windows.None?
      && (rootCAfile != "" ==> b.custom.None?)
      && forall name :: name in pools && name !in InitialNames() && (name != Custom || rootCAfile == "") ==>
           pools[name].None?
  {
    var p := Install(pools, b, rootCAfile);
    assert p[CcadbTls] == b.tls && p[CcadbSMime] == b.sMime && p[GoogleServices] == b.google;
    assert p[Apple] == b.apple && p[MicrosoftWindows] == b.windows;
    assert rootCAfile != "" ==> p[Custom] == b.custom;
    if AllAbsent(p) {
      forall name | name in pools && name !in InitialNames() && (name != Custom || rootCAfile == "")
        ensures pools[name].None?
      {
        assert p[name] == pools[name];
      }
    } else {
      var name :| name in p && p[name].Some?;
      if name !in InitialNames() && (name != Custom || rootCAfile == "") {
        assert name in pools && p[name] == pools[name];
      }
    }
  }

  /** The table's initial value: the five store names, each nil. */
  function InitialPools(): (r: map<string, Option<CertPool>>)
    ensures r.Keys == InitialNames()
    ensures AllAbsent(r)
  {
    map[CcadbTls := None, CcadbSMime := None, GoogleServices := None, Apple := None, MicrosoftWindows := None]
  }

  /**
   * In a run that starts from the initial table, `IsEmptyRootCertsPool` holds after pooling
   * exactly when every store that was built, the custom one included when requested, is nil.
   */
  lemma PooledFromStartAbsent(b: Built, rootCAfile: string)
    ensures AllAbsent(Install(InitialPools(), b, rootCAfile)) <==>
      b.tls.None? && b.sMime.None? && b.google.None? && b.apple.None? && b.windows.None?
      && (rootCAfile != "" ==> b.custom.None?)
  {
    InstallAllAbsent(InitialPools(), b, rootCAfile);
  }

  /** One CCADB store: the list `LoadCCADBRoots` gives, or nil on its error, pooled. */
  method CcadbPool(lib: Library, rootType: nat, src: Sources) returns (pool: Option<CertPool>)
    requires ValidSources(src)
    ensures pool == PemListPool(lib, CcadbList(rootType, src.download, src.loadCsv, src.parse, src.now)).0
  {
    var rootStores := Ccadb.LoadCcadbRoots(rootType, src.download, src.loadCsv, src.parse, src.now);
    var list := if rootStores.Ok? then rootStores.value else [];
    var err;
    pool, err := GetCertPool(lib, list);
  }

  /** Every store `PoolRootCerts` builds, in its order; building reads nothing of the table. */
  method BuildStores(lib: Library, env: Env, src: Sources, rootCAfile: string) returns (built: Built)
    requires ValidSources(src)
    ensures built == BuiltStores(lib, env, src, rootCAfile)
  {
    var tlsPool := CcadbPool(lib, Ccadb.TLS, src);
    var sMimePool := CcadbPool(lib, Ccadb.SMIME, src);
    var googlePool, _ := GetCertPoolFromPemFile(lib, env, GoogleServicesFile);
    var applePool, _ := GetCertPoolFromPemFile(lib, env, src.appleRootStoreFile);
    var windowsPool, _ := GetCertPoolFromDerFiles(lib, env, src.windowsRootStoreDir);
    var customPool: Option<CertPool> := None;
    if rootCAfile != "" {
      var customErr;
      customPool, customErr := GetCertPoolFromPemFile(lib, env, rootCAfile);
    }
    built := Built(tlsPool, sMimePool, googlePool, applePool, windowsPool, customPool);
  }

  /** The process-wide `RootCertsPool` table. */
  class Registry {
    var pools: map<string, Option<CertPool>>

    /** `RootCertsPool`'s initialiser. */
    constructor ()
      ensures pools == InitialPools()
    {
      pools := map[CcadbTls := None, CcadbSMime := None, GoogleServices := None, Apple := None, MicrosoftWindows := None];
    }

    /** `IsEmptyRootCertsPool`: true exactly when no store in the table holds a pool. */
    method IsEmpty() returns (empty: bool)
      ensures empty <==> AllAbsent(pools)
    {
      var names := pools.Keys;
      while names != {}
        invariant names <= pools.Keys
        invariant forall name :: name in pools.Keys - names ==> pools[name].None?
        decreases |names|
      {
        var name :| name in names;
        if pools[name].Some? {
          return false;
        }
        names := names - {name};
      }
      return true;
    }

    /**
     * `PoolRootCerts`: rebuilds the TLS, S/MIME, Google, Apple and Windows stores, and the
     * custom store when `rootCAfile` is set; each store that fails is left nil and the others
     * are still built.  It always returns nil.  The code-signing store is never written.
     */
    method PoolRootCerts(lib: Library, env: Env, src: Sources, rootCAfile: string) returns (err: Option<string>)
      requires ValidSources(src)
      modifies this
      ensures err.None?
      ensures pools == Pooled(old(pools), lib, env, src, rootCAfile)
    {
      var built := BuildStores(lib, env, src, rootCAfile);
      pools := pools[CcadbTls := built.tls];
      pools := pools[CcadbSMime := built.sMime];
      pools := pools[GoogleServices := built.google];
      pools := pools[Apple := built.apple];
      pools := pools[MicrosoftWindows := built.windows];
      if rootCAfile != "" {
        pools := pools[Custom := built.custom];
      }
      return None;
    }
  }
}
