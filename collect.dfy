/**
 * The file map of the root-store collector (rootstores/collect/collect.go): which local
 * root-store files are uploaded, and under which object key.  The clock, the `os.Stat`
 * outcomes and the Windows directory listing are parameters, and so are the bucket prefixes
 * and paths this model does not see the values of.
 */
module Collect {
  import opened Wrappers
  import opened Strings
  import opened Dates
  import Misc
  import Ccadb
  import RootStores

  /** rootstores/google_services.go:6. */
  const GoogleServicesS3RootStorePrefix := "rootstores/format=raw/store=google-services"

  const FileMapNil := "fileMap is nil"

  /** The bucket prefixes and local paths declared outside the collector. */
  datatype Layout = Layout(
    ccadbTlsS3Prefix: string,
    ccadbSMimeS3Prefix: string,
    appleS3RootStorePrefix: string,
    windowsS3Prefix: string,
    appleRootStoreFile: string,
    windowsRootStoreDir: string)

  /** `fmt.Sprintf("%s/%s/%s_%s", prefix, yearMonthDay, timestampStr, baseName)`. */
  function StampedKey(prefix: string, yearMonthDay: string, timestampStr: string, baseName: string): string
  {
    prefix + "/" + yearMonthDay + "/" + timestampStr + "_" + baseName
  }

  /** "<prefix>/year=YYYY/month=MM/day=DD/YYYYMMDD_<baseName>" for the day `d`. */
  function DatedKey(prefix: string, d: Date, baseName: string): string
  {
    StampedKey(prefix, Segment(d), Stamp(d), baseName)
  }

  /**
   * `filepath.Base` of the three root-list files.  The model writes these names where the
   * collector and the uploader call `filepath.Base` on the constant paths.
   */
  lemma RootListBases()
    ensures Base(Ccadb.TlsRootsFile) == Ccadb.TlsRootsName
    ensures Base(Ccadb.SMimeRootsFile) == Ccadb.SMimeRootsName
    ensures Base(RootStores.GoogleServicesFile) == RootStores.GoogleServicesName
  {
    assert '/' !in Ccadb.TlsRootsName && '/' !in Ccadb.SMimeRootsName && '/' !in RootStores.GoogleServicesName;
    assert Ccadb.TlsRootsFile == "shared_dir" + "/" + Ccadb.TlsRootsName;
    assert Ccadb.SMimeRootsFile == "shared_dir" + "/" + Ccadb.SMimeRootsName;
    assert RootStores.GoogleServicesFile == "shared_dir" + "/" + RootStores.GoogleServicesName;
    BaseOfJoined("shared_dir", Ccadb.TlsRootsName);
    BaseOfJoined("shared_dir", Ccadb.SMimeRootsName);
    BaseOfJoined("shared_dir", RootStores.GoogleServicesName);
  }

  /** The three root-list files have different local paths. */
  lemma RootListFilesDistinct()
    ensures Ccadb.TlsRootsFile != Ccadb.SMimeRootsFile
    ensures Ccadb.TlsRootsFile != RootStores.GoogleServicesFile
    ensures Ccadb.SMimeRootsFile != RootStores.GoogleServicesFile
  {
    assert |Ccadb.TlsRootsFile| == 45 && |Ccadb.SMimeRootsFile| == 44 && |RootStores.GoogleServicesFile| == 35;
  }

  /** A Windows certificate's key: "<prefix>/<yearMonthDay>/<base name>", with no stamp. */
  function WindowsKey(prefix: string, yearMonthDay: string, name: string): string
  {
    prefix + "/" + yearMonthDay + "/" + Base(name)
  }

  /**
   * A key the collector writes is one `DownloadS3` dates back to the day it was written on,
   * whenever its date parser reads a YYYYMMDD stamp as `time.Parse` does.
   */
  lemma DatedKeyReadsBack(prefix: string, d: Date, baseName: string, parse: Misc.DateParser)
    requires Valid(d) && d.year < 10000
    requires '/' !in baseName
    requires parse(Stamp(d)) == ParseLayout(Stamp(d), "")
    ensures Misc.KeyDate(parse)(DatedKey(prefix, d, baseName)) == Ok(d)
  {
    StampRoundTrip(d);
    var stamp := Stamp(d);
    assert '/' !in stamp && '_' !in stamp by {
      forall i | 0 <= i < |stamp|
        ensures stamp[i] != '/' && stamp[i] != '_'
      {
        assert IsDigit(stamp[i]);
      }
    }
    StampTextOf(prefix + "/" + Segment(d), stamp, baseName);
  }

  /** The same holds for the key of any file, the Apple store's included, whose path is not all slashes. */
  lemma FileKeyReadsBack(prefix: string, d: Date, file: string, parse: Misc.DateParser)
    requires Valid(d) && d.year < 10000
    requires Base(file) != "/"
    requires parse(Stamp(d)) == ParseLayout(Stamp(d), "")
    ensures Misc.KeyDate(parse)(DatedKey(prefix, d, Base(file))) == Ok(d)
  {
    BaseHasNoSlash(file);
    DatedKeyReadsBack(prefix, d, Base(file), parse);
  }

  /** The stamp text of "<dir>/<stamp>_<baseName>" is the stamp. */
  lemma StampTextOf(dir: string, stamp: string, baseName: string)
    requires '/' !in stamp && '_' !in stamp && '/' !in baseName
    ensures Misc.KeyStampText(dir + "/" + stamp + "_" + baseName) == stamp
  {
    var name := stamp + ['_'] + baseName;
    assert dir + "/" + stamp + "_" + baseName == dir + "/" + name;
    BaseOfJoined(dir, name);
    FirstFieldOf(stamp, baseName, '_');
  }

  /** The map `tryWindowsFileMap` receives a pointer to; `null` is Go's nil pointer. */
  class FileMap {
    var entries: map<string, string>

    constructor ()
      ensures entries == map[]
    {
      entries := map[];
    }
  }

  /** `m` with one entry per directory entry of `dir` added, in listing order. */
  function AddWindows(m: map<string, string>, dir: string, prefix: string, yearMonthDay: string, names: seq<string>)
    : map<string, string>
  {
    if names == [] then m
    else
      var last := names[|names| - 1];
      AddWindows(m, dir, prefix, yearMonthDay, names[..|names| - 1])[PathJoin(dir, last) := WindowsKey(prefix, yearMonthDay, last)]
  }

  /** Whether `k` is the local path of one of the directory entries. */
  predicate Listed(k: string, dir: string, names: seq<string>)
  {
    exists j :: 0 <= j < |names| && k == PathJoin(dir, names[j])
  }

  /**
   * Adding the Windows entries keeps every earlier entry whose path is not a Windows file,
   * and adds exactly the Windows files' paths.
   */
  lemma {:induction false} AddWindowsKeys(m: map<string, string>, dir: string, prefix: string, yearMonthDay: string,
                                          names: seq<string>, k: string)
    ensures k in AddWindows(m, dir, prefix, yearMonthDay, names) <==> k in m || Listed(k, dir, names)
    ensures k in m && !Listed(k, dir, names) ==> AddWindows(m, dir, prefix, yearMonthDay, names)[k] == m[k]
  {
    if names != [] {
      var front := names[..|names| - 1];
      AddWindowsKeys(m, dir, prefix, yearMonthDay, front, k);
      if Listed(k, dir, names) && k != PathJoin(dir, names[|names| - 1]) {
        var j :| 0 <= j < |names| && k == PathJoin(dir, names[j]);
        assert front[j] == names[j];
      }
      if Listed(k, dir, front) {
        var j :| 0 <= j < |front| && k == PathJoin(dir, front[j]);
        assert names[j] == front[j];
      }
    }
  }

  /** Distinct entry names join to distinct paths. */
  lemma PathJoinInjective(dir: string, a: string, b: string)
    requires a != "" && b != ""
    requires PathJoin(dir, a) == PathJoin(dir, b)
    ensures a == b
  {
    if dir != "" {
      assert a == PathJoin(dir, a)[|dir| + 1..];
    }
  }

  /** Every Windows file is mapped to its own key when the directory's names are distinct. */
  lemma {:induction false} AddWindowsValues(m: map<string, string>, dir: string, prefix: string, yearMonthDay: string,
                                            names: seq<string>, j: nat)
    requires j < |names|
    requires forall a, b :: 0 <= a < b < |names| ==> names[a] != names[b]
    requires forall a :: 0 <= a < |names| ==> names[a] != ""
    ensures PathJoin(dir, names[j]) in AddWindows(m, dir, prefix, yearMonthDay, names)
    ensures AddWindows(m, dir, prefix, yearMonthDay, names)[PathJoin(dir, names[j])] == WindowsKey(prefix, yearMonthDay, names[j])
  {
    var last := names[|names| - 1];
    if j < |names| - 1 {
      AddWindowsValues(m, dir, prefix, yearMonthDay, names[..|names| - 1], j);
      if PathJoin(dir, names[j]) == PathJoin(dir, last) {
        PathJoinInjective(dir, names[j], last);
      }
    }
  }

  /**
   * `tryWindowsFileMap`: a nil map, a failed stat or a failed listing of the Windows directory
   * is an error and changes nothing; otherwise every file of the directory is added.
   */
  method TryWindowsFileMap(fileMap: FileMap?, yearMonthDay: string, layout: Layout,
                           stat: Option<string>, listing: Result<seq<string>, string>)
    returns (err: Option<string>)
    modifies fileMap
    ensures fileMap == null ==> err == Some(FileMapNil)
    ensures fileMap != null && stat.Some? ==> err == stat && fileMap.entries == old(fileMap.entries)
    ensures fileMap != null && stat.None? && listing.Err? ==>
      err == Some(listing.error) && fileMap.entries == old(fileMap.entries)
    ensures fileMap != null && stat.None? && listing.Ok? ==>
      err.None?
      && fileMap.entries == AddWindows(old(fileMap.entries), layout.windowsRootStoreDir, layout.windowsS3Prefix,
                                       yearMonthDay, listing.value)
  {
    if fileMap == null {
      return Some(FileMapNil);
    }
    if stat.Some? {
      return stat;
    }
    if listing.Err? {
      return Some(listing.error);
    }
    var certs := listing.value;
    for i := 0 to |certs|
      invariant fileMap.entries == AddWindows(old(fileMap.entries), layout.windowsRootStoreDir, layout.windowsS3Prefix,
                                              yearMonthDay, certs[..i])
    {
      assert certs[..i + 1][..i] == certs[..i];
      var localFile := PathJoin(layout.windowsRootStoreDir, certs[i]);
      fileMap.entries := fileMap.entries[localFile := WindowsKey(layout.windowsS3Prefix, yearMonthDay, certs[i])];
    }
    assert certs[..|certs|] == certs;
    return None;
  }

  /** What the three root-list files contribute under `-collect-others`. */
  function OthersEntries(layout: Layout, d: Date): map<string, string>
  {
    map[Ccadb.TlsRootsFile := DatedKey(layout.ccadbTlsS3Prefix, d, Ccadb.TlsRootsName)]
      [Ccadb.SMimeRootsFile := DatedKey(layout.ccadbSMimeS3Prefix, d, Ccadb.SMimeRootsName)]
      [RootStores.GoogleServicesFile := DatedKey(GoogleServicesS3RootStorePrefix, d, RootStores.GoogleServicesName)]
  }

  /** The map before the Windows stage: the root lists, then the Apple file if it exists. */
  function BeforeWindows(appleCollect: bool, othersCollect: bool, layout: Layout, today: Date, appleStat: Option<string>)
    : map<string, string>
  {
    var others := if othersCollect then OthersEntries(layout, today) else map[];
    if appleCollect && appleStat.None? then
      others[layout.appleRootStoreFile := DatedKey(layout.appleS3RootStorePrefix, today, Base(layout.appleRootStoreFile))]
    else others
  }

  /** What `getFileMap` returns; a failed Windows stage keeps the map it was given. */
  function FileMapOf(appleCollect: bool, othersCollect: bool, windowsCollect: bool, layout: Layout, today: Date,
                     appleStat: Option<string>, windowsStat: Option<string>, windowsListing: Result<seq<string>, string>)
    : map<string, string>
  {
    var m := BeforeWindows(appleCollect, othersCollect, layout, today, appleStat);
    if windowsCollect && windowsStat.None? && windowsListing.Ok? then
      AddWindows(m, layout.windowsRootStoreDir, layout.windowsS3Prefix, Segment(today), windowsListing.value)
    else m
  }

  /** With no collection flag set, nothing is uploaded. */
  lemma NothingCollected(layout: Layout, today: Date, appleStat: Option<string>, windowsStat: Option<string>,
                         windowsListing: Result<seq<string>, string>)
    ensures FileMapOf(false, false, false, layout, today, appleStat, windowsStat, windowsListing) == map[]
  {
  }

  /**
   * `-collect-others` alone uploads exactly the TLS, S/MIME and Google files, each under its
   * own dated key; the code-signing list is never among them.
   */
  lemma OthersOnly(layout: Layout, today: Date, appleStat: Option<string>, windowsStat: Option<string>,
                   windowsListing: Result<seq<string>, string>)
    ensures var m := FileMapOf(false, true, false, layout, today, appleStat, windowsStat, windowsListing);
      m.Keys == {Ccadb.TlsRootsFile, Ccadb.SMimeRootsFile, RootStores.GoogleServicesFile}
      && m[Ccadb.TlsRootsFile] == DatedKey(layout.ccadbTlsS3Prefix, today, Ccadb.TlsRootsName)
      && m[Ccadb.SMimeRootsFile] == DatedKey(layout.ccadbSMimeS3Prefix, today, Ccadb.SMimeRootsName)
      && m[RootStores.GoogleServicesFile] == DatedKey(GoogleServicesS3RootStorePrefix, today, RootStores.GoogleServicesName)
  {
    var m := FileMapOf(false, true, false, layout, today, appleStat, windowsStat, windowsListing);
    assert m == OthersEntries(layout, today);
    RootListFilesDistinct();
    var a, b, c := Ccadb.TlsRootsFile, Ccadb.SMimeRootsFile, RootStores.GoogleServicesFile;
    assert m == map[a := m[a], b := m[b], c := m[c]];
  }

  /** The Apple file is uploaded, absent a Windows stage, exactly when its stat succeeds. */
  lemma AppleWhenPresent(othersCollect: bool, layout: Layout, today: Date, appleStat: Option<string>,
                         windowsStat: Option<string>, windowsListing: Result<seq<string>, string>)
    ensures var m := FileMapOf(true, othersCollect, false, layout, today, appleStat, windowsStat, windowsListing);
      (appleStat.None? ==>
         layout.appleRootStoreFile in m
         && m[layout.appleRootStoreFile] == DatedKey(layout.appleS3RootStorePrefix, today, Base(layout.appleRootStoreFile)))
      && (appleStat.Some? ==> m == FileMapOf(false, othersCollect, false, layout, today, appleStat, windowsStat, windowsListing))
  {
  }

  /**
   * The Windows stage only adds: every entry made before it is still there, and unless a
   * Windows file has the same local path it keeps its key.
   */
  lemma WindowsStageKeeps(appleCollect: bool, othersCollect: bool, windowsCollect: bool, layout: Layout, today: Date,
                          appleStat: Option<string>, windowsStat: Option<string>,
                          windowsListing: Result<seq<string>, string>, k: string)
    requires k in BeforeWindows(appleCollect, othersCollect, layout, today, appleStat)
    ensures var m := FileMapOf(appleCollect, othersCollect, windowsCollect, layout, today, appleStat, windowsStat, windowsListing);
      k in m
      && ((windowsListing.Err? || !Listed(k, layout.windowsRootStoreDir, windowsListing.value)) ==>
            m[k] == BeforeWindows(appleCollect, othersCollect, layout, today, appleStat)[k])
  {
    if windowsCollect && windowsStat.None? && windowsListing.Ok? {
      AddWindowsKeys(BeforeWindows(appleCollect, othersCollect, layout, today, appleStat), layout.windowsRootStoreDir,
                     layout.windowsS3Prefix, Segment(today), windowsListing.value, k);
    }
  }

  /**
   * `getFileMap`: the upload plan for today's date.  `appleStat` and `windowsStat` are the
   * errors of `os.Stat` on the Apple file and the Windows directory, `windowsListing` is
   * `os.ReadDir` of that directory.
   */
  method GetFileMap(appleCollect: bool, othersCollect: bool, windowsCollect: bool, layout: Layout, today: Date,
                    appleStat: Option<string>, windowsStat: Option<string>, windowsListing: Result<seq<string>, string>)
    returns (fileMap: FileMap)
    ensures fresh(fileMap)
    ensures fileMap.entries == FileMapOf(appleCollect, othersCollect, windowsCollect, layout, today,
                                         appleStat, windowsStat, windowsListing)
  {
    var yearMonthDay := Segment(today);
    var timestampStr := Stamp(today);
    fileMap := new FileMap();
    if othersCollect {
      fileMap.entries := fileMap.entries[Ccadb.TlsRootsFile :=
        StampedKey(layout.ccadbTlsS3Prefix, yearMonthDay, timestampStr, Ccadb.TlsRootsName)];
      fileMap.entries := fileMap.entries[Ccadb.SMimeRootsFile :=
        StampedKey(layout.ccadbSMimeS3Prefix, yearMonthDay, timestampStr, Ccadb.SMimeRootsName)];
      fileMap.entries := fileMap.entries[RootStores.GoogleServicesFile :=
        StampedKey(GoogleServicesS3RootStorePrefix, yearMonthDay, timestampStr, RootStores.GoogleServicesName)];
      assert fileMap.entries == OthersEntries(layout, today);
    }
    if appleCollect {
      if appleStat.None? {
        fileMap.entries := fileMap.entries[layout.appleRootStoreFile :=
          StampedKey(layout.appleS3RootStorePrefix, yearMonthDay, timestampStr, Base(layout.appleRootStoreFile))];
      }
    }
    assert fileMap.entries == BeforeWindows(appleCollect, othersCollect, layout, today, appleStat);
    if windowsCollect {
      var err := TryWindowsFileMap(fileMap, yearMonthDay, layout, windowsStat, windowsListing);
    }
  }
}
