/**
 * The path and snapshot helpers of misc/misc.go: substring offsets (`Contains`), the first
 * file naming a base name (`GetFile`), and the choice of the latest dated object key in a
 * bucket listing (`DownloadS3`, `DownloadS3Files`).  The filesystem walk (`Find`), the bucket
 * listing and the object download are inputs: a file list, a sequence of listed objects and a
 * `fetch` function giving the download error of a key, if any.
 */
module Misc {
  import opened Wrappers
  import opened Strings
  import opened Dates

  // ---------------------------------------------------------------------------
  // Contains (misc/misc.go:288-295)

  predicate OccursAt(needle: string, haystack: string, i: nat)
  {
    i + |needle| <= |haystack| && haystack[i..i + |needle|] == needle
  }

  function OffsetsFrom(needle: string, haystack: string, from: nat): seq<nat>
    decreases |haystack| - from
  {
    if needle == "" || from + |needle| > |haystack| then []
    else (if OccursAt(needle, haystack, from) then [from] else []) + OffsetsFrom(needle, haystack, from + 1)
  }

  /**
   * `suffixarray.New(haystack).Lookup(needle, -1)`.  Lookup finds nothing for an empty
   * needle.  The offsets are listed in increasing order here; Go lists them in suffix order,
   * which only the order of the result can tell apart.
   */
  function Contains(needle: string, haystack: string): seq<nat>
  {
    OffsetsFrom(needle, haystack, 0)
  }

  lemma {:induction false} OffsetsFromExactly(needle: string, haystack: string, from: nat, i: nat)
    ensures i in OffsetsFrom(needle, haystack, from) <==> needle != "" && from <= i && OccursAt(needle, haystack, i)
    decreases |haystack| - from
  {
    if !(needle == "" || from + |needle| > |haystack|) {
      OffsetsFromExactly(needle, haystack, from + 1, i);
    }
  }

  /** The offsets are exactly the positions where a non-empty needle occurs. */
  lemma ContainsExactly(needle: string, haystack: string, i: nat)
    ensures i in Contains(needle, haystack) <==> needle != "" && OccursAt(needle, haystack, i)
  {
    OffsetsFromExactly(needle, haystack, 0, i);
  }

  // ---------------------------------------------------------------------------
  // GetFile (misc/misc.go:253-268)

  const FileNotFound := "file not found"

  /** `len(Contains(name, file)) > 0`. */
  predicate Mentions(file: string, name: string)
  {
    |Contains(name, file)| > 0
  }

  /** A file mentions a name exactly when the name is non-empty and occurs in its path. */
  lemma MentionsMeans(file: string, name: string)
    ensures Mentions(file, name) <==> name != "" && exists i: nat :: OccursAt(name, file, i)
  {
    if Mentions(file, name) {
      ContainsExactly(name, file, Contains(name, file)[0]);
    }
    if name != "" && exists i: nat :: OccursAt(name, file, i) {
      var i: nat :| OccursAt(name, file, i);
      ContainsExactly(name, file, i);
    }
  }

  predicate NoneMention(files: seq<string>, name: string)
  {
    forall j :: 0 <= j < |files| ==> !Mentions(files[j], name)
  }

  /** The first of `files` that mentions `name`, or the "file not found" error. */
  function FirstMentioning(files: seq<string>, name: string): Result<string, string>
  {
    if files == [] then Err(FileNotFound)
    else if Mentions(files[0], name) then Ok(files[0])
    else FirstMentioning(files[1..], name)
  }

  /** What `GetFile(filePath)` returns when `Find` gives `found`. */
  function FoundFile(filePath: string, found: Result<seq<string>, string>): Result<string, string>
  {
    match found
    case Err(e) => Err(e)
    case Ok(files) => FirstMentioning(files, Base(filePath))
  }

  /**
   * `GetFile`: the first file, in the order `Find` lists them, whose path contains the base
   * name of `filePath`.  `found` is the result of `Find` (its error propagates).
   */
  method GetFile(filePath: string, found: Result<seq<string>, string>) returns (r: Result<string, string>)
    ensures r == FoundFile(filePath, found)
    ensures found.Err? ==> r == Err(found.error)
    ensures found.Ok? && r.Ok? ==>
      exists k :: 0 <= k < |found.value| && found.value[k] == r.value
        && Mentions(r.value, Base(filePath)) && NoneMention(found.value[..k], Base(filePath))
    ensures found.Ok? && r.Err? ==> r.error == FileNotFound && NoneMention(found.value, Base(filePath))
  {
    if found.Err? {
      return Err(found.error);
    }
    var files := found.value;
    var fileName := Base(filePath);
    var i := 0;
    while i < |files|
      invariant 0 <= i <= |files|
      invariant NoneMention(files[..i], fileName)
      invariant FirstMentioning(files[i..], fileName) == FirstMentioning(files, fileName)
    {
      var foundIdx := Contains(fileName, files[i]);
      if |foundIdx| > 0 {
        assert found.value[i] == files[i] && Mentions(files[i], fileName) && NoneMention(found.value[..i], fileName);
        return Ok(files[i]);
      }
      assert files[..i + 1] == files[..i] + [files[i]];
      assert files[i..][1..] == files[i + 1..];
      i := i + 1;
    }
    assert files[..i] == files;
    return Err(FileNotFound);
  }

  // ---------------------------------------------------------------------------
  // Choosing the latest key (the descending sort and element 0 in DownloadS3 and
  // DownloadS3Files)

  /** The greatest string of a non-empty sequence in Go's `<` order. */
  function Greatest(xs: seq<string>): string
    requires |xs| > 0
  {
    if |xs| == 1 then xs[0]
    else
      var g := Greatest(xs[..|xs| - 1]);
      if LexLess(g, xs[|xs| - 1]) then xs[|xs| - 1] else g
  }

  predicate IsLatest(x: string, xs: seq<string>)
  {
    x in xs && forall j :: 0 <= j < |xs| ==> !LexLess(x, xs[j])
  }

  /** `Greatest` is an element that no element exceeds: element 0 after a descending sort. */
  lemma {:induction false} GreatestIsLatest(xs: seq<string>)
    requires |xs| > 0
    ensures IsLatest(Greatest(xs), xs)
  {
    if |xs| == 1 {
      LexLessIrreflexive(xs[0]);
    } else {
      var init, last := xs[..|xs| - 1], xs[|xs| - 1];
      GreatestIsLatest(init);
      var g := Greatest(init);
      assert xs == init + [last];
      if LexLess(g, last) {
        forall j | 0 <= j < |xs|
          ensures !LexLess(last, xs[j])
        {
          if j < |xs| - 1 {
            assert xs[j] == init[j];
            if LexLess(last, xs[j]) {
              LexLessTransitive(g, last, xs[j]);
            }
          } else {
            LexLessIrreflexive(last);
          }
        }
      } else {
        forall j | 0 <= j < |xs|
          ensures !LexLess(g, xs[j])
        {
          if j < |xs| - 1 {
            assert xs[j] == init[j];
          }
        }
      }
    }
  }

  /** There is only one latest element, so the sort order of equal-ranked keys never matters. */
  lemma LatestUnique(a: string, b: string, xs: seq<string>)
    requires IsLatest(a, xs) && IsLatest(b, xs)
    ensures a == b
  {
    if a != b {
      LexLessTotal(a, b);
    }
  }

  method Latest(xs: seq<string>) returns (best: string)
    requires |xs| > 0
    ensures best == Greatest(xs)
  {
    best := xs[0];
    var i := 1;
    while i < |xs|
      invariant 1 <= i <= |xs|
      invariant best == Greatest(xs[..i])
    {
      assert xs[..i + 1][..i] == xs[..i];
      if LexLess(best, xs[i]) {
        best := xs[i];
      }
      i := i + 1;
    }
    assert xs[..i] == xs;
  }

  // ---------------------------------------------------------------------------
  // Listings

  /** One item of `ListObjects`: an object key, or the error carried by the item. */
  datatype ListedObject = Object(key: string) | ListError(message: string)

  /**
   * `time.Parse("20060102", text)`: a parameter, so that the calendar check stays out of the
   * proofs about listings; `Dates.ParseLayout(text, "")` is what it computes.
   */
  type DateParser = string -> Option<Date>

  /** The error of `time.Parse(layout, value)`; Go's trailing detail is not modelled. */
  function ParseError(value: string, layout: string): string
  {
    "parsing time " + Quote(value) + " as " + Quote(layout)
  }

  function NoFilesFound(prefix: string, date: Date): string
  {
    "no files found under prefix " + prefix + " for date " + Stamp(date) + " or earlier"
  }

  /** `fetch(key)` is the error of downloading `key`, if any. */
  type Fetch = string -> Option<string>

  // ---------------------------------------------------------------------------
  // The listing loops, for any way of reading a key

  /**
   * The error of the first listed object from index `from` on that aborts a listing loop: an
   * item carrying an error, or a key that `classify` rejects.
   */
  function FirstError<T>(listing: seq<ListedObject>, classify: string -> Result<T, string>, from: nat): Option<string>
    decreases |listing| - from
  {
    if from >= |listing| then None
    else match listing[from]
      case ListError(m) => Some(m)
      case Object(key) =>
        match classify(key)
        case Err(e) => Some(e)
        case Ok(_) => FirstError(listing, classify, from + 1)
  }

  /** The object at index `i` is a key whose date is on or before `date`. */
  predicate Dated(listing: seq<ListedObject>, dateOf: string -> Result<Date, string>, i: nat, date: Date)
    requires i < |listing|
  {
    listing[i].Object? && dateOf(listing[i].key).Ok? && NotAfter(dateOf(listing[i].key).value, date)
  }

  /** The keys among the first `n` objects dated on or before `date`, in listing order. */
  function Candidates(listing: seq<ListedObject>, dateOf: string -> Result<Date, string>, n: nat, date: Date): seq<string>
    requires n <= |listing|
  {
    if n == 0 then []
    else Candidates(listing, dateOf, n - 1, date) + (if Dated(listing, dateOf, n - 1, date) then [listing[n - 1].key] else [])
  }

  /** What the listing loop of `DownloadS3` yields: the candidates, or the first error. */
  function DatedKeys(listing: seq<ListedObject>, dateOf: string -> Result<Date, string>, date: Date): Result<seq<string>, string>
  {
    match FirstError(listing, dateOf, 0)
    case Some(e) => Err(e)
    case None => Ok(Candidates(listing, dateOf, |listing|, date))
  }

  /** A key is a candidate iff it is listed with a date on or before `date`. */
  lemma {:induction false} CandidatesMeans(listing: seq<ListedObject>, dateOf: string -> Result<Date, string>,
                                           n: nat, date: Date, key: string)
    requires n <= |listing|
    ensures key in Candidates(listing, dateOf, n, date) <==>
      exists i :: 0 <= i < n && Dated(listing, dateOf, i, date) && listing[i] == Object(key)
  {
    if n > 0 {
      CandidatesMeans(listing, dateOf, n - 1, date, key);
      if Dated(listing, dateOf, n - 1, date) && listing[n - 1] == Object(key) {
        assert key in Candidates(listing, dateOf, n, date);
      }
    }
  }

  /** The listing loop of `DownloadS3` (misc/misc.go:194-206). */
  method ScanDated(listing: seq<ListedObject>, dateOf: string -> Result<Date, string>, date: Date)
    returns (r: Result<seq<string>, string>)
    ensures r == DatedKeys(listing, dateOf, date)
  {
    var candidates := [];
    var i := 0;
    while i < |listing|
      invariant 0 <= i <= |listing|
      invariant FirstError(listing, dateOf, 0) == FirstError(listing, dateOf, i)
      invariant candidates == Candidates(listing, dateOf, i, date)
    {
      var obj := listing[i];
      if obj.ListError? {
        return Err(obj.message);
      }
      var timestamp := dateOf(obj.key);
      if timestamp.Err? {
        return Err(timestamp.error);
      }
      if NotAfter(timestamp.value, date) {
        candidates := candidates + [obj.key];
      }
      i := i + 1;
    }
    return Ok(candidates);
  }

  /** The object at index `i` is dated on or before `date` and lies under segment `seg`. */
  predicate InGroup(listing: seq<ListedObject>, segmentOf: string -> Result<(string, Date), string>,
                    i: nat, date: Date, seg: string)
    requires i < |listing|
  {
    listing[i].Object? && segmentOf(listing[i].key).Ok?
    && segmentOf(listing[i].key).value.0 == seg && NotAfter(segmentOf(listing[i].key).value.1, date)
  }

  /** The keys among the first `n` objects that belong to segment `seg`, in listing order. */
  function KeysIn(listing: seq<ListedObject>, segmentOf: string -> Result<(string, Date), string>,
                  n: nat, date: Date, seg: string): seq<string>
    requires n <= |listing|
  {
    if n == 0 then []
    else
      KeysIn(listing, segmentOf, n - 1, date, seg)
      + (if InGroup(listing, segmentOf, n - 1, date, seg) then [listing[n - 1].key] else [])
  }

  function GroupOrEmpty(groups: map<string, seq<string>>, seg: string): seq<string>
  {
    if seg in groups then groups[seg] else []
  }

  /** The map the listing loop of `DownloadS3Files` builds from the first `n` objects. */
  function Groups(listing: seq<ListedObject>, segmentOf: string -> Result<(string, Date), string>,
                  n: nat, date: Date): map<string, seq<string>>
    requires n <= |listing|
  {
    if n == 0 then map[]
    else
      var g := Groups(listing, segmentOf, n - 1, date);
      var obj := listing[n - 1];
      if obj.Object? && segmentOf(obj.key).Ok? && NotAfter(segmentOf(obj.key).value.1, date) then
        var seg := segmentOf(obj.key).value.0;
        g[seg := GroupOrEmpty(g, seg) + [obj.key]]
      else g
  }

  /** Each group holds exactly the keys of its segment dated on or before `date`, in order. */
  lemma {:induction false} GroupsMeans(listing: seq<ListedObject>, segmentOf: string -> Result<(string, Date), string>,
                                       n: nat, date: Date, seg: string)
    requires n <= |listing|
    ensures GroupOrEmpty(Groups(listing, segmentOf, n, date), seg) == KeysIn(listing, segmentOf, n, date, seg)
    ensures seg in Groups(listing, segmentOf, n, date) ==> KeysIn(listing, segmentOf, n, date, seg) != []
  {
    if n > 0 {
      GroupsMeans(listing, segmentOf, n - 1, date, seg);
      var g := Groups(listing, segmentOf, n - 1, date);
      var prev := KeysIn(listing, segmentOf, n - 1, date, seg);
      if InGroup(listing, segmentOf, n - 1, date, seg) {
        assert Groups(listing, segmentOf, n, date) == g[seg := prev + [listing[n - 1].key]];
      }
    }
  }

  /** The listing loop of `DownloadS3Files` (misc/misc.go:138-157). */
  method ScanGroups(listing: seq<ListedObject>, segmentOf: string -> Result<(string, Date), string>, date: Date)
    returns (r: Result<map<string, seq<string>>, string>)
    ensures FirstError(listing, segmentOf, 0).Some? ==> r == Err(FirstError(listing, segmentOf, 0).value)
    ensures FirstError(listing, segmentOf, 0).None? ==> r == Ok(Groups(listing, segmentOf, |listing|, date))
  {
    var groups := map[];
    var i := 0;
    while i < |listing|
      invariant 0 <= i <= |listing|
      invariant FirstError(listing, segmentOf, 0) == FirstError(listing, segmentOf, i)
      invariant groups == Groups(listing, segmentOf, i, date)
    {
      var obj := listing[i];
      if obj.ListError? {
        return Err(obj.message);
      }
      var matched := segmentOf(obj.key);
      if matched.Err? {
        return Err(matched.error);
      }
      var (seg, timestamp) := matched.value;
      if NotAfter(timestamp, date) {
        groups := groups[seg := GroupOrEmpty(groups, seg) + [obj.key]];
      }
      i := i + 1;
    }
    return Ok(groups);
  }

  /** The `for k := range m` loop collecting the keys of a map, in whatever order it visits them. */
  method KeysOf(m: map<string, seq<string>>) returns (ks: seq<string>)
    ensures forall k :: k in ks <==> k in m
  {
    ks := [];
    var rest := m.Keys;
    while rest != {}
      invariant rest <= m.Keys
      invariant forall k :: k in ks <==> k in m && k !in rest
      decreases |rest|
    {
      var k :| k in rest;
      ks := ks + [k];
      rest := rest - {k};
    }
  }

  /** Downloads `keys` in order, stopping at the first failure. */
  method FetchInOrder(keys: seq<string>, fetch: Fetch) returns (err: Option<string>, fetched: seq<string>)
    ensures |fetched| <= |keys| && fetched == keys[..|fetched|]
    ensures forall j :: 0 <= j < |fetched| ==> fetch(keys[j]).None?
    ensures err.None? ==> fetched == keys
    ensures err.Some? ==> |fetched| < |keys| && err == fetch(keys[|fetched|])
  {
    fetched := [];
    var i := 0;
    while i < |keys|
      invariant 0 <= i <= |keys| && fetched == keys[..i]
      invariant forall j :: 0 <= j < i ==> fetch(keys[j]).None?
    {
      var e := fetch(keys[i]);
      if e.Some? {
        return e, fetched;
      }
      fetched := fetched + [keys[i]];
      i := i + 1;
    }
    return None, fetched;
  }

  // ---------------------------------------------------------------------------
  // DownloadS3 (misc/misc.go:187-221)

  /** The text before the first "_" in the key's base name. */
  function KeyStampText(key: string): string
  {
    Split(Base(key), '_')[0]
  }

  /** How `DownloadS3` reads a key: the date of its stamp text, or the parse error. */
  function KeyDate(parse: DateParser): string -> Result<Date, string>
  {
    key =>
      match parse(KeyStampText(key))
      case None => Err(ParseError(KeyStampText(key), "20060102"))
      case Some(d) => Ok(d)
  }

  /**
   * `DownloadS3`: the latest key dated on or before `date` is downloaded and returned; the
   * first listing or date error aborts, and no candidate is an error.
   */
  method DownloadS3(listing: seq<ListedObject>, parse: DateParser, prefix: string, date: Date, fetch: Fetch)
    returns (r: Result<string, string>)
    ensures DatedKeys(listing, KeyDate(parse), date).Err? ==> r == Err(DatedKeys(listing, KeyDate(parse), date).error)
    ensures DatedKeys(listing, KeyDate(parse), date) == Ok([]) ==> r == Err(NoFilesFound(prefix, date))
    ensures r.Ok? ==>
      (DatedKeys(listing, KeyDate(parse), date).Ok? && IsLatest(r.value, DatedKeys(listing, KeyDate(parse), date).value)
       && fetch(r.value).None?)
    ensures DatedKeys(listing, KeyDate(parse), date).Ok? && DatedKeys(listing, KeyDate(parse), date).value != [] ==>
      var chosen := Greatest(DatedKeys(listing, KeyDate(parse), date).value);
      r == (if fetch(chosen).Some? then Err(fetch(chosen).value) else Ok(chosen))
  {
    var scanned := ScanDated(listing, KeyDate(parse), date);
    if scanned.Err? {
      return Err(scanned.error);
    }
    var candidates := scanned.value;
    if |candidates| == 0 {
      return Err(NoFilesFound(prefix, date));
    }
    var chosen := Latest(candidates);
    GreatestIsLatest(candidates);
    var err := fetch(chosen);
    if err.Some? {
      return Err(err.value);
    }
    return Ok(chosen);
  }

  // ---------------------------------------------------------------------------
  // DownloadS3Files (misc/misc.go:130-185)

  const NoMatches := "no matches"

  /** "year=dddd/month=dd/day=dd" starts at position `i` of `line`. */
  predicate SegmentAt(line: string, i: nat)
  {
    i + 25 <= |line| && line[i..i + 5] == "year=" && AllDigits(line[i + 5..i + 9])
    && line[i + 9..i + 16] == "/month=" && AllDigits(line[i + 16..i + 18])
    && line[i + 18..i + 23] == "/day=" && AllDigits(line[i + 23..i + 25])
  }

  /** The last position below `n` where a segment starts. */
  function LastSegmentBelow(line: string, n: nat): (r: Option<nat>)
    ensures r.Some? ==> r.value < n && SegmentAt(line, r.value)
  {
    if n == 0 then None
    else if SegmentAt(line, n - 1) then Some(n - 1)
    else LastSegmentBelow(line, n - 1)
  }

  function FindSegment(lines: seq<string>): (r: Option<string>)
    ensures r.Some? ==> |r.value| == 25
  {
    if |lines| == 0 then None
    else match LastSegmentBelow(lines[0], |lines[0]|)
      case Some(i) => Some(lines[0][i..i + 25])
      case None => FindSegment(lines[1..])
  }

  /**
   * Group 1 of `.*(year=(\d{4})/month=(\d{2})/day=(\d{2})).*` in `key`.  `.` does not
   * match a newline, so the match lies in the first line holding a segment, and the greedy
   * prefix puts the group at the last segment of that line.
   */
  function SegmentOf(key: string): (r: Option<string>)
    ensures r.Some? ==> |r.value| == 25
  {
    FindSegment(Split(key, '\n'))
  }

  /** Below `n`, the search finds no segment exactly when there is none, and otherwise the last one. */
  lemma {:induction false} LastSegmentBelowMeans(line: string, n: nat)
    ensures LastSegmentBelow(line, n).None? <==> forall i: nat :: i < n ==> !SegmentAt(line, i)
    ensures LastSegmentBelow(line, n).Some? ==> forall i: nat :: LastSegmentBelow(line, n).value < i < n ==> !SegmentAt(line, i)
  {
    if n > 0 && !SegmentAt(line, n - 1) {
      LastSegmentBelowMeans(line, n - 1);
    }
  }

  /** A line holds a segment exactly when the search over its whole length finds one, and then the last one. */
  lemma LineSegment(line: string)
    ensures LastSegmentBelow(line, |line|).None? <==> forall i: nat :: !SegmentAt(line, i)
    ensures LastSegmentBelow(line, |line|).Some? ==> forall i: nat :: LastSegmentBelow(line, |line|).value < i ==> !SegmentAt(line, i)
  {
    LastSegmentBelowMeans(line, |line|);
  }

  /** No line holds a segment. */
  ghost predicate NoSegmentIn(lines: seq<string>)
  {
    forall k: nat, i: nat :: k < |lines| ==> !SegmentAt(lines[k], i)
  }

  /** The segment lies in line `k`, at `i`, the last segment of that line, and no earlier line holds one. */
  ghost predicate FirstLineLastSegment(lines: seq<string>, k: nat, i: nat)
  {
    && k < |lines| && SegmentAt(lines[k], i)
    && (forall m: nat, j: nat :: m < k ==> !SegmentAt(lines[m], j))
    && (forall j: nat :: i < j ==> !SegmentAt(lines[k], j))
  }

  /**
   * `FindSegment` is None exactly when no line holds a segment; otherwise it is the last segment
   * of the first line that holds one.
   */
  lemma {:induction false} FindSegmentMeans(lines: seq<string>)
    ensures FindSegment(lines).None? <==> NoSegmentIn(lines)
    ensures FindSegment(lines).Some? ==>
              exists k: nat, i: nat :: FirstLineLastSegment(lines, k, i) && FindSegment(lines).value == lines[k][i..i + 25]
  {
    if |lines| > 0 {
      LineSegment(lines[0]);
      match LastSegmentBelow(lines[0], |lines[0]|)
      case Some(i) =>
        assert FirstLineLastSegment(lines, 0, i);
      case None =>
        var rest := lines[1..];
        FindSegmentMeans(rest);
        if FindSegment(rest).Some? {
          var k: nat, i: nat :| FirstLineLastSegment(rest, k, i) && FindSegment(rest).value == rest[k][i..i + 25];
          forall m: nat, j: nat | m < k + 1
            ensures !SegmentAt(lines[m], j)
          {
            if m > 0 {
              assert lines[m] == rest[m - 1];
            }
          }
          assert FirstLineLastSegment(lines, k + 1, i);
        } else {
          forall k: nat, i: nat | k < |lines|
            ensures !SegmentAt(lines[k], i)
          {
            if k > 0 {
              assert lines[k] == rest[k - 1];
            }
          }
        }
    }
  }

  /**
   * A key has no match exactly when none of its lines holds a "year=dddd/month=dd/day=dd"
   * segment; a match is the last segment of the first line that holds one.
   */
  lemma SegmentOfMeans(key: string)
    ensures SegmentOf(key).None? <==> NoSegmentIn(Split(key, '\n'))
    ensures SegmentOf(key).Some? ==>
              exists k: nat, i: nat :: FirstLineLastSegment(Split(key, '\n'), k, i) && SegmentOf(key).value == Split(key, '\n')[k][i..i + 25]
  {
    var lines := Split(key, '\n');
    FindSegmentMeans(lines);
    assert SegmentOf(key) == FindSegment(lines);
    if FindSegment(lines).Some? {
      var k: nat, i: nat :| FirstLineLastSegment(lines, k, i) && FindSegment(lines).value == lines[k][i..i + 25];
    }
  }

  /** The digits of a segment's year, month and day: `matches[2] + matches[3] + matches[4]`. */
  function SegmentDigits(seg: string): string
    requires |seg| == 25
  {
    seg[5..9] + seg[16..18] + seg[23..25]
  }

  /** How `DownloadS3Files` reads a key: its segment and the date in it, or the error. */
  function SegmentDate(parse: DateParser): string -> Result<(string, Date), string>
  {
    key =>
      match SegmentOf(key)
      case None => Err(NoMatches)
      case Some(seg) =>
        match parse(SegmentDigits(seg))
        case None => Err(ParseError(SegmentDigits(seg), "20060102"))
        case Some(d) => Ok((seg, d))
  }

  /**
   * `DownloadS3Files`: the keys are grouped by their year/month/day segment, the latest
   * segment dated on or before `date` is `chosen`, and its keys are downloaded in listing order
   * until one fails.  `dirErr` is the error of creating the missing target directory, if any.
   */
  method DownloadS3Files(listing: seq<ListedObject>, parse: DateParser, prefix: string, date: Date,
                         dirErr: Option<string>, fetch: Fetch)
    returns (err: Option<string>, chosen: Option<string>, fetched: seq<string>)
    ensures FirstError(listing, SegmentDate(parse), 0).Some? ==>
      err == FirstError(listing, SegmentDate(parse), 0) && fetched == []
    ensures FirstError(listing, SegmentDate(parse), 0).None? && Groups(listing, SegmentDate(parse), |listing|, date) == map[] ==>
      err == Some(NoFilesFound(prefix, date)) && fetched == []
    ensures chosen.Some? ==>
      (FirstError(listing, SegmentDate(parse), 0).None? && chosen.value in Groups(listing, SegmentDate(parse), |listing|, date)
       && forall k :: k in Groups(listing, SegmentDate(parse), |listing|, date) ==> !LexLess(chosen.value, k))
    ensures FirstError(listing, SegmentDate(parse), 0).None? && Groups(listing, SegmentDate(parse), |listing|, date) != map[] ==>
      chosen.Some?
    ensures chosen.Some? && dirErr.Some? ==> err == dirErr && fetched == []
    ensures chosen.Some? && dirErr.None? ==>
      var group := KeysIn(listing, SegmentDate(parse), |listing|, date, chosen.value);
      |fetched| <= |group| && fetched == group[..|fetched|]
      && (forall j :: 0 <= j < |fetched| ==> fetch(group[j]).None?)
      && (err.None? <==> fetched == group)
      && (err.Some? ==> err == fetch(group[|fetched|]))
  {
    chosen, fetched := None, [];
    var scanned := ScanGroups(listing, SegmentDate(parse), date);
    if scanned.Err? {
      return Some(scanned.error), chosen, fetched;
    }
    var groups := scanned.value;
    var datePaths := KeysOf(groups);
    if |datePaths| == 0 {
      assert forall k :: k !in groups;
      return Some(NoFilesFound(prefix, date)), chosen, fetched;
    }
    var datePath := Latest(datePaths);
    GreatestIsLatest(datePaths);
    assert datePath in groups;
    forall k | k in groups
      ensures !LexLess(datePath, k)
    {
      var j :| 0 <= j < |datePaths| && datePaths[j] == k;
    }
    chosen := Some(datePath);
    if dirErr.Some? {
      return dirErr, chosen, fetched;
    }
    GroupsMeans(listing, SegmentDate(parse), |listing|, date, datePath);
    assert groups[datePath] == KeysIn(listing, SegmentDate(parse), |listing|, date, datePath);
    err, fetched := FetchInOrder(groups[datePath], fetch);
  }
}
