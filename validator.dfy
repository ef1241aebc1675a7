/**
 * Validation of one certificate chain against one pool of roots (validator/validator.go).
 *
 * Element 0 of the chain is the leaf; the other elements form the intermediate pool.  One
 * verification decides validity; further arrangements of the intermediates are then explored,
 * up to `MaxPermutations`, and a last verification without intermediates may add an error
 * text to a valid result.  Exactly one result is sent on the channel on every path.
 */
module Validator {
  import opened Wrappers
  import opened Strings
  import opened Dates
  import opened X509
  import opened Permute

  const MaxPermutations: nat := 250000

  /** Any extended key usage is accepted (section 4.2.1.12 of RFC 5280): a lower bound on validity. */
  const KeyUsages: seq<ExtKeyUsage> := [ExtKeyUsageAny]

  const NoValidLeaf := "Chain has no valid leaf certificate"
  const AppendFailed := "failed to append intermediate certificate"

  newtype int32 = x: int | -0x8000_0000 <= x < 0x8000_0000

  /** One input record: its identifier and its certificates as PEM texts. */
  datatype CertChain = CertChain(id: int32, chain: seq<string>)

  /** The record the validator sends for one chain. */
  datatype ValidationResult = ValidationResult(id: int32, isValid: bool, errorData: string, validChains: string)

  /** The channel results are sent on, as the sequence of values sent so far. */
  class ResultChannel {
    var sent: seq<ValidationResult>

    constructor ()
      ensures sent == []
    {
      sent := [];
    }

    method Send(r: ValidationResult)
      modifies this
      ensures sent == old(sent) + [r]
    {
      sent := sent + [r];
    }
  }

  // ---------------------------------------------------------------------------
  // getCertificateFromPEM

  /** Decode the first PEM block of `certStr` and parse it as a certificate. */
  function GetCertificateFromPem(lib: Library, certStr: string): (r: Result<Certificate, string>)
    ensures r.Ok? <==>
              && lib.pemDecode(certStr).Some?
              && lib.pemDecode(certStr).value.blockType == "CERTIFICATE"
              && lib.parseCertificate(lib.pemDecode(certStr).value.bytes).Ok?
    ensures lib.pemDecode(certStr).None? ==> r == Err("failed to parse PEM block")
    ensures lib.pemDecode(certStr).Some? && lib.pemDecode(certStr).value.blockType != "CERTIFICATE"
            ==> r == Err("expected CERTIFICATE block")
    ensures r.Ok? ==> r == lib.parseCertificate(lib.pemDecode(certStr).value.bytes)
  {
    match lib.pemDecode(certStr)
    case None => Err("failed to parse PEM block")
    case Some(block) =>
      if block.blockType != "CERTIFICATE" then Err("expected CERTIFICATE block")
      else lib.parseCertificate(block.bytes)
  }

  // ---------------------------------------------------------------------------
  // Fingerprint sequences: the identity of a verified path

  /** One certificate as it appears in a fingerprint sequence: its fingerprint, upper-cased and quoted. */
  function CertFingerprint(lib: Library, cert: Certificate): string
  {
    Quote(ToUpper(lib.fingerprint(cert)))
  }

  /** A fingerprint entry is quoted, and unquoting gives back the upper-cased fingerprint. */
  lemma CertFingerprintQuoted(lib: Library, cert: Certificate)
    ensures var r := CertFingerprint(lib, cert);
            |r| >= 2 && r[0] == '"' && r[|r| - 1] == '"' && Unquote(r) == ToUpper(lib.fingerprint(cert))
  {
    QuoteRoundTrip(ToUpper(lib.fingerprint(cert)));
  }

  /** The fingerprint sequence of one chain, certificate by certificate. */
  function ChainFingerprints(lib: Library, chain: seq<Certificate>): (r: seq<string>)
    ensures |r| == |chain|
  {
    if |chain| == 0 then []
    else ChainFingerprints(lib, chain[..|chain| - 1]) + [CertFingerprint(lib, chain[|chain| - 1])]
  }

  /** Entry `i` of a chain's fingerprint sequence is the fingerprint of its certificate `i`. */
  lemma {:induction false} ChainFingerprintsAt(lib: Library, chain: seq<Certificate>)
    ensures forall i :: 0 <= i < |chain| ==> ChainFingerprints(lib, chain)[i] == CertFingerprint(lib, chain[i])
  {
    if |chain| > 0 {
      var front := chain[..|chain| - 1];
      ChainFingerprintsAt(lib, front);
      assert forall i :: 0 <= i < |front| ==> front[i] == chain[i];
    }
  }

  /** The fingerprint sequences of a list of chains, chain by chain. */
  function AllFingerprints(lib: Library, chains: seq<seq<Certificate>>): (r: seq<seq<string>>)
    ensures |r| == |chains|
  {
    if |chains| == 0 then []
    else AllFingerprints(lib, chains[..|chains| - 1]) + [ChainFingerprints(lib, chains[|chains| - 1])]
  }

  /** Entry `i` of the list is the fingerprint sequence of chain `i`. */
  lemma {:induction false} AllFingerprintsAt(lib: Library, chains: seq<seq<Certificate>>)
    ensures forall i :: 0 <= i < |chains| ==> AllFingerprints(lib, chains)[i] == ChainFingerprints(lib, chains[i])
  {
    if |chains| > 0 {
      var front := chains[..|chains| - 1];
      AllFingerprintsAt(lib, front);
      assert forall i :: 0 <= i < |front| ==> front[i] == chains[i];
    }
  }

  /** The fingerprint sequences of the first `n` chains are all among `fps`. */
  predicate PresentUpTo(lib: Library, fps: seq<seq<string>>, chains: seq<seq<Certificate>>, n: nat)
    requires n <= |chains|
  {
    n == 0 || (PresentUpTo(lib, fps, chains, n - 1) && ChainFingerprints(lib, chains[n - 1]) in fps)
  }

  /** Every chain's fingerprint sequence is already among `fps`. */
  predicate AllPresent(lib: Library, fps: seq<seq<string>>, chains: seq<seq<Certificate>>)
  {
    PresentUpTo(lib, fps, chains, |chains|)
  }

  lemma {:induction false} PresentUpToMeans(lib: Library, fps: seq<seq<string>>, chains: seq<seq<Certificate>>, n: nat)
    requires n <= |chains|
    ensures PresentUpTo(lib, fps, chains, n) <==> forall i :: 0 <= i < n ==> ChainFingerprints(lib, chains[i]) in fps
  {
    if n > 0 {
      PresentUpToMeans(lib, fps, chains, n - 1);
    }
  }

  lemma AllPresentMeans(lib: Library, fps: seq<seq<string>>, chains: seq<seq<Certificate>>)
    ensures AllPresent(lib, fps, chains) <==> forall i :: 0 <= i < |chains| ==> ChainFingerprints(lib, chains[i]) in fps
  {
    PresentUpToMeans(lib, fps, chains, |chains|);
  }

  predicate Distinct<T(==)>(s: seq<T>)
  {
    forall a, b :: 0 <= a < b < |s| ==> s[a] != s[b]
  }

  /** The fingerprint sequence of one chain (validator.go's inner loops over `validChain`). */
  method FingerprintChain(lib: Library, validChain: seq<Certificate>) returns (validChainFp: seq<string>)
    ensures validChainFp == ChainFingerprints(lib, validChain)
  {
    validChainFp := [];
    for k := 0 to |validChain|
      invariant validChainFp == ChainFingerprints(lib, validChain[..k])
    {
      assert validChain[..k + 1][..k] == validChain[..k];
      validChainFp := validChainFp + [CertFingerprint(lib, validChain[k])];
    }
    assert validChain[..|validChain|] == validChain;
  }

  /** The fingerprint sequences of all chains of the first verification, in order. */
  method FingerprintChains(lib: Library, validChains: seq<seq<Certificate>>) returns (validChainsFp: seq<seq<string>>)
    ensures validChainsFp == AllFingerprints(lib, validChains)
  {
    validChainsFp := [];
    for k := 0 to |validChains|
      invariant validChainsFp == AllFingerprints(lib, validChains[..k])
    {
      assert validChains[..k + 1][..k] == validChains[..k];
      var validChainFp := FingerprintChain(lib, validChains[k]);
      validChainsFp := validChainsFp + [validChainFp];
    }
    assert validChains[..|validChains|] == validChains;
  }

  /** `inSlice`: whether `needle` equals, element by element, one of the sequences of `haystack`. */
  method InSlice(needle: seq<string>, haystack: seq<seq<string>>) returns (found: bool)
    ensures found <==> needle in haystack
  {
    for k := 0 to |haystack|
      invariant needle !in haystack[..k]
    {
      if haystack[k] == needle {
        return true;
      }
    }
    assert haystack[..|haystack|] == haystack;
    return false;
  }

  /**
   * `tryAppendChain`: true iff every chain's fingerprint sequence is already in `validChainsFp`,
   * or equals one added earlier in the same call.  The sequences it adds go to its own copy
   * (`grown`), never back to the caller, whose slice keeps its length.
   */
  method TryAppendChain(lib: Library, validChainsFp: seq<seq<string>>, validChains: seq<seq<Certificate>>)
    returns (allPresent: bool, ghost grown: seq<seq<string>>)
    ensures allPresent <==> AllPresent(lib, validChainsFp, validChains)
    ensures allPresent <==> grown == validChainsFp
    ensures |grown| >= |validChainsFp| && grown[..|validChainsFp|] == validChainsFp
    ensures forall i :: 0 <= i < |validChains| ==> ChainFingerprints(lib, validChains[i]) in grown
    ensures forall k :: |validChainsFp| <= k < |grown| ==> grown[k] !in grown[..k]
    ensures Distinct(validChainsFp) ==> Distinct(grown)
  {
    allPresent := true;
    var local := validChainsFp;
    ghost var added: seq<seq<string>> := [];
    for n := 0 to |validChains|
      invariant AppendState(lib, validChainsFp, validChains, n, local, added, allPresent)
    {
      var validChainFp := FingerprintChain(lib, validChains[n]);
      var present := InSlice(validChainFp, local);
      AppendStep(lib, validChainsFp, validChains, n, local, added, allPresent);
      if !present {
        local := local + [validChainFp];
        added := added + [validChainFp];
        allPresent := false;
      }
    }
    grown := local;
    FreshMeans(validChainsFp, added);
    AllPresentMeans(lib, local, validChains);
  }

  /** What `tryAppendChain` knows after looking at the first `n` chains. */
  ghost predicate AppendState(lib: Library, validChainsFp: seq<seq<string>>, validChains: seq<seq<Certificate>>, n: nat,
                              local: seq<seq<string>>, added: seq<seq<string>>, allPresent: bool)
    requires n <= |validChains|
  {
    && local == validChainsFp + added
    && PresentUpTo(lib, local, validChains, n)
    && Fresh(validChainsFp, added)
    && (allPresent <==> added == [])
    && (allPresent <==> PresentUpTo(lib, validChainsFp, validChains, n))
  }

  /** One iteration of `tryAppendChain` keeps `AppendState`, whether or not the sequence was present. */
  lemma AppendStep(lib: Library, validChainsFp: seq<seq<string>>, validChains: seq<seq<Certificate>>, n: nat,
                   local: seq<seq<string>>, added: seq<seq<string>>, allPresent: bool)
    requires n < |validChains|
    requires AppendState(lib, validChainsFp, validChains, n, local, added, allPresent)
    ensures var fp := ChainFingerprints(lib, validChains[n]);
            if fp in local then AppendState(lib, validChainsFp, validChains, n + 1, local, added, allPresent)
            else AppendState(lib, validChainsFp, validChains, n + 1, local + [fp], added + [fp], false)
  {
    var fp := ChainFingerprints(lib, validChains[n]);
    if fp in local {
      PresentStep(lib, validChainsFp, validChains, n, local, added, allPresent);
    } else {
      AbsentStep(lib, validChainsFp, validChains, n, local, added, allPresent);
    }
  }

  lemma PresentStep(lib: Library, validChainsFp: seq<seq<string>>, validChains: seq<seq<Certificate>>, n: nat,
                    local: seq<seq<string>>, added: seq<seq<string>>, allPresent: bool)
    requires n < |validChains|
    requires AppendState(lib, validChainsFp, validChains, n, local, added, allPresent)
    requires ChainFingerprints(lib, validChains[n]) in local
    ensures AppendState(lib, validChainsFp, validChains, n + 1, local, added, allPresent)
  {
    var fp := ChainFingerprints(lib, validChains[n]);
    if fp !in validChainsFp {
      assert fp in validChainsFp + added;
      assert added != [];
    }
  }

  lemma AbsentStep(lib: Library, validChainsFp: seq<seq<string>>, validChains: seq<seq<Certificate>>, n: nat,
                   local: seq<seq<string>>, added: seq<seq<string>>, allPresent: bool)
    requires n < |validChains|
    requires AppendState(lib, validChainsFp, validChains, n, local, added, allPresent)
    requires ChainFingerprints(lib, validChains[n]) !in local
    ensures var fp := ChainFingerprints(lib, validChains[n]);
            AppendState(lib, validChainsFp, validChains, n + 1, local + [fp], added + [fp], false)
  {
    var fp := ChainFingerprints(lib, validChains[n]);
    FreshExtend(validChainsFp, added, fp);
    assert local + [fp] == validChainsFp + (added + [fp]);
    PresentUpToGrow(lib, local, [fp], validChains, n);
  }

  lemma {:induction false} PresentUpToGrow(lib: Library, fps: seq<seq<string>>, more: seq<seq<string>>,
                                           chains: seq<seq<Certificate>>, n: nat)
    requires n <= |chains| && PresentUpTo(lib, fps, chains, n)
    ensures PresentUpTo(lib, fps + more, chains, n)
  {
    if n > 0 {
      PresentUpToGrow(lib, fps, more, chains, n - 1);
    }
  }

  /** Each of `added` is new: neither in `base` nor earlier in `added`. */
  ghost predicate Fresh<T>(base: seq<T>, added: seq<T>)
  {
    forall k :: 0 <= k < |added| ==> added[k] !in base && added[k] !in added[..k]
  }

  lemma FreshExtend<T>(base: seq<T>, added: seq<T>, x: T)
    requires Fresh(base, added) && x !in base + added
    ensures Fresh(base, added + [x])
  {
    var ext := added + [x];
    assert ext[..|added|] == added;
    forall k | 0 <= k < |ext|
      ensures ext[k] !in base && ext[k] !in ext[..k]
    {
      if k < |added| {
        assert ext[..k] == added[..k];
      } else {
        assert x !in added;
      }
    }
  }

  lemma FreshMeans<T>(base: seq<T>, added: seq<T>)
    requires Fresh(base, added)
    ensures var grown := base + added;
            forall k :: |base| <= k < |grown| ==> grown[k] !in grown[..k]
    ensures Distinct(base) ==> Distinct(base + added)
  {
    var grown := base + added;
    forall k | |base| <= k < |grown|
      ensures grown[k] !in grown[..k]
    {
      assert grown[..k] == base + added[..k - |base|];
    }
    if Distinct(base) {
      forall a, b | 0 <= a < b < |grown|
        ensures grown[a] != grown[b]
      {
        if b >= |base| {
          assert grown[a] in grown[..b];
        }
      }
    }
  }

  // ---------------------------------------------------------------------------
  // The arrangements tried by the reordering loop

  /** The arrangement of the intermediates tried in iteration `j` of the reordering loop. */
  function OrderAt(chain: seq<string>, swaps: seq<Swap>, j: nat): (r: seq<nat>)
    requires |chain| >= 1 && ValidSwaps(swaps, |chain| - 1) && j < |swaps|
    ensures InRange(r, |chain|)
  {
    RangeInRange(1, |chain|);
    ApplySwapsInRange(Range(1, |chain|), swaps, j + 1, |chain|);
    ApplySwaps(Range(1, |chain|), swaps, j + 1)
  }

  // ---------------------------------------------------------------------------
  // Intermediate pools

  /** Every indexed certificate text appends to a pool. */
  predicate AllAppend(lib: Library, chain: seq<string>, order: seq<nat>)
    requires InRange(order, |chain|)
  {
    forall k :: 0 <= k < |order| ==> lib.appendsFromPem(chain[order[k]])
  }

  /** The pool built by appending the indexed texts in order; a text that fails adds nothing. */
  function PoolOf(lib: Library, chain: seq<string>, order: seq<nat>): (r: CertPool)
    requires InRange(order, |chain|)
    ensures |r.entries| <= |order|
  {
    if |order| == 0 then CertPool([])
    else
      var prefix := PoolOf(lib, chain, order[..|order| - 1]);
      var text := chain[order[|order| - 1]];
      if lib.appendsFromPem(text) then CertPool(prefix.entries + [PemText(text)]) else prefix
  }

  /** A pool holds exactly the texts that append, in order: all of them when every append succeeds. */
  lemma {:induction false} PoolOfEntries(lib: Library, chain: seq<string>, order: seq<nat>)
    requires InRange(order, |chain|)
    ensures forall e :: e in PoolOf(lib, chain, order).entries ==> e.PemText? && e.text in chain && lib.appendsFromPem(e.text)
    ensures AllAppend(lib, chain, order) ==>
              PoolOf(lib, chain, order).entries == seq(|order|, k requires 0 <= k < |order| => PemText(chain[order[k]]))
  {
    if |order| > 0 {
      var front := order[..|order| - 1];
      PoolOfEntries(lib, chain, front);
      assert forall k :: 0 <= k < |front| ==> front[k] == order[k];
    }
  }

  /** A swap moves the texts around, so they all append after it exactly when they all did before. */
  lemma StepAllAppend(lib: Library, chain: seq<string>, order: seq<nat>, s: Swap)
    requires InRange(order, |chain|)
    ensures InRange(Step(order, s), |chain|)
    ensures AllAppend(lib, chain, Step(order, s)) <==> AllAppend(lib, chain, order)
  {
    StepInRange(order, s, |chain|);
  }

  /** Appending succeeds for every text of the initial arrangement iff it does after any number of swaps. */
  lemma {:induction false} ApplySwapsAllAppend(lib: Library, chain: seq<string>, order: seq<nat>, swaps: seq<Swap>, k: nat)
    requires InRange(order, |chain|) && k <= |swaps|
    ensures InRange(ApplySwaps(order, swaps, k), |chain|)
    ensures AllAppend(lib, chain, ApplySwaps(order, swaps, k)) <==> AllAppend(lib, chain, order)
  {
    if k > 0 {
      ApplySwapsAllAppend(lib, chain, order, swaps, k - 1);
      StepAllAppend(lib, chain, ApplySwaps(order, swaps, k - 1), swaps[k - 1]);
    }
  }

  /** A fresh pool with the indexed texts appended in order; `failed` is the loop's `err`. */
  method BuildPool(lib: Library, chain: seq<string>, order: seq<nat>) returns (pool: CertPool, failed: bool)
    requires InRange(order, |chain|)
    ensures pool == PoolOf(lib, chain, order)
    ensures failed <==> !AllAppend(lib, chain, order)
  {
    pool := CertPool([]);
    failed := false;
    for k := 0 to |order|
      invariant pool == PoolOf(lib, chain, order[..k])
      invariant failed <==> !AllAppend(lib, chain, order[..k])
    {
      assert order[..k + 1][..k] == order[..k];
      if lib.appendsFromPem(chain[order[k]]) {
        pool := CertPool(pool.entries + [PemText(chain[order[k]])]);
      } else {
        failed := true;
      }
    }
    assert order[..|order|] == order;
  }

  /** The options of every verification: no DNS name, any key usage. */
  function Opts(roots: Option<CertPool>, scanDate: Date, intermediates: Option<CertPool>): (r: VerifyOptions)
    ensures r.roots == roots && r.currentTime == scanDate && r.intermediates == intermediates
    ensures r.dnsName == "" && r.keyUsages == [ExtKeyUsageAny]
  {
    VerifyOptions(roots, scanDate, intermediates, "", KeyUsages)
  }

  // ---------------------------------------------------------------------------
  // The reordering loop

  /** Whether the loop stops after verifying with `intermediates`: an error, or no new chain. */
  predicate StopsWith(lib: Library, roots: Option<CertPool>, scanDate: Date, leaf: Certificate,
                      validChainsFp: seq<seq<string>>, intermediates: CertPool)
  {
    match lib.verify(leaf, Opts(roots, scanDate, Some(intermediates)))
    case VerifyError(_) => true
    case Chains(chains) => AllPresent(lib, validChainsFp, chains)
  }

  /** What every iteration of the reordering loop works with. */
  datatype LoopInputs = LoopInputs(lib: Library, chain: seq<string>, roots: Option<CertPool>, scanDate: Date,
                                   leaf: Certificate, validChainsFp: seq<seq<string>>)

  /** Whether the loop stops after trying the arrangement `order`. */
  predicate StopsAt(x: LoopInputs, order: seq<nat>)
    requires InRange(order, |x.chain|)
  {
    StopsWith(x.lib, x.roots, x.scanDate, x.leaf, x.validChainsFp, PoolOf(x.lib, x.chain, order))
  }

  /** One verification inside the loop and the `tryAppendChain` test on what it finds. */
  method VerifyArrangement(lib: Library, roots: Option<CertPool>, scanDate: Date, leaf: Certificate,
                           validChainsFp: seq<seq<string>>, intermediates: CertPool)
    returns (stop: bool)
    ensures stop <==> StopsWith(lib, roots, scanDate, leaf, validChainsFp, intermediates)
  {
    var verification := lib.verify(leaf, Opts(roots, scanDate, Some(intermediates)));
    if verification.VerifyError? {
      return true;
    }
    var allPresent, _ := TryAppendChain(lib, validChainsFp, verification.chains);
    return allPresent;
  }

  function Min(a: nat, b: nat): nat
  {
    if a <= b then a else b
  }

  /** For every iteration `j` of the reordering loop, whether the arrangement it tries stops the loop. */
  function Stops(x: LoopInputs, swaps: seq<Swap>): (r: seq<bool>)
    requires |x.chain| >= 1 && ValidSwaps(swaps, |x.chain| - 1)
    ensures |r| == |swaps|
  {
    seq(|swaps|, j requires 0 <= j < |swaps| => StopsAt(x, OrderAt(x.chain, swaps, j)))
  }

  /**
   * The number of iterations the reordering loop counts from iteration `k` on: `stops[j]` says
   * whether iteration `j` would stop it, `appendOk` whether the intermediates all append, and
   * `errSet` whether `err` is already set.  It ends when the swaps run out, at
   * `MaxPermutations`, or after the first iteration that verifies and stops.
   */
  function Explore(stops: seq<bool>, appendOk: bool, k: nat, errSet: bool): nat
    requires k <= |stops|
    decreases |stops| - k
  {
    if k == |stops| || k >= MaxPermutations then k
    else if errSet || !appendOk then Explore(stops, appendOk, k + 1, true)
    else if stops[k] then k + 1
    else Explore(stops, appendOk, k + 1, false)
  }

  /** The loop counts at least the iterations already done and at most `MaxPermutations`, one per swap. */
  lemma {:induction false} ExploreBounds(stops: seq<bool>, appendOk: bool, k: nat, errSet: bool)
    requires k <= |stops| && k <= MaxPermutations
    ensures k <= Explore(stops, appendOk, k, errSet) <= Min(|stops|, MaxPermutations)
    decreases |stops| - k
  {
    if k < |stops| && k < MaxPermutations {
      if errSet || !appendOk {
        ExploreBounds(stops, appendOk, k + 1, true);
      } else if !stops[k] {
        ExploreBounds(stops, appendOk, k + 1, false);
      }
    }
  }

  /** Once an append has failed, or if one ever fails, the loop only counts: to the end of the swaps or the bound. */
  lemma {:induction false} ExploreAfterFailure(stops: seq<bool>, appendOk: bool, k: nat, errSet: bool)
    requires k <= |stops| && k <= MaxPermutations
    requires errSet || !appendOk
    ensures Explore(stops, appendOk, k, errSet) == Min(|stops|, MaxPermutations)
    decreases |stops| - k
  {
    if k < |stops| && k < MaxPermutations {
      ExploreAfterFailure(stops, appendOk, k + 1, true);
    }
  }

  /**
   * While every append succeeds, the loop ends exactly at the first iteration that stops it:
   * none of the iterations before the last counted one stops, and an early end is a stop.
   */
  lemma {:induction false} ExploreWhileAppending(stops: seq<bool>, k: nat)
    requires k <= |stops| && k <= MaxPermutations
    ensures var n := Explore(stops, true, k, false);
            && k <= n <= |stops|
            && (forall j :: k <= j < n - 1 ==> !stops[j])
            && (n < Min(|stops|, MaxPermutations) ==> k < n && stops[n - 1])
    decreases |stops| - k
  {
    if k < |stops| && k < MaxPermutations && !stops[k] {
      ExploreWhileAppending(stops, k + 1);
    }
  }

  /** Iteration `j` of `Stops` is the test on the arrangement of that iteration. */
  lemma StopsIndex(x: LoopInputs, swaps: seq<Swap>, j: nat)
    requires |x.chain| >= 1 && ValidSwaps(swaps, |x.chain| - 1) && j < |swaps|
    ensures Stops(x, swaps)[j] == StopsAt(x, OrderAt(x.chain, swaps, j))
  {
  }

  /** What the count of the loop started on the initial index array says about the arrangements it tried. */
  lemma ExploreFromStart(x: LoopInputs, swaps: seq<Swap>, count: nat)
    requires |x.chain| >= 1 && ValidSwaps(swaps, |x.chain| - 1)
    requires InRange(Range(1, |x.chain|), |x.chain|)
    requires count == Explore(Stops(x, swaps), AllAppend(x.lib, x.chain, Range(1, |x.chain|)), 0, false)
    ensures count <= Min(|swaps|, MaxPermutations)
    ensures !AllAppend(x.lib, x.chain, Range(1, |x.chain|)) ==> count == Min(|swaps|, MaxPermutations)
    ensures AllAppend(x.lib, x.chain, Range(1, |x.chain|)) ==>
              forall j :: 0 <= j < count - 1 ==> !StopsAt(x, OrderAt(x.chain, swaps, j))
    ensures AllAppend(x.lib, x.chain, Range(1, |x.chain|)) && count < Min(|swaps|, MaxPermutations) ==>
              0 < count && StopsAt(x, OrderAt(x.chain, swaps, count - 1))
  {
    var stops := Stops(x, swaps);
    var appendOk := AllAppend(x.lib, x.chain, Range(1, |x.chain|));
    ExploreBounds(stops, appendOk, 0, false);
    if appendOk {
      ExploreWhileAppending(stops, 0);
      forall j | 0 <= j < count - 1
        ensures !StopsAt(x, OrderAt(x.chain, swaps, j))
      {
        StopsIndex(x, swaps, j);
      }
      if count < Min(|swaps|, MaxPermutations) {
        StopsIndex(x, swaps, count - 1);
      }
    } else {
      ExploreAfterFailure(stops, appendOk, 0, false);
    }
  }

  /**
   * The body of the reordering loop for iteration `k`, up to its `continue` or `break`: swap,
   * rebuild the pool, and verify unless an append has failed (`errNow`, which stays set).
   */
  method ExploreIteration(x: LoopInputs, swaps: seq<Swap>, k: nat, idx: seq<nat>, errSet: bool)
    returns (next: seq<nat>, errNow: bool, stop: bool)
    requires |x.chain| >= 1 && ValidSwaps(swaps, |x.chain| - 1) && k < |swaps|
    requires InRange(Range(1, |x.chain|), |x.chain|)
    requires idx == ApplySwaps(Range(1, |x.chain|), swaps, k) && InRange(idx, |x.chain|)
    ensures next == ApplySwaps(Range(1, |x.chain|), swaps, k + 1) && InRange(next, |x.chain|)
    ensures multiset(next) == multiset(idx)
    ensures errNow <==> errSet || !AllAppend(x.lib, x.chain, Range(1, |x.chain|))
    ensures !errNow ==> (stop <==> Stops(x, swaps)[k])
  {
    next := SwapAt(idx, swaps[k]);
    SwapAtPermutes(idx, swaps[k]);
    ApplySwapsAllAppend(x.lib, x.chain, Range(1, |x.chain|), swaps, k + 1);
    var intermediates, failed := BuildPool(x.lib, x.chain, next);
    errNow := errSet || failed;
    if errNow {
      return next, errNow, false;
    }
    stop := VerifyArrangement(x.lib, x.roots, x.scanDate, x.leaf, x.validChainsFp, intermediates);
    StopsIndex(x, swaps, k);
  }

  /**
   * The loop over the generator's swaps (validator.go lines 80-119).  Its only outputs are the
   * count and the index array: the chains it finds are never kept.  Once an append fails every
   * later iteration skips verification; otherwise it stops at the first arrangement that
   * `StopsAt`, after at most `MaxPermutations` iterations.
   */
  method ExploreOrderings(x: LoopInputs, intermediateIdx: seq<nat>, swaps: seq<Swap>)
    returns (permutationCount: nat, arranged: seq<nat>)
    requires |x.chain| >= 1 && intermediateIdx == Range(1, |x.chain|)
    requires ValidSwaps(swaps, |x.chain| - 1)
    ensures InRange(intermediateIdx, |x.chain|)
    ensures permutationCount == Explore(Stops(x, swaps), AllAppend(x.lib, x.chain, intermediateIdx), 0, false)
    ensures permutationCount <= Min(|swaps|, MaxPermutations)
    ensures arranged == ApplySwaps(intermediateIdx, swaps, permutationCount)
    ensures multiset(arranged) == multiset(intermediateIdx)
    ensures !AllAppend(x.lib, x.chain, intermediateIdx) ==> permutationCount == Min(|swaps|, MaxPermutations)
    ensures AllAppend(x.lib, x.chain, intermediateIdx) ==>
              forall j :: 0 <= j < permutationCount - 1 ==> !StopsAt(x, OrderAt(x.chain, swaps, j))
    ensures AllAppend(x.lib, x.chain, intermediateIdx) && permutationCount < Min(|swaps|, MaxPermutations) ==>
              0 < permutationCount && StopsAt(x, OrderAt(x.chain, swaps, permutationCount - 1))
  {
    RangeInRange(1, |x.chain|);
    ghost var stops := Stops(x, swaps);
    ghost var appendOk := AllAppend(x.lib, x.chain, intermediateIdx);
    var idx: seq<nat> := intermediateIdx;
    var err: Option<string> := None;
    permutationCount := 0;
    var k := 0;
    while k < |swaps|
      invariant k == permutationCount <= |swaps| && k <= MaxPermutations
      invariant idx == ApplySwaps(intermediateIdx, swaps, k) && InRange(idx, |x.chain|)
      invariant multiset(idx) == multiset(intermediateIdx)
      invariant Explore(stops, appendOk, k, err.Some?) == Explore(stops, appendOk, 0, false)
    {
      if permutationCount >= MaxPermutations {
        break;
      }
      permutationCount := permutationCount + 1;
      var failed, stop;
      idx, failed, stop := ExploreIteration(x, swaps, k, idx, err.Some?);
      if failed {
        err := Some(AppendFailed);
      }
      if err.Some? {
        k := k + 1;
        continue;
      }
      if stop {
        break;
      }
      k := k + 1;
    }
    arranged := idx;
    ExploreFromStart(x, swaps, permutationCount);
  }

  // ---------------------------------------------------------------------------
  // Rendering: fmt.Sprint of the nested list, then every space replaced by ", "

  /** The elements separated by `sep`, as fmt prints a slice between its brackets. */
  function Interleave(xs: seq<string>, sep: string): string
  {
    if |xs| == 0 then ""
    else if |xs| == 1 then xs[0]
    else xs[0] + sep + Interleave(xs[1..], sep)
  }

  function SprintList(xs: seq<string>): string
  {
    "[" + Interleave(xs, " ") + "]"
  }

  /** `fmt.Sprint` of a `[][]string`. */
  function SprintNested(xss: seq<seq<string>>): string
  {
    "[" + Interleave(seq(|xss|, i requires 0 <= i < |xss| => SprintList(xss[i])), " ") + "]"
  }

  function RenderChains(validChainsFp: seq<seq<string>>): string
  {
    ReplaceAll(SprintNested(validChainsFp), ' ', ", ")
  }

  /** The rendering as a reader sees it: lists separated by ", " inside brackets. */
  function CommaList(xss: seq<seq<string>>): string
  {
    "[" + Interleave(seq(|xss|, i requires 0 <= i < |xss| => "[" + Interleave(xss[i], ", ") + "]"), ", ") + "]"
  }

  lemma {:induction false} ReplaceInterleave(xs: seq<string>, ys: seq<string>)
    requires |xs| == |ys|
    requires forall i :: 0 <= i < |xs| ==> ReplaceAll(xs[i], ' ', ", ") == ys[i]
    ensures ReplaceAll(Interleave(xs, " "), ' ', ", ") == Interleave(ys, ", ")
  {
    if |xs| == 1 {
    } else if |xs| > 1 {
      ReplaceInterleave(xs[1..], ys[1..]);
      ReplaceAllConcat(xs[0] + " ", Interleave(xs[1..], " "), ' ', ", ");
      ReplaceAllConcat(xs[0], " ", ' ', ", ");
      assert ReplaceAll(" ", ' ', ", ") == ", ";
    }
  }

  lemma Bracketed(inner: string)
    ensures ReplaceAll("[" + inner + "]", ' ', ", ") == "[" + ReplaceAll(inner, ' ', ", ") + "]"
  {
    ReplaceAllConcat("[" + inner, "]", ' ', ", ");
    ReplaceAllConcat("[", inner, ' ', ", ");
  }

  /**
   * When no fingerprint text holds a space, the rendering is exactly the comma-separated
   * form: each chain's fingerprints joined by ", " in brackets, the chains joined the same way.
   */
  lemma RenderChainsCommaSeparated(validChainsFp: seq<seq<string>>)
    requires forall i, j :: 0 <= i < |validChainsFp| && 0 <= j < |validChainsFp[i]| ==> ' ' !in validChainsFp[i][j]
    ensures RenderChains(validChainsFp) == CommaList(validChainsFp)
  {
    var xs := seq(|validChainsFp|, i requires 0 <= i < |validChainsFp| => SprintList(validChainsFp[i]));
    var ys := seq(|validChainsFp|, i requires 0 <= i < |validChainsFp| => "[" + Interleave(validChainsFp[i], ", ") + "]");
    forall i | 0 <= i < |xs|
      ensures ReplaceAll(xs[i], ' ', ", ") == ys[i]
    {
      ReplaceInterleave(validChainsFp[i], validChainsFp[i]);
      Bracketed(Interleave(validChainsFp[i], " "));
    }
    ReplaceInterleave(xs, ys);
    Bracketed(Interleave(xs, " "));
  }

  // ---------------------------------------------------------------------------
  // The record sent for one chain

  /** What ValidateChainPem sends for `certChain`; it does not depend on the reordering loop. */
  function ExpectedResult(lib: Library, certChain: CertChain, rootCAs: Option<CertPool>, scanDate: Date): (r: ValidationResult)
    requires |certChain.chain| >= 1
    ensures r.id == certChain.id
    ensures GetCertificateFromPem(lib, certChain.chain[0]).Err? ==> r == ValidationResult(certChain.id, false, NoValidLeaf, "")
    ensures r.isValid <==>
              && GetCertificateFromPem(lib, certChain.chain[0]).Ok?
              && AllAppend(lib, certChain.chain, Range(1, |certChain.chain|))
              && lib.verify(GetCertificateFromPem(lib, certChain.chain[0]).value,
                            Opts(rootCAs, scanDate, Some(PoolOf(lib, certChain.chain, Range(1, |certChain.chain|))))).Chains?
    ensures !r.isValid ==> r.validChains == ""
    ensures GetCertificateFromPem(lib, certChain.chain[0]).Ok? && !AllAppend(lib, certChain.chain, Range(1, |certChain.chain|))
            ==> r == ValidationResult(certChain.id, false, AppendFailed, "")
    ensures GetCertificateFromPem(lib, certChain.chain[0]).Ok? && AllAppend(lib, certChain.chain, Range(1, |certChain.chain|)) &&
            FirstVerification(lib, GetCertificateFromPem(lib, certChain.chain[0]).value, certChain.chain, rootCAs, scanDate).VerifyError?
            ==> r == ValidationResult(certChain.id, false,
                   FirstVerification(lib, GetCertificateFromPem(lib, certChain.chain[0]).value, certChain.chain, rootCAs, scanDate).message, "")
  {
    var chain := certChain.chain;
    RangeInRange(1, |chain|);
    match GetCertificateFromPem(lib, chain[0])
    case Err(_) => ValidationResult(certChain.id, false, NoValidLeaf, "")
    case Ok(leaf) =>
      if !AllAppend(lib, chain, Range(1, |chain|)) then ValidationResult(certChain.id, false, AppendFailed, "")
      else
        match lib.verify(leaf, Opts(rootCAs, scanDate, Some(PoolOf(lib, chain, Range(1, |chain|)))))
        case VerifyError(message) => ValidationResult(certChain.id, false, message, "")
        case Chains(validChains) =>
          var final := lib.verify(leaf, Opts(rootCAs, scanDate, None));
          var rendered := RenderChains(AllFingerprints(lib, validChains));
          ValidationResult(certChain.id, true, if final.VerifyError? then final.message else "", rendered)
  }

  /** The first verification: the leaf against the roots, with every intermediate pooled in chain order. */
  function FirstVerification(lib: Library, leaf: Certificate, chain: seq<string>, rootCAs: Option<CertPool>, scanDate: Date): Verification
    requires |chain| >= 1
  {
    RangeInRange(1, |chain|);
    lib.verify(leaf, Opts(rootCAs, scanDate, Some(PoolOf(lib, chain, Range(1, |chain|)))))
  }

  /**
   * The number of arrangements the reordering loop tries for `certChain`: none when the record
   * is invalid, since the loop is reached only after the first verification succeeds.
   */
  function ExpectedPermutations(lib: Library, certChain: CertChain, rootCAs: Option<CertPool>, scanDate: Date,
                                swaps: seq<Swap>): (n: nat)
    requires |certChain.chain| >= 1 && ValidSwaps(swaps, |certChain.chain| - 1)
    ensures n <= Min(|swaps|, MaxPermutations)
    ensures !ExpectedResult(lib, certChain, rootCAs, scanDate).isValid ==> n == 0
  {
    var chain := certChain.chain;
    RangeInRange(1, |chain|);
    match GetCertificateFromPem(lib, chain[0])
    case Err(_) => 0
    case Ok(leaf) =>
      if !AllAppend(lib, chain, Range(1, |chain|)) then 0
      else
        match FirstVerification(lib, leaf, chain, rootCAs, scanDate)
        case VerifyError(_) => 0
        case Chains(validChains) =>
          var stops := Stops(LoopInputs(lib, chain, rootCAs, scanDate, leaf, AllFingerprints(lib, validChains)), swaps);
          ExploreBounds(stops, true, 0, false);
          Explore(stops, true, 0, false)
  }

  /**
   * For a valid record the count is where the reordering loop stops: no arrangement before the
   * last one counted stops it, and a count below the bound ends on an arrangement that does.
   */
  lemma PermutationsStop(lib: Library, certChain: CertChain, rootCAs: Option<CertPool>, scanDate: Date, swaps: seq<Swap>)
    requires |certChain.chain| >= 1 && ValidSwaps(swaps, |certChain.chain| - 1)
    ensures ExpectedResult(lib, certChain, rootCAs, scanDate).isValid ==>
              var chain := certChain.chain;
              var leaf := GetCertificateFromPem(lib, chain[0]).value;
              var first := FirstVerification(lib, leaf, chain, rootCAs, scanDate);
              var x := LoopInputs(lib, chain, rootCAs, scanDate, leaf, AllFingerprints(lib, first.chains));
              var n := ExpectedPermutations(lib, certChain, rootCAs, scanDate, swaps);
              && (forall j :: 0 <= j < n - 1 ==> !StopsAt(x, OrderAt(chain, swaps, j)))
              && (n < Min(|swaps|, MaxPermutations) ==> 0 < n && StopsAt(x, OrderAt(chain, swaps, n - 1)))
  {
    if !ExpectedResult(lib, certChain, rootCAs, scanDate).isValid {
      return;
    }
    var chain := certChain.chain;
    var leaf := GetCertificateFromPem(lib, chain[0]).value;
    var first := FirstVerification(lib, leaf, chain, rootCAs, scanDate);
    var x := LoopInputs(lib, chain, rootCAs, scanDate, leaf, AllFingerprints(lib, first.chains));
    RangeInRange(1, |chain|);
    ExploreFromStart(x, swaps, ExpectedPermutations(lib, certChain, rootCAs, scanDate, swaps));
  }

  /**
   * A valid record renders the chains between brackets, and its error text is the roots-only
   * verification's error, or empty when that verification succeeds.
   */
  lemma ValidRecordBracketed(lib: Library, certChain: CertChain, rootCAs: Option<CertPool>, scanDate: Date)
    requires |certChain.chain| >= 1
    ensures var r := ExpectedResult(lib, certChain, rootCAs, scanDate);
            r.isValid ==>
              && |r.validChains| >= 2 && r.validChains[0] == '[' && r.validChains[|r.validChains| - 1] == ']'
              && var final := lib.verify(GetCertificateFromPem(lib, certChain.chain[0]).value, Opts(rootCAs, scanDate, None));
                 r.errorData == if final.VerifyError? then final.message else ""
  {
    var r := ExpectedResult(lib, certChain, rootCAs, scanDate);
    if r.isValid {
      var leaf := GetCertificateFromPem(lib, certChain.chain[0]).value;
      var first := FirstVerification(lib, leaf, certChain.chain, rootCAs, scanDate);
      var fps := AllFingerprints(lib, first.chains);
      Bracketed(Interleave(seq(|fps|, i requires 0 <= i < |fps| => SprintList(fps[i])), " "));
    }
  }

  /** A failing leaf decides the record alone: nothing else of the chain or the library is consulted. */
  lemma LeafFailureDecides(lib: Library, other: Library, certChain: CertChain, rest: seq<string>,
                           rootCAs: Option<CertPool>, otherRoots: Option<CertPool>, scanDate: Date, otherDate: Date)
    requires |certChain.chain| >= 1
    requires GetCertificateFromPem(lib, certChain.chain[0]).Err?
    requires other.pemDecode == lib.pemDecode && other.parseCertificate == lib.parseCertificate
    ensures ExpectedResult(other, CertChain(certChain.id, [certChain.chain[0]] + rest), otherRoots, otherDate)
            == ExpectedResult(lib, certChain, rootCAs, scanDate)
            == ValidationResult(certChain.id, false, NoValidLeaf, "")
  {
    var c := CertChain(certChain.id, [certChain.chain[0]] + rest);
    assert c.chain[0] == certChain.chain[0];
  }

  /** The first intermediate that fails to append decides the record: later elements are never looked at. */
  lemma AppendFailureDecides(lib: Library, certChain: CertChain, k: nat, rest: seq<string>,
                             rootCAs: Option<CertPool>, scanDate: Date)
    requires 1 <= k < |certChain.chain|
    requires GetCertificateFromPem(lib, certChain.chain[0]).Ok?
    requires !lib.appendsFromPem(certChain.chain[k])
    ensures ExpectedResult(lib, CertChain(certChain.id, certChain.chain[..k + 1] + rest), rootCAs, scanDate)
            == ExpectedResult(lib, certChain, rootCAs, scanDate)
            == ValidationResult(certChain.id, false, AppendFailed, "")
  {
    var chain := certChain.chain;
    var cut := chain[..k + 1] + rest;
    assert cut[0] == chain[0] && cut[k] == chain[k];
    RangeInRange(1, |chain|);
    RangeInRange(1, |cut|);
    assert Range(1, |chain|)[k - 1] == k;
    assert Range(1, |cut|)[k - 1] == k;
  }

  /**
   * Validity and the rendered chains come from the first verification alone: two libraries
   * that differ only in the roots-only verification give records that differ at most in
   * `errorData`.
   */
  lemma ValidityIgnoresFinalVerification(lib: Library, other: Library, certChain: CertChain,
                                         rootCAs: Option<CertPool>, scanDate: Date)
    requires |certChain.chain| >= 1
    requires other.pemDecode == lib.pemDecode && other.parseCertificate == lib.parseCertificate
    requires other.appendsFromPem == lib.appendsFromPem && other.fingerprint == lib.fingerprint
    requires forall c: Certificate, o: VerifyOptions :: o.intermediates.Some? ==> other.verify(c, o) == lib.verify(c, o)
    ensures ExpectedResult(other, certChain, rootCAs, scanDate).isValid == ExpectedResult(lib, certChain, rootCAs, scanDate).isValid
    ensures ExpectedResult(other, certChain, rootCAs, scanDate).validChains == ExpectedResult(lib, certChain, rootCAs, scanDate).validChains
  {
    var chain := certChain.chain;
    RangeInRange(1, |chain|);
    assert PoolOf(other, chain, Range(1, |chain|)) == PoolOf(lib, chain, Range(1, |chain|)) by {
      PoolOfSameAppends(lib, other, chain, Range(1, |chain|));
    }
    forall cs: seq<seq<Certificate>> ensures AllFingerprints(other, cs) == AllFingerprints(lib, cs) {
      SameFingerprints(lib, other, cs);
    }
  }

  lemma {:induction false} SameChainFingerprints(lib: Library, other: Library, chain: seq<Certificate>)
    requires other.fingerprint == lib.fingerprint
    ensures ChainFingerprints(other, chain) == ChainFingerprints(lib, chain)
  {
    if |chain| > 0 {
      SameChainFingerprints(lib, other, chain[..|chain| - 1]);
    }
  }

  lemma {:induction false} SameFingerprints(lib: Library, other: Library, chains: seq<seq<Certificate>>)
    requires other.fingerprint == lib.fingerprint
    ensures AllFingerprints(other, chains) == AllFingerprints(lib, chains)
  {
    if |chains| > 0 {
      SameFingerprints(lib, other, chains[..|chains| - 1]);
      SameChainFingerprints(lib, other, chains[|chains| - 1]);
    }
  }

  lemma {:induction false} PoolOfSameAppends(lib: Library, other: Library, chain: seq<string>, order: seq<nat>)
    requires InRange(order, |chain|)
    requires other.appendsFromPem == lib.appendsFromPem
    ensures PoolOf(other, chain, order) == PoolOf(lib, chain, order)
  {
    if |order| > 0 {
      PoolOfSameAppends(lib, other, chain, order[..|order| - 1]);
    }
  }

  /**
   * A valid record lists the first verification's chains, each as its quoted upper-case
   * fingerprints separated by ", " in brackets, the chains separated by ", " in brackets.
   */
  lemma ValidChainsListFirstVerification(lib: Library, certChain: CertChain, rootCAs: Option<CertPool>, scanDate: Date)
    requires |certChain.chain| >= 1
    requires forall c :: ' ' !in lib.fingerprint(c)
    ensures ExpectedResult(lib, certChain, rootCAs, scanDate).isValid ==>
              var leaf := GetCertificateFromPem(lib, certChain.chain[0]).value;
              var first := FirstVerification(lib, leaf, certChain.chain, rootCAs, scanDate);
              first.Chains? &&
              ExpectedResult(lib, certChain, rootCAs, scanDate).validChains == CommaList(AllFingerprints(lib, first.chains))
  {
    if !ExpectedResult(lib, certChain, rootCAs, scanDate).isValid {
      return;
    }
    var leaf := GetCertificateFromPem(lib, certChain.chain[0]).value;
    var first := FirstVerification(lib, leaf, certChain.chain, rootCAs, scanDate);
    var fps := AllFingerprints(lib, first.chains);
    AllFingerprintsAt(lib, first.chains);
    forall i, j | 0 <= i < |fps| && 0 <= j < |fps[i]|
      ensures ' ' !in fps[i][j]
    {
      ChainFingerprintsAt(lib, first.chains[i]);
      var cert := first.chains[i][j];
      assert fps[i][j] == Quote(ToUpper(lib.fingerprint(cert)));
      assert ' ' !in ToUpper(lib.fingerprint(cert)) by {
        forall x | 0 <= x < |lib.fingerprint(cert)| ensures ToUpper(lib.fingerprint(cert))[x] != ' ' {
          assert lib.fingerprint(cert)[x] in lib.fingerprint(cert);
        }
      }
    }
    RenderChainsCommaSeparated(fps);
  }

  // ---------------------------------------------------------------------------
  // ValidateChainPem

  /**
   * Validate one chain and send its record.  `swaps` is the sequence the Heap permutation
   * generator produces for the intermediates.  Exactly one record is sent, and it is the same
   * whatever the swaps; the count returned is what the log line reports (less one).
   */
  method ValidateChainPem(lib: Library, certChain: CertChain, rootCAs: Option<CertPool>,
                          resultChan: ResultChannel, scanDate: Date, swaps: seq<Swap>)
    returns (permutations: nat)
    requires |certChain.chain| >= 1
    requires ValidSwaps(swaps, |certChain.chain| - 1)
    modifies resultChan
    ensures resultChan.sent == old(resultChan.sent) + [ExpectedResult(lib, certChain, rootCAs, scanDate)]
    ensures permutations == ExpectedPermutations(lib, certChain, rootCAs, scanDate, swaps)
    ensures permutations <= MaxPermutations
  {
    var chain := certChain.chain;
    var valResult := ValidationResult(certChain.id, false, "", "");
    permutations := 0;
    RangeInRange(1, |chain|);

    var leafResult := GetCertificateFromPem(lib, chain[0]);
    if leafResult.Err? {
      valResult := valResult.(errorData := NoValidLeaf);
      resultChan.Send(valResult);
      return;
    }
    var leaf := leafResult.value;

    var intermediateIdx: seq<nat> := [];
    var intermediates := CertPool([]);
    for i := 1 to |chain|
      invariant intermediateIdx == Range(1, i)
      invariant intermediates == PoolOf(lib, chain, intermediateIdx)
      invariant AllAppend(lib, chain, intermediateIdx)
    {
      if !lib.appendsFromPem(chain[i]) {
        assert Range(1, |chain|)[i - 1] == i;
        valResult := valResult.(errorData := AppendFailed);
        resultChan.Send(valResult);
        return;
      }
      intermediates := CertPool(intermediates.entries + [PemText(chain[i])]);
      intermediateIdx := intermediateIdx + [i];
      assert intermediateIdx[..|intermediateIdx| - 1] == Range(1, i);
    }

    var verification := lib.verify(leaf, Opts(rootCAs, scanDate, Some(intermediates)));
    if verification.VerifyError? {
      valResult := valResult.(errorData := verification.message);
      resultChan.Send(valResult);
      return;
    }
    var validChainsFp := FingerprintChains(lib, verification.chains);

    var arranged;
    permutations, arranged := ExploreOrderings(LoopInputs(lib, chain, rootCAs, scanDate, leaf, validChainsFp), intermediateIdx, swaps);

    var final := lib.verify(leaf, Opts(rootCAs, scanDate, None));
    if final.Chains? {
      var _, _ := TryAppendChain(lib, validChainsFp, final.chains);
    }

    valResult := valResult.(isValid := true, validChains := RenderChains(validChainsFp));
    if final.VerifyError? {
      valResult := valResult.(errorData := final.message);
    }
    resultChan.Send(valResult);
  }
}
