/**
 * The error classifier of the chain analysis script (analyze_leaf_in_chains.py): it reduces
 * the per-root-store verification errors of one validated chain to one short category.
 * A Python `KeyError` on an unknown error prefix is the result `None`.
 */
module ErrorAnalysis {
  import opened Wrappers
  import opened Strings

  const UnknownAuthority := "Signed by unknown authority"
  const Expired := "Expired/Not yet valid"
  const NotAuthorizedToSign := "Not authorized to sign other certificates"
  const TooManyIntermediates := "Too many intermediate certificates"
  const UnhandledCriticalExtension := "Unhandled critical extension"
  const OtherErrors := "Other errors"
  const SelfSigned := "Self-signed"
  const ValidChain := "Valid chain"
  /** A refinement of `UnknownAuthority`: the candidate issuer's signature did not check. */
  const InvalidSignature := "Invalid signature"
  const NoValidLeaf := "No valid leaf certificate"

  /*
   * The listed prefixes are "x509" and one or two further fields after a colon each.  The
   * fields are written in pieces short enough for the verifier to see that none holds a colon.
   */
  const X509 := "x509"
  const SignedByUnknownField := " certificate signed" + " by unknown authority"
  const WithExplanationField := SignedByUnknownField + " - With possible" + " explanation"
  const ExpiredField := " certificate has expired" + " or is not yet valid"
  const NotAuthorizedField := " certificate is not authorized" + " to sign other certificates"
  const TooManyIntermediatesField := " too many intermediates" + " for path length constraint"
  const CriticalExtensionField := " unhandled critical" + " extension"
  /** The verifier's hint on an unknown issuer, cut at the colon of the quoted inner error. */
  const HintField := SignedByUnknownField + " (possibly because" + " of \"x509"
  const InvalidSignatureField := " invalid signature"

  const ExpiredKey := X509 + ":" + ExpiredField
  /** The first two fields of the verifier's message for an unknown issuer that has a hint. */
  const UnknownAuthorityHint := X509 + ":" + HintField
  /** The same message whose hint is a failed signature check. */
  const InvalidSignatureKey := UnknownAuthorityHint + ":" + InvalidSignatureField

  /** `short_error_name_map`: error prefixes and the categories they stand for. */
  const ShortErrorNames: map<string, string> := map[
    X509 + ":" + SignedByUnknownField := UnknownAuthority,
    X509 + ":" + WithExplanationField := UnknownAuthority,
    ExpiredKey := Expired,
    X509 + ":" + NotAuthorizedField := NotAuthorizedToSign,
    X509 + ":" + TooManyIntermediatesField := TooManyIntermediates,
    X509 + ":" + CriticalExtensionField := UnhandledCriticalExtension,
    InvalidSignatureKey := InvalidSignature,
    UnknownAuthorityHint := UnknownAuthority,
    "" := ValidChain
  ]

  /** One element of a chain's `root_stores` column: a store name and that store's error text. */
  datatype StoreError = StoreError(store: string, rootStoreError: string)

  /** The stores' errors in input order. */
  function Errors(stores: seq<StoreError>): (errs: seq<string>)
  {
    seq(|stores|, i requires 0 <= i < |stores| => stores[i].rootStoreError)
  }

  /**
   * What `get_error_list` returns: nothing for a chain without stores, the empty list when some
   * store accepted the chain, and otherwise every store's error.
   */
  function ErrorList(stores: seq<StoreError>): Option<seq<string>>
  {
    if |stores| == 0 then None
    else if "" in Errors(stores) then Some([])
    else Some(Errors(stores))
  }

  /** The three outcomes of `get_error_list`, each exactly when its condition holds. */
  lemma ErrorListMeans(stores: seq<StoreError>)
    ensures ErrorList(stores).None? <==> |stores| == 0
    ensures ErrorList(stores) == Some([]) <==>
      |stores| > 0 && exists i :: 0 <= i < |stores| && stores[i].rootStoreError == ""
    ensures ErrorList(stores).Some? && ErrorList(stores) != Some([]) ==>
      var errs := ErrorList(stores).value;
      |errs| == |stores| && forall i :: 0 <= i < |stores| ==> errs[i] == stores[i].rootStoreError != ""
  {
    if |stores| > 0 && exists i :: 0 <= i < |stores| && stores[i].rootStoreError == "" {
      var i :| 0 <= i < |stores| && stores[i].rootStoreError == "";
      assert Errors(stores)[i] == "";
    }
  }

  /**
   * `get_error_list`: collects the stores' errors in a loop, then answers the empty list if
   * any of them is empty.
   */
  method GetErrorList(stores: seq<StoreError>) returns (r: Option<seq<string>>)
    ensures r == ErrorList(stores)
  {
    if |stores| == 0 {
      return None;
    }
    var errorList: seq<string> := [];
    for i := 0 to |stores|
      invariant errorList == Errors(stores[..i])
    {
      assert Errors(stores[..i + 1]) == errorList + [stores[i].rootStoreError];
      errorList := errorList + [stores[i].rootStoreError];
    }
    assert stores[..|stores|] == stores;
    if "" in errorList {
      return Some([]);
    }
    return Some(errorList);
  }

  /**
   * The error the `for`/`break` scan stops at: the first non-empty one, or the last one (then
   * empty) when there is none, or the initial empty string for an empty list.
   */
  function FirstNonEmpty(errs: seq<string>): string
  {
    if |errs| == 0 then ""
    else if errs[0] != "" then errs[0]
    else FirstNonEmpty(errs[1..])
  }

  /** `':'.join(e.split(":")[:n])`: the first `n` fields of `e`, re-joined. */
  function Prefix(e: string, n: nat): string
    requires n >= 1
  {
    var parts := Split(e, ':');
    Join(parts[..if n < |parts| then n else |parts|], ':')
  }

  /** The category of one error: its three-field prefix if listed, else its two-field prefix. */
  function ShortName(e: string): Option<string>
  {
    if Prefix(e, 3) in ShortErrorNames then Some(ShortErrorNames[Prefix(e, 3)])
    else if Prefix(e, 2) in ShortErrorNames then Some(ShortErrorNames[Prefix(e, 2)])
    else None
  }

  /** What `error_str2` returns, `None` where it raises `KeyError`. */
  function ErrorClass(stores: seq<StoreError>): Option<string>
  {
    match ErrorList(stores)
    case None => Some(NoValidLeaf)
    case Some(errs) => if errs == [] then Some(ValidChain) else ShortName(FirstNonEmpty(errs))
  }

  /**
   * `error_str2`: takes the error list, scans for the first non-empty error and looks up its
   * three-field prefix, then its two-field prefix.
   */
  method ErrorStr2(stores: seq<StoreError>) returns (r: Option<string>)
    ensures r == ErrorClass(stores)
  {
    var errorList := GetErrorList(stores);
    if errorList.None? {
      return Some(NoValidLeaf);
    }
    var errs := errorList.value;
    if errs == [] {
      return Some(ValidChain);
    }
    var errorData := "";
    var i := 0;
    while i < |errs|
      invariant 0 <= i <= |errs|
      invariant errorData == "" && FirstNonEmpty(errs[i..]) == FirstNonEmpty(errs)
    {
      errorData := errs[i];
      if errorData != "" {
        break;
      }
      assert errs[i..][1..] == errs[i + 1..];
      i := i + 1;
    }
    assert errorData == FirstNonEmpty(errs);
    var parts := Split(errorData, ':');
    var parsedError := Join(parts[..if 3 < |parts| then 3 else |parts|], ':');
    if parsedError in ShortErrorNames {
      return Some(ShortErrorNames[parsedError]);
    }
    parsedError := Join(parts[..if 2 < |parts| then 2 else |parts|], ':');
    if parsedError in ShortErrorNames {
      return Some(ShortErrorNames[parsedError]);
    }
    return None;
  }

  // ---------------------------------------------------------------------------
  // Properties of the classification

  /** A list without empty errors starts its scan at its first element. */
  lemma FirstNonEmptyHead(errs: seq<string>)
    requires |errs| > 0 && errs[0] != ""
    ensures FirstNonEmpty(errs) == errs[0]
  {
  }

  /** Only the empty prefix stands for a valid chain, and no prefix for a missing leaf. */
  lemma TableValues()
    ensures forall k :: k in ShortErrorNames && ShortErrorNames[k] == ValidChain ==> k == ""
    ensures NoValidLeaf !in ShortErrorNames.Values
  {
  }

  /** A prefix of two or more fields of a non-empty error is non-empty. */
  lemma PrefixNonEmpty(e: string, n: nat)
    requires n >= 2 && e != ""
    ensures Prefix(e, n) != ""
  {
    var parts := Split(e, ':');
    if |parts| == 1 {
      JoinSplit(e, ':');
      assert parts[..1] == parts;
    } else {
      var k := if n < |parts| then n else |parts|;
      assert Join(parts[..k], ':') == parts[0] + [':'] + Join(parts[..k][1..], ':');
    }
  }

  /** The category is "No valid leaf certificate" exactly for a chain without root stores. */
  lemma NoValidLeafIff(stores: seq<StoreError>)
    ensures ErrorClass(stores) == Some(NoValidLeaf) <==> |stores| == 0
  {
    TableValues();
  }

  /** The category is "Valid chain" exactly when some root store accepted the chain. */
  lemma ValidChainIff(stores: seq<StoreError>)
    ensures ErrorClass(stores) == Some(ValidChain) <==>
      |stores| > 0 && exists i :: 0 <= i < |stores| && stores[i].rootStoreError == ""
  {
    ErrorListMeans(stores);
    var errs := ErrorList(stores);
    if errs.Some? && errs.value != [] {
      var e := errs.value[0];
      FirstNonEmptyHead(errs.value);
      TableValues();
      PrefixNonEmpty(e, 3);
      PrefixNonEmpty(e, 2);
    }
  }

  /** When every store rejected the chain, the first store's error alone decides the category. */
  lemma FirstErrorDecides(stores: seq<StoreError>)
    requires |stores| > 0 && forall i :: 0 <= i < |stores| ==> stores[i].rootStoreError != ""
    ensures ErrorClass(stores) == ShortName(stores[0].rootStoreError)
  {
    ErrorListMeans(stores);
    FirstNonEmptyHead(ErrorList(stores).value);
  }

  /** `error_str2` raises `KeyError` exactly when neither prefix of the first error is listed. */
  lemma KeyErrorIff(stores: seq<StoreError>)
    ensures ErrorClass(stores).None? <==>
      |stores| > 0 && (forall i :: 0 <= i < |stores| ==> stores[i].rootStoreError != "")
      && Prefix(stores[0].rootStoreError, 3) !in ShortErrorNames
      && Prefix(stores[0].rootStoreError, 2) !in ShortErrorNames
  {
    ErrorListMeans(stores);
    if |stores| > 0 && forall i :: 0 <= i < |stores| ==> stores[i].rootStoreError != "" {
      FirstErrorDecides(stores);
    }
  }

  /** A message that starts with two colon-free fields splits into them and the rest's fields. */
  lemma SplitTwoFields(a: string, b: string, rest: string)
    requires ':' !in a && ':' !in b
    ensures Split(a + ":" + b + ":" + rest, ':') == [a, b] + Split(rest, ':')
  {
    assert a + ":" + b + ":" + rest == a + [':'] + (b + [':'] + rest);
    SplitAround(a, b + [':'] + rest, ':');
    SplitAround(b, rest, ':');
    SplitNoSeparator(a, ':');
    SplitNoSeparator(b, ':');
  }

  /** The two- and three-field prefixes of such a message. */
  lemma FieldPrefixes(a: string, b: string, rest: string)
    requires ':' !in a && ':' !in b
    ensures Prefix(a + ":" + b + ":" + rest, 2) == a + ":" + b
    ensures Prefix(a + ":" + b + ":" + rest, 3) == a + ":" + b + ":" + Split(rest, ':')[0]
  {
    var parts := Split(a + ":" + b + ":" + rest, ':');
    SplitTwoFields(a, b, rest);
    var c := Split(rest, ':')[0];
    assert parts[..2] == [a, b];
    assert parts[..3] == [a, b, c];
    assert [a, b][1..] == [b];
    assert [a, b, c][1..] == [b, c] && [b, c][1..] == [c];
    assert |parts| >= 3;
    assert Join([a, b], ':') == a + ":" + b;
    assert Join([b, c], ':') == b + ":" + c;
    assert Join([a, b, c], ':') == a + [':'] + Join([b, c], ':');
    assert Prefix(a + ":" + b + ":" + rest, 2) == Join(parts[..2], ':');
  }

  /** The fields of the listed prefixes hold no colon. */
  lemma FieldsColonFree()
    ensures ':' !in X509 && ':' !in SignedByUnknownField && ':' !in WithExplanationField
    ensures ':' !in ExpiredField && ':' !in NotAuthorizedField && ':' !in TooManyIntermediatesField
    ensures ':' !in CriticalExtensionField && ':' !in HintField && ':' !in InvalidSignatureField
  {
    UnknownIssuerFieldsColonFree();
    OtherFieldsColonFree();
    assert ':' !in InvalidSignatureField;
  }

  lemma UnknownIssuerFieldsColonFree()
    ensures ':' !in X509 && ':' !in SignedByUnknownField && ':' !in WithExplanationField && ':' !in HintField
  {
    assert ':' !in " certificate signed" && ':' !in " by unknown authority";
    assert ':' !in " - With possible" && ':' !in " explanation";
    assert ':' !in " (possibly because" && ':' !in " of \"x509";
  }

  lemma OtherFieldsColonFree()
    ensures ':' !in ExpiredField && ':' !in NotAuthorizedField && ':' !in TooManyIntermediatesField
    ensures ':' !in CriticalExtensionField
  {
    CertificateFieldsColonFree();
    assert ':' !in " too many intermediates" && ':' !in " for path length constraint";
    assert ':' !in " unhandled critical" && ':' !in " extension";
  }

  lemma CertificateFieldsColonFree()
    ensures ':' !in ExpiredField && ':' !in NotAuthorizedField
  {
    assert ':' !in " certificate has expired" && ':' !in " or is not yet valid";
    assert ':' !in " certificate is not authorized" && ':' !in " to sign other certificates";
  }

  /**
   * An unknown-issuer message whose hint is a failed signature check falls in the
   * "Invalid signature" category, whatever follows the hint.
   */
  lemma InvalidSignatureClass(tail: string)
    ensures ShortName(InvalidSignatureKey + ":" + tail) == Some(InvalidSignature)
  {
    FieldsColonFree();
    var rest := InvalidSignatureField + [':'] + tail;
    assert InvalidSignatureKey + ":" + tail == X509 + ":" + HintField + ":" + rest;
    FieldPrefixes(X509, HintField, rest);
    FirstFieldOf(InvalidSignatureField, tail, ':');
  }

  /** A listed message with at most two colons falls in its own category. */
  lemma ListedClass(e: string)
    requires e in ShortErrorNames && |Split(e, ':')| <= 3
    ensures ShortName(e) == Some(ShortErrorNames[e])
  {
    JoinSplit(e, ':');
    assert Split(e, ':')[..|Split(e, ':')|] == Split(e, ':');
  }

  /** A colon-free field after "x509" makes a two-field prefix. */
  lemma TwoFields(b: string)
    requires ':' !in b
    ensures |Split(X509 + ":" + b, ':')| == 2
  {
    FieldsColonFree();
    assert X509 + ":" + b == X509 + [':'] + b;
    SplitAround(X509, b, ':');
    SplitNoSeparator(X509, ':');
    SplitNoSeparator(b, ':');
  }

  /** Every listed prefix but the invalid-signature one has at most two fields. */
  lemma ListedFields(k: string)
    requires k in ShortErrorNames && k != InvalidSignatureKey
    ensures |Split(k, ':')| <= 2
  {
    FieldsColonFree();
    if k == X509 + ":" + SignedByUnknownField {
      TwoFields(SignedByUnknownField);
    } else if k == X509 + ":" + WithExplanationField {
      TwoFields(WithExplanationField);
    } else if k == ExpiredKey {
      TwoFields(ExpiredField);
    } else if k == X509 + ":" + NotAuthorizedField {
      TwoFields(NotAuthorizedField);
    } else if k == X509 + ":" + TooManyIntermediatesField {
      TwoFields(TooManyIntermediatesField);
    } else if k == X509 + ":" + CriticalExtensionField {
      TwoFields(CriticalExtensionField);
    } else if k == UnknownAuthorityHint {
      TwoFields(HintField);
    }
  }

  /** Three colon-free fields split into exactly three. */
  lemma ThreeFields(a: string, b: string, c: string)
    requires ':' !in a && ':' !in b && ':' !in c
    ensures |Split(a + ":" + b + ":" + c, ':')| == 3
  {
    SplitTwoFields(a, b, c);
    SplitNoSeparator(c, ':');
  }

  /**
   * A message whose first two fields are listed falls in their category, unless its first
   * three fields are the one listed three-field prefix.
   */
  lemma TwoFieldClass(a: string, b: string, rest: string)
    requires ':' !in a && ':' !in b && a + ":" + b in ShortErrorNames
    requires a + ":" + b + ":" + Split(rest, ':')[0] != InvalidSignatureKey
    ensures ShortName(a + ":" + b + ":" + rest) == Some(ShortErrorNames[a + ":" + b])
  {
    FieldPrefixes(a, b, rest);
    var c := Split(rest, ':')[0];
    if a + ":" + b + ":" + c in ShortErrorNames {
      SplitFieldsFree(rest, ':');
      ThreeFields(a, b, c);
      ListedFields(a + ":" + b + ":" + c);
      assert false;
    }
  }

  /**
   * The verifier's expiry message carries the current time and the validity bound after a
   * third colon; it falls back to its two-field prefix and so in the expiry category.
   */
  lemma ExpiredClass(rest: string)
    ensures ShortName(ExpiredKey + ":" + rest) == Some(Expired)
  {
    FieldsColonFree();
    var c := Split(rest, ':')[0];
    assert |ExpiredField| < |HintField|;
    SplitFieldsFree(rest, ':');
    NotInvalidSignature(ExpiredField, c);
    ExpiredListed();
    TwoFieldClass(X509, ExpiredField, rest);
  }

  /** The expiry prefix is listed as the expiry category. */
  lemma ExpiredListed()
    ensures ExpiredKey in ShortErrorNames && ShortErrorNames[ExpiredKey] == Expired
  {
    assert |ExpiredKey| == 49;
    assert |InvalidSignatureKey| > 49 && |UnknownAuthorityHint| > 49;
    assert |X509 + ":" + NotAuthorizedField| > 49 && |X509 + ":" + TooManyIntermediatesField| > 49;
    assert |X509 + ":" + CriticalExtensionField| < 49;
  }

  /** Three fields whose second is not the hint's are not the invalid-signature prefix. */
  lemma NotInvalidSignature(b: string, c: string)
    requires ':' !in b && ':' !in c && b != HintField
    ensures X509 + ":" + b + ":" + c != InvalidSignatureKey
  {
    FieldsColonFree();
    SplitTwoFields(X509, b, c);
    SplitTwoFields(X509, HintField, InvalidSignatureField);
    assert Split(X509 + ":" + b + ":" + c, ':')[1] == b;
    assert Split(InvalidSignatureKey, ':')[1] == HintField;
  }
}
