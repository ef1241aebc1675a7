/**
 * The parts of Go's crypto/x509 and encoding/pem that the validator calls, as uninterpreted
 * operations: PEM decoding (RFC 7468), certificate parsing, `CertPool.AppendCertsFromPEM`,
 * path building and validation per section 6 of RFC 5280 (`Certificate.Verify`) and the
 * certificate fingerprint.  A `Library` value fixes one meaning for all of them.
 */
module X509 {
  import opened Wrappers
  import opened Dates

  /** A parsed certificate, identified by its DER encoding. */
  datatype Certificate = Certificate(der: string)

  /** The first block `pem.Decode` finds: its type label and its decoded bytes. */
  datatype PemBlock = PemBlock(blockType: string, bytes: string)

  /** One addition to a pool: every certificate of a PEM text, or one parsed certificate. */
  datatype PoolEntry = PemText(text: string) | Parsed(cert: Certificate)

  /** An `x509.CertPool`, recorded as the additions made to it, in order. */
  datatype CertPool = CertPool(entries: seq<PoolEntry>)

  /** Extended key usages (section 4.2.1.12 of RFC 5280); the tool only ever asks for "any". */
  datatype ExtKeyUsage = ExtKeyUsageAny | ExtKeyUsageServerAuth | ExtKeyUsageOther(oid: string)

  /** `x509.VerifyOptions`; a `None` pool is Go's nil pool. */
  datatype VerifyOptions = VerifyOptions(
    roots: Option<CertPool>,
    currentTime: Date,
    intermediates: Option<CertPool>,
    dnsName: string,
    keyUsages: seq<ExtKeyUsage>)

  /** What `Certificate.Verify` returns: every chain it built from the leaf to a root, or its error. */
  datatype Verification = Chains(chains: seq<seq<Certificate>>) | VerifyError(message: string)

  /** One interpretation of the certificate library. */
  datatype Library = Library(
    pemDecode: string -> Option<PemBlock>,
    parseCertificate: string -> Result<Certificate, string>,
    appendsFromPem: string -> bool,
    verify: (Certificate, VerifyOptions) -> Verification,
    fingerprint: Certificate -> string)
}
