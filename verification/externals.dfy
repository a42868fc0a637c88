/** The libraries the codec calls and does not implement, as one record of
    functions the caller passes in: CBOR, pako's deflate/inflate, the Base32,
    Base45 and Base64 codecs, SHA-256, the X.509 PEM parser, the COSE signing
    primitive and the key directory.

    Nothing is assumed about any of them here. A lemma that needs a property of
    a library (inflate undoes deflate, say) states that property as a
    `requires`, using the predicates of the module that needs it. */
module Externals {
  import opened Wrappers
  import opened Values

  /** What the X.509 parser exposes of a certificate: the DER bytes, the
      object identifier of the public-key algorithm, and the raw public key
      bits. */
  datatype Certificate = Certificate(raw: Bytes, oid: string, keyRaw: Bytes)

  /** What the parser exposes of a PKCS#8 private key: its raw key bytes. */
  datatype PrivateKey = PrivateKey(keyRaw: Bytes)

  /** The protected header handed to the COSE primitive (`{alg, kid}`). */
  datatype ProtectedHeader = ProtectedHeader(alg: string, kid: Bytes)

  /** `{p: {alg, kid}, u: {}}`: protected and unprotected headers. */
  datatype CoseHeaders = CoseHeaders(p: ProtectedHeader, u: seq<Entry>)

  /** `{key: {d}}`: the private scalar used to sign. */
  datatype Signer = Signer(d: Bytes)

  /** `{key: {x, y, kid}}` for ECDSA or `{key: {n, e, kid}}` for RSA. */
  datatype Verifier =
    | EcVerifier(x: Bytes, y: Bytes, kid: Bytes)
    | RsaVerifier(n: Bytes, e: Bytes, kid: Bytes)

  datatype Libraries = Libraries(
    cborEncode: Value -> Bytes,
    cborDecode: Bytes -> Result<Value>,
    deflate: Bytes -> Bytes,
    inflate: Bytes -> Result<Bytes>,
    base32Encode: Bytes -> string,
    base32Decode: string -> Result<Bytes>,
    base45Encode: Bytes -> string,
    base45Decode: string -> Result<Bytes>,
    base64: Bytes -> string,
    sha256: Bytes -> Bytes,
    certificateFromPem: string -> Result<Certificate>,
    privateKeyFromPem: string -> Result<PrivateKey>,
    coseCreate: (CoseHeaders, Bytes, Signer) -> Result<Bytes>,
    coseVerify: (Bytes, Verifier) -> Result<Bytes>,
    resolveKey: string -> Option<string>)
}
