/** Key parameters derived from a certificate and a PKCS#8 private key
    (`getParamsFromPEM`, `getPrivateKeyFromP8`).

    The key material is cut out of the raw DER key bits at fixed byte offsets
    with JavaScript's `slice`, which clamps out-of-range indices and counts
    negative ones from the end. A key shorter than the offsets therefore gives
    short or empty pieces, never an error; only the PEM parser can fail. */
module KeyMaterial {
  import opened Wrappers
  import opened Values
  import opened Externals

  /** rsaEncryption, section 2.3.1 of RFC 3279. */
  const RSA_OID := "1.2.840.113549.1.1.1"

  function Min(a: int, b: int): int { if a < b then a else b }

  function Max(a: int, b: int): int { if a < b then b else a }

  /** Where a `slice` argument lands in a sequence of length `len`. */
  function SliceIndex(i: int, len: nat): (r: nat)
    ensures r <= len
  {
    if i < 0 then Max(len + i, 0) else Min(i, len)
  }

  /** `s.slice(start, end)` with JavaScript semantics. */
  function JsSlice<T>(s: seq<T>, start: int, end: int): (r: seq<T>)
    ensures |r| <= |s|
    ensures 0 <= start <= end <= |s| ==> r == s[start..end]
    ensures 0 <= end <= start ==> r == []
    // a negative index counts from the end
    ensures -|s| <= start < 0 && end == |s| ==> r == s[|s| + start..]
    ensures 0 <= start <= |s| + end && -|s| <= end < 0 ==> r == s[start..|s| + end]
  {
    var from, to := SliceIndex(start, |s|), SliceIndex(end, |s|);
    if from < to then s[from..to] else []
  }

  /** Cutting at any index, negative or past the end, splits `s` in two. */
  lemma JsSliceSplits<T>(s: seq<T>, k: int)
    ensures JsSlice(s, 0, k) + JsSlice(s, k, |s|) == s
  {
    var m := SliceIndex(k, |s|);
    assert JsSlice(s, 0, k) == s[..m];
    assert JsSlice(s, k, |s|) == s[m..];
  }

  /** Algorithm-tagged key description: RSA modulus and exponent, or the
      EC point split as format byte, X and Y (section 2.3.3 of SEC 1). */
  datatype KeyParams =
    | RsaParams(keyId: Bytes, keyMod: Bytes, keyExp: Bytes, pk: Bytes)
    | EcParams(keyId: Bytes, keyB: Bytes, keyX: Bytes, keyY: Bytes)
  {
    function Alg(): string {
      if RsaParams? then "PS256" else "ES256"
    }
  }

  /** The parameters of a parsed certificate whose DER bytes hash to
      `fingerprint`. */
  function ParamsFromCertificate(cert: Certificate, fingerprint: Bytes): (p: KeyParams)
    ensures p.RsaParams? <==> cert.oid == RSA_OID
    ensures p.Alg() == "PS256" <==> cert.oid == RSA_OID
    ensures p.Alg() == "ES256" <==> cert.oid != RSA_OID
    // the key ID is the first 8 bytes of the fingerprint, or all of a shorter one
    ensures |p.keyId| == Min(8, |fingerprint|) && p.keyId == fingerprint[..|p.keyId|]
    ensures p.RsaParams? ==> p.pk == cert.keyRaw
    // RSA: the modulus lies between a 9-byte header and a 5-byte trailer ...
    ensures p.RsaParams? && |cert.keyRaw| >= 14 ==> p.keyMod == cert.keyRaw[9..|cert.keyRaw| - 5]
    ensures p.RsaParams? && |cert.keyRaw| <= 14 ==> p.keyMod == []
    // ... and the exponent is the last 3 bytes, or a shorter suffix of a shorter key
    ensures p.RsaParams? ==> |p.keyExp| <= Min(3, |cert.keyRaw|) && p.keyExp == cert.keyRaw[|cert.keyRaw| - |p.keyExp|..]
    ensures p.RsaParams? && |cert.keyRaw| >= 3 ==> |p.keyExp| == 3
    // EC: format byte, then 32-byte X and Y, each cut short by a short key
    ensures p.EcParams? ==> p.keyB + p.keyX + p.keyY == cert.keyRaw[..Min(65, |cert.keyRaw|)]
    ensures p.EcParams? ==> |p.keyB| == Min(1, |cert.keyRaw|)
    ensures p.EcParams? ==> |p.keyX| == Max(0, Min(32, |cert.keyRaw| - 1))
  {
    var keyId := JsSlice(fingerprint, 0, 8);
    var pk := cert.keyRaw;
    if cert.oid == RSA_OID then
      RsaParams(keyId, JsSlice(pk, 9, |pk| - 5), JsSlice(pk, |pk| - 3, |pk|), pk)
    else
      var keyB, keyX, keyY := JsSlice(pk, 0, 1), JsSlice(pk, 1, 1 + 32), JsSlice(pk, 33, 33 + 32);
      assert keyB + keyX + keyY == pk[..Min(65, |pk|)] by {
        assert keyB == pk[..Min(1, |pk|)];
        assert keyX == pk[Min(1, |pk|)..Min(33, |pk|)];
        assert keyY == pk[Min(33, |pk|)..Min(65, |pk|)];
      }
      EcParams(keyId, keyB, keyX, keyY)
  }

  /** A full-length RSA key is header, modulus, exponent header, exponent:
      the two cuts lose only the 9 leading and the 2 bytes between them. */
  lemma RsaKeyLayout(cert: Certificate, fingerprint: Bytes)
    requires cert.oid == RSA_OID && |cert.keyRaw| >= 14
    ensures var p := ParamsFromCertificate(cert, fingerprint);
      var pk := cert.keyRaw;
      pk == pk[..9] + p.keyMod + pk[|pk| - 5..|pk| - 3] + p.keyExp
  {
    var p, pk := ParamsFromCertificate(cert, fingerprint), cert.keyRaw;
    assert pk == pk[..9] + pk[9..|pk| - 5] + pk[|pk| - 5..|pk| - 3] + pk[|pk| - 3..];
  }

  /** An uncompressed P-256 point of 65 bytes splits into 1 + 32 + 32 bytes. */
  lemma EcPointLayout(cert: Certificate, fingerprint: Bytes)
    requires cert.oid != RSA_OID && |cert.keyRaw| >= 65
    ensures var p := ParamsFromCertificate(cert, fingerprint);
      |p.keyB| == 1 && |p.keyX| == 32 && |p.keyY| == 32 &&
      p.keyB + p.keyX + p.keyY == cert.keyRaw[..65]
  {
  }

  /** `getParamsFromPEM`: parse the certificate, key ID from the SHA-256 of its
      DER bytes, algorithm from the public-key OID. */
  function GetParamsFromPem(env: Libraries, pem: string): (r: Result<KeyParams>)
    ensures r.Ok? <==> env.certificateFromPem(pem).Ok?
    ensures r.Err? ==> r.error == env.certificateFromPem(pem).error
    ensures r.Ok? ==> var cert := env.certificateFromPem(pem).value;
      var digest := env.sha256(cert.raw);
      && (r.value.RsaParams? <==> cert.oid == RSA_OID)
      && (|digest| >= 8 ==> r.value.keyId == digest[..8])
      && r.value == ParamsFromCertificate(cert, digest)
  {
    match env.certificateFromPem(pem)
    case Err(e) => Err(e)
    case Ok(cert) => Ok(ParamsFromCertificate(cert, env.sha256(cert.raw)))
  }

  /** A SHA-256 digest is 32 bytes, so the key ID is exactly 8 bytes, and the
      same certificate always gives the same key ID. */
  lemma KeyIdIsEightBytes(env: Libraries, pem: string)
    requires GetParamsFromPem(env, pem).Ok?
    requires |env.sha256(env.certificateFromPem(pem).value.raw)| == 32
    ensures |GetParamsFromPem(env, pem).value.keyId| == 8
  {
    var cert := env.certificateFromPem(pem).value;
    assert GetParamsFromPem(env, pem).value == ParamsFromCertificate(cert, env.sha256(cert.raw));
  }

  /** `getPrivateKeyFromP8`: the EC private scalar `d`, bytes 7 to 39 of the
      raw PKCS#8 key. */
  function GetPrivateKeyFromP8(env: Libraries, p8: string): (r: Result<Bytes>)
    ensures r.Ok? <==> env.privateKeyFromPem(p8).Ok?
    ensures r.Err? ==> r.error == env.privateKeyFromPem(p8).error
    ensures r.Ok? && |env.privateKeyFromPem(p8).value.keyRaw| >= 39 ==>
      |r.value| == 32 && r.value == env.privateKeyFromPem(p8).value.keyRaw[7..39]
    ensures r.Ok? && |env.privateKeyFromPem(p8).value.keyRaw| <= 7 ==> r.value == []
    // a shorter key gives what is left of it after byte 7
    ensures r.Ok? ==> var k := env.privateKeyFromPem(p8).value.keyRaw;
      r.value == k[Min(7, |k|)..Min(39, |k|)]
  {
    match env.privateKeyFromPem(p8)
    case Err(e) => Err(e)
    case Ok(key) => Ok(JsSlice(key.keyRaw, 7, 7 + 32))
  }
}
