/** The COSE_Sign1 envelope (section 4.2 of RFC 8152): building the signing
    request (`sign`, `signAndPack*`), reading the algorithm, key ID and issuer
    out of a received envelope (`getCOSEHeaderParams`, `getIssuerKeyId`),
    choosing the verification key and checking the signature
    (`verifyAndReturnPayload`, `verify`, `unpackAndVerify`).

    An envelope is decoded generically: whatever the CBOR decoder returns is
    destructured as `[protected, unprotected, payload, signature]`, reading
    through a CBOR tag when there is one. Missing elements read as
    `undefined`; a value that cannot be destructured, or a header that
    decodes to something without a `get` method, throws a TypeError. */
module Envelope {
  import opened Wrappers
  import opened Values
  import opened Externals
  import opened Strings
  import opened KeyMaterial
  import opened Transport
  import opened Claims

  /** Header labels of section 3.1 of RFC 8152. */
  const COSE_ALG_TAG := 1
  const COSE_KID_TAG := 4

  // ---------------------------------------------------------------- signing

  /** `{p: {alg, kid}, u: {}}` for the signer's certificate. */
  function SigningHeaders(params: KeyParams): CoseHeaders {
    CoseHeaders(ProtectedHeader(params.Alg(), params.keyId), [])
  }

  /** `sign`: the CBOR encoding of the payload, signed by the COSE primitive
      with the private scalar of `p8`, under a protected header naming the
      algorithm and key ID of the certificate `pem`. A bad certificate is
      reported before a bad private key. */
  function Sign(env: Libraries, payload: Value, pem: string, p8: string): (r: Result<Bytes>)
    ensures env.certificateFromPem(pem).Err? ==> r == Err(env.certificateFromPem(pem).error)
    ensures env.certificateFromPem(pem).Ok? && env.privateKeyFromPem(p8).Err? ==>
      r == Err(env.privateKeyFromPem(p8).error)
    ensures env.certificateFromPem(pem).Ok? && env.privateKeyFromPem(p8).Ok? ==>
      var params := GetParamsFromPem(env, pem).value;
      && r == env.coseCreate(SigningHeaders(params), env.cborEncode(payload), Signer(GetPrivateKeyFromP8(env, p8).value))
      && (params.Alg() == "PS256" <==> env.certificateFromPem(pem).value.oid == RSA_OID)
  {
    match GetParamsFromPem(env, pem)
    case Err(e) => Err(e)
    case Ok(params) =>
      match GetPrivateKeyFromP8(env, p8)
      case Err(e) => Err(e)
      case Ok(d) => env.coseCreate(SigningHeaders(params), env.cborEncode(payload), Signer(d))
  }

  /** `signAndPack32`: sign, then the Base32 token. */
  function SignAndPack32(env: Libraries, payload: Value, pem: string, p8: string): (r: Result<string>)
    ensures r.Ok? <==> Sign(env, payload, pem, p8).Ok?
    ensures r.Err? ==> r.error == Sign(env, payload, pem, p8).error
    ensures r.Ok? ==> StripScheme(r.value) == Stripped(env.base32Encode(env.deflate(Sign(env, payload, pem, p8).value)), false)
  {
    match Sign(env, payload, pem, p8)
    case Err(e) => Err(e)
    case Ok(envelope) => Ok(Pack32(env, envelope))
  }

  /** `signAndPack45`: sign, then the Base45 token. */
  function SignAndPack45(env: Libraries, payload: Value, pem: string, p8: string): (r: Result<string>)
    ensures r.Ok? <==> Sign(env, payload, pem, p8).Ok?
    ensures r.Err? ==> r.error == Sign(env, payload, pem, p8).error
    ensures r.Ok? ==> StripScheme(r.value) == Stripped(env.base45Encode(env.deflate(Sign(env, payload, pem, p8).value)), false)
  {
    match Sign(env, payload, pem, p8)
    case Err(e) => Err(e)
    case Ok(envelope) => Ok(Pack45(env, envelope))
  }

  /** `signAndPack`: the Base45 form. */
  function SignAndPack(env: Libraries, payload: Value, pem: string, p8: string): (r: Result<string>)
    ensures r == SignAndPack45(env, payload, pem, p8)
    ensures r.Ok? ==> r.value == Pack(env, Sign(env, payload, pem, p8).value)
  {
    SignAndPack45(env, payload, pem, p8)
  }

  // ---------------------------------------------------------- header reading

  /** What `getCOSEHeaderParams` returns: `alg` (a truthy value or
      `undefined`) and `kid` (absent, or a byte array). */
  datatype HeaderParams = HeaderParams(alg: Value, kid: Option<Bytes>)

  const NoHeaderParams := HeaderParams(Undefined, None)

  /** `new Uint8Array(v)` for a byte string. */
  function KidBytes(v: Value): (b: Bytes)
    ensures v.Buf? ==> b == v.bytes
    ensures !v.Buf? ==> b == []
  {
    if v.Buf? then v.bytes else []
  }

  /** The algorithm and key ID of a header map; falsy entries count as
      absent. */
  function HeaderFields(m: seq<Entry>): (h: HeaderParams)
    ensures Truthy(h.alg) <==> Truthy(Get(m, Int(COSE_ALG_TAG)))
    ensures Truthy(h.alg) ==> h.alg == Get(m, Int(COSE_ALG_TAG))
    ensures !Truthy(h.alg) ==> h.alg == Undefined
    ensures h.kid.Some? <==> Truthy(Get(m, Int(COSE_KID_TAG)))
    ensures Get(m, Int(COSE_KID_TAG)).Buf? ==> h.kid == Some(Get(m, Int(COSE_KID_TAG)).bytes)
  {
    var alg := Get(m, Int(COSE_ALG_TAG));
    var kid := Get(m, Int(COSE_KID_TAG));
    HeaderParams(if Truthy(alg) then alg else Undefined, if Truthy(kid) then Some(KidBytes(kid)) else None)
  }

  /** `getCOSEHeaderParams`: a non-empty byte string is CBOR-decoded first
      (a decoding failure propagates), a Map is read as it is, and a
      decoded header that is truthy but not a Map throws, since it has no
      `get`. An empty byte string, or anything else, yields no parameters. */
  function CoseHeaderParams(env: Libraries, header: Value): (r: Result<HeaderParams>)
    ensures header.Map? ==> r == Ok(HeaderFields(header.entries))
    ensures header == Buf([]) ==> r == Ok(NoHeaderParams)
    ensures !header.Buf? && !header.Map? ==> r == Ok(NoHeaderParams)
    ensures header.Buf? && |header.bytes| > 0 ==>
      var decoded := env.cborDecode(header.bytes);
      && (decoded.Err? ==> r == Err(decoded.error))
      && (decoded.Ok? && decoded.value.Map? ==> r == Ok(HeaderFields(decoded.value.entries)))
      && (decoded.Ok? && !Truthy(decoded.value) ==> r == Ok(NoHeaderParams))
      && (decoded.Ok? && Truthy(decoded.value) && !decoded.value.Map? ==> r == Err(TypeError))
  {
    if header.Buf? then
      if |header.bytes| == 0 then Ok(NoHeaderParams)
      else
        match env.cborDecode(header.bytes)
        case Err(e) => Err(e)
        case Ok(obj) =>
          if !Truthy(obj) then Ok(NoHeaderParams)
          else if obj.Map? then Ok(HeaderFields(obj.entries))
          else Err(TypeError)
    else if header.Map? then Ok(HeaderFields(header.entries))
    else Ok(NoHeaderParams)
  }

  /** The algorithm, key ID and CWT issuer `getIssuerKeyId` reports. */
  datatype KeyInfo = KeyInfo(alg: Value, kid: Option<Bytes>, iss: Value)

  /** Each field is taken from the protected header when it is set there,
      and from the unprotected header otherwise. */
  function MergeHeaders(p: HeaderParams, u: HeaderParams, iss: Value): (info: KeyInfo)
    ensures Truthy(p.alg) ==> info.alg == p.alg
    ensures !Truthy(p.alg) ==> info.alg == u.alg
    ensures p.kid.Some? ==> info.kid == p.kid
    ensures p.kid.None? ==> info.kid == u.kid
    ensures info.iss == iss
  {
    KeyInfo(if Truthy(p.alg) then p.alg else u.alg, if p.kid.Some? then p.kid else u.kid, iss)
  }

  /** The value to destructure: the `.value` of a CBOR tag when it is
      truthy, else the decoded value itself when it is an array; `None` when
      `getIssuerKeyId` gives up. */
  function CoseTuple(obj: Value): (r: Option<Value>)
    ensures r.Some? ==> Truthy(obj) && Truthy(r.value)
    ensures obj.Tagged? && Truthy(obj.value) ==> r == Some(obj.value)
    ensures obj.Arr? ==> r == Some(obj)
    ensures !obj.Arr? && !(obj.Tagged? && Truthy(obj.value)) ==> r == None
  {
    if !Truthy(obj) then None
    else if obj.Tagged? && Truthy(obj.value) then Some(obj.value)
    else if obj.Arr? then Some(obj)
    else None
  }

  /** What array destructuring iterates over: the elements of an array, the
      characters of a string, the bytes of a byte string, the `[key, value]`
      pairs of a Map. Other values are not iterable. */
  function Iterate(v: Value): (r: Option<seq<Value>>)
    ensures r.Some? <==> v.Arr? || v.Text? || v.Buf? || v.Map?
    ensures v.Arr? ==> r == Some(v.items)
    ensures v.Text? ==> |r.value| == |v.s|
    ensures v.Buf? ==> |r.value| == |v.bytes|
    ensures v.Map? ==> |r.value| == |v.entries|
  {
    match v
    case Arr(items) => Some(items)
    case Text(s) => Some(seq(|s|, i requires 0 <= i < |s| => Text([s[i]])))
    case Buf(b) => Some(seq(|b|, i requires 0 <= i < |b| => Int(b[i] as int)))
    case Map(es) => Some(seq(|es|, i requires 0 <= i < |es| => Arr([es[i].key, es[i].val])))
    case _ => None
  }

  /** The `i`-th destructured element, `undefined` past the end. */
  function Nth(items: seq<Value>, i: nat): Value {
    if i < |items| then items[i] else Undefined
  }

  /** The CWT issuer claim of a payload that decodes to a Map; a payload
      that does not decode yields `undefined` (the error is caught). */
  function PayloadIssuer(env: Libraries, payload: Value): (iss: Value)
    ensures iss != Undefined ==> payload.Buf? && env.cborDecode(payload.bytes).Ok? && env.cborDecode(payload.bytes).value.Map?
    ensures payload.Buf? && env.cborDecode(payload.bytes).Ok? && env.cborDecode(payload.bytes).value.Map? ==>
      iss == Get(env.cborDecode(payload.bytes).value.entries, Int(CWT_ISSUER))
  {
    if payload.Buf? then
      match env.cborDecode(payload.bytes)
      case Ok(Map(m)) => Get(m, Int(CWT_ISSUER))
      case _ => Undefined
    else Undefined
  }

  /** The result of `getIssuerKeyId`: `Ok(None)` when the decoded envelope is
      falsy or neither a tagged value nor an array. */
  function IssuerKeyInfo(env: Libraries, content: Bytes): (r: Result<Option<KeyInfo>>)
    ensures env.cborDecode(content).Err? ==> r == Err(env.cborDecode(content).error)
    ensures env.cborDecode(content).Ok? && CoseTuple(env.cborDecode(content).value).None? ==> r == Ok(None)
    ensures r.Ok? && r.value.Some? ==>
      env.cborDecode(content).Ok? && CoseTuple(env.cborDecode(content).value).Some? &&
      Iterate(CoseTuple(env.cborDecode(content).value).value).Some?
  {
    match env.cborDecode(content)
    case Err(e) => Err(e)
    case Ok(obj) =>
      match CoseTuple(obj)
      case None => Ok(None)
      case Some(tuple) =>
        match Iterate(tuple)
        case None => Err(TypeError)
        case Some(parts) =>
          var iss := PayloadIssuer(env, Nth(parts, 2));
          match CoseHeaderParams(env, Nth(parts, 0))
          case Err(e) => Err(e)
          case Ok(p) =>
            match CoseHeaderParams(env, Nth(parts, 1))
            case Err(e) => Err(e)
            case Ok(u) => Ok(Some(MergeHeaders(p, u, iss)))
  }

  /** `getIssuerKeyId`, step by step. */
  method GetIssuerKeyId(env: Libraries, content: Bytes) returns (r: Result<Option<KeyInfo>>)
    ensures r == IssuerKeyInfo(env, content)
  {
    var decoded := env.cborDecode(content);
    if decoded.Err? {
      return Err(decoded.error);
    }
    var cborObj := decoded.value;
    if !Truthy(cborObj) {
      return Ok(None);
    }
    var cborObjValue := if cborObj.Tagged? then cborObj.value else Undefined;
    if !Truthy(cborObjValue) {
      if cborObj.Arr? {
        cborObjValue := cborObj;
      } else {
        return Ok(None);
      }
    }
    assert CoseTuple(cborObj) == Some(cborObjValue);
    var parts := Iterate(cborObjValue);
    if parts.None? {
      return Err(TypeError);
    }
    var protec, unprotec, payload := Nth(parts.value, 0), Nth(parts.value, 1), Nth(parts.value, 2);
    var cwtIssuer := PayloadIssuer(env, payload);
    var protectedData := CoseHeaderParams(env, protec);
    if protectedData.Err? {
      return Err(protectedData.error);
    }
    var unProtectedData := CoseHeaderParams(env, unprotec);
    if unProtectedData.Err? {
      return Err(unProtectedData.error);
    }
    r := Ok(Some(MergeHeaders(protectedData.value, unProtectedData.value, cwtIssuer)));
  }

  /** A COSE_Sign1 envelope, tagged or not, whose protected header is a
      serialized map and whose unprotected header is a map: the algorithm
      and key ID come from the headers, the protected one first, and the
      issuer from the payload. */
  lemma Sign1KeyInfo(env: Libraries, content: Bytes, tuple: seq<Value>, ph: Bytes, pm: seq<Entry>, um: seq<Entry>)
    requires env.cborDecode(content).Ok?
    requires var obj := env.cborDecode(content).value;
      obj == Arr(tuple) || (obj.Tagged? && obj.value == Arr(tuple))
    requires |tuple| == 4 && tuple[0] == Buf(ph) && tuple[1] == Map(um)
    requires |ph| > 0 && env.cborDecode(ph) == Ok(Map(pm))
    ensures IssuerKeyInfo(env, content) ==
      Ok(Some(MergeHeaders(HeaderFields(pm), HeaderFields(um), PayloadIssuer(env, tuple[2]))))
  {
    assert CoseTuple(env.cborDecode(content).value) == Some(Arr(tuple));
  }

  // ------------------------------------------------------------ verification

  /** A PEM string counts only when it is present and not empty. */
  predicate PemPresent(pem: Option<string>) {
    pem.Some? && pem.value != ""
  }

  /** The certificate to verify with: the key directory's entry for the
      Base64 key ID, else the caller's certificate. */
  function ChosenPem(env: Libraries, kid: Bytes, fallback: Option<string>): (r: Option<string>)
    ensures r.Some? ==> r.value != ""
    ensures PemPresent(env.resolveKey(env.base64(kid))) ==> r == env.resolveKey(env.base64(kid))
    ensures !PemPresent(env.resolveKey(env.base64(kid))) ==>
      (r.Some? <==> PemPresent(fallback)) && (PemPresent(fallback) ==> r == fallback)
  {
    var resolved := env.resolveKey(env.base64(kid));
    if PemPresent(resolved) then resolved
    else if PemPresent(fallback) then fallback
    else None
  }

  /** The verification key: the EC point coordinates, or the RSA modulus and
      exponent, with the key ID. */
  function VerifierFor(params: KeyParams): (v: Verifier)
    ensures v.EcVerifier? <==> params.EcParams?
    ensures v.kid == params.keyId
    ensures params.EcParams? ==> v.x == params.keyX && v.y == params.keyY
    ensures params.RsaParams? ==> v.n == params.keyMod && v.e == params.keyExp
  {
    match params
    case EcParams(keyId, _, keyX, keyY) => EcVerifier(keyX, keyY, keyId)
    case RsaParams(keyId, keyMod, keyExp, _) => RsaVerifier(keyMod, keyExp, keyId)
  }

  /** What `verifyAndReturnPayload` returns or throws: `Ok(None)` when it
      returns `undefined` (no usable envelope, or no certificate), else the
      CBOR-decoded payload the signature check released. */
  function VerifiedPayload(env: Libraries, content: Bytes, pem: Option<string>): (r: Result<Option<Value>>)
    ensures IssuerKeyInfo(env, content).Err? ==> r == Err(IssuerKeyInfo(env, content).error)
    ensures IssuerKeyInfo(env, content) == Ok(None) ==> r == Ok(None)
    // Base64 of an absent key ID throws
    ensures var info := IssuerKeyInfo(env, content);
      info.Ok? && info.value.Some? && info.value.value.kid.None? ==> r == Err(TypeError)
    // a payload is released only by a successful signature check
    ensures r.Ok? && r.value.Some? ==>
      var info := IssuerKeyInfo(env, content);
      && info.Ok? && info.value.Some? && info.value.value.kid.Some?
      && var chosen := ChosenPem(env, info.value.value.kid.value, pem);
      && chosen.Some? && GetParamsFromPem(env, chosen.value).Ok?
      && var checked := env.coseVerify(content, VerifierFor(GetParamsFromPem(env, chosen.value).value));
      && checked.Ok? && env.cborDecode(checked.value) == Ok(r.value.value)
    // once a key ID is read: no certificate gives `undefined`, and with one,
    // a certificate that does not parse, a failed signature check or a
    // payload that does not decode throws
    ensures var info := IssuerKeyInfo(env, content);
      info.Ok? && info.value.Some? && info.value.value.kid.Some? ==>
      var chosen := ChosenPem(env, info.value.value.kid.value, pem);
      && (chosen.None? ==> r == Ok(None))
      && (chosen.Some? ==>
            (r.Err? <==>
               !(&& GetParamsFromPem(env, chosen.value).Ok?
                 && var checked := env.coseVerify(content, VerifierFor(GetParamsFromPem(env, chosen.value).value));
                 && checked.Ok? && env.cborDecode(checked.value).Ok?)))
  {
    match IssuerKeyInfo(env, content)
    case Err(e) => Err(e)
    case Ok(None) => Ok(None)
    case Ok(Some(info)) =>
      if info.kid.None? then Err(TypeError)
      else
        match ChosenPem(env, info.kid.value, pem)
        case None => Ok(None)
        case Some(chosen) =>
          match GetParamsFromPem(env, chosen)
          case Err(e) => Err(e)
          case Ok(params) =>
            match env.coseVerify(content, VerifierFor(params))
            case Err(e) => Err(e)
            case Ok(verified) =>
              match env.cborDecode(verified)
              case Err(e) => Err(e)
              case Ok(v) => Ok(Some(v))
  }

  /** `verifyAndReturnPayload`, step by step. */
  method VerifyAndReturnPayload(env: Libraries, content: Bytes, addPublicKeyPem: Option<string>)
    returns (r: Result<Option<Value>>)
    ensures r == VerifiedPayload(env, content, addPublicKeyPem)
  {
    var keyId := GetIssuerKeyId(env, content);
    if keyId.Err? {
      return Err(keyId.error);
    }
    if keyId.value.None? {
      return Ok(None);
    }
    var kid := keyId.value.value.kid;
    if kid.None? {
      return Err(TypeError);
    }
    var publicKeyPem := env.resolveKey(env.base64(kid.value));
    if !PemPresent(publicKeyPem) {
      publicKeyPem := addPublicKeyPem;
    }
    if !PemPresent(publicKeyPem) {
      return Ok(None);
    }
    var keyParams := GetParamsFromPem(env, publicKeyPem.value);
    if keyParams.Err? {
      return Err(keyParams.error);
    }
    var verified := env.coseVerify(content, VerifierFor(keyParams.value));
    if verified.Err? {
      return Err(verified.error);
    }
    var jsonPayload := env.cborDecode(verified.value);
    if jsonPayload.Err? {
      return Err(jsonPayload.error);
    }
    r := Ok(Some(jsonPayload.value));
  }

  /** `verify` as written: true whenever `verifyAndReturnPayload` does not
      throw, which includes returning `undefined` because the envelope was
      not readable or no certificate was found. */
  function Verify(env: Libraries, content: Bytes, pem: Option<string>): (ok: bool)
    ensures ok <==> !VerifiedPayload(env, content, pem).Err?
    ensures IssuerKeyInfo(env, content) == Ok(None) ==> ok
  {
    !VerifiedPayload(env, content, pem).Err?
  }

  /** `verify` as its name promises: true exactly when a certificate was
      found, the signature check under its key succeeded and the payload it
      released decoded. */
  function VerifyStrict(env: Libraries, content: Bytes, pem: Option<string>): (ok: bool)
    ensures ok ==> Verify(env, content, pem)
    ensures ok <==>
      var info := IssuerKeyInfo(env, content);
      && info.Ok? && info.value.Some? && info.value.value.kid.Some?
      && var chosen := ChosenPem(env, info.value.value.kid.value, pem);
      && chosen.Some? && GetParamsFromPem(env, chosen.value).Ok?
      && var checked := env.coseVerify(content, VerifierFor(GetParamsFromPem(env, chosen.value).value));
      && checked.Ok? && env.cborDecode(checked.value).Ok?
  {
    var r := VerifiedPayload(env, content, pem);
    r.Ok? && r.value.Some?
  }

  /** Libraries under which no key can be found and every signature check
      fails: the decoder reads the content `[1]` as an unsigned envelope
      with key ID `[7]`, the value a real CBOR decoder returns for the bytes
      `84 40 a1 04 41 07 f7 f7` (an array of an empty byte string, the map
      {4: h'07'} and two `undefined`). */
  function EmptyKeyDirectory(): Libraries {
    Libraries(
      cborEncode := (v: Value) => [],
      cborDecode := (b: Bytes) =>
        if b == [1] then Ok(Arr([Buf([]), Map([Entry(Int(COSE_KID_TAG), Buf([7]))]), Undefined, Undefined]))
        else Err(LibraryError("cbor")),
      deflate := (b: Bytes) => b,
      inflate := (b: Bytes) => Ok(b),
      base32Encode := (b: Bytes) => "",
      base32Decode := (s: string) => Err(LibraryError("base32")),
      base45Encode := (b: Bytes) => "",
      base45Decode := (s: string) => Err(LibraryError("base45")),
      base64 := (b: Bytes) => "Bw==",
      sha256 := (b: Bytes) => b,
      certificateFromPem := (s: string) => Err(LibraryError("x509")),
      privateKeyFromPem := (s: string) => Err(LibraryError("x509")),
      coseCreate := (h: CoseHeaders, p: Bytes, s: Signer) => Err(LibraryError("cose")),
      coseVerify := (c: Bytes, v: Verifier) => Err(LibraryError("signature")),
      resolveKey := (s: string) => None)
  }

  /** `verify` accepts an envelope whose key is unknown, although no
      signature check could succeed; the strict form rejects it. */
  lemma VerifyAcceptsUnknownKey()
    ensures var env := EmptyKeyDirectory();
      && (forall v: Verifier :: env.coseVerify([1], v).Err?)
      && Verify(env, [1], None)
      && !VerifyStrict(env, [1], None)
  {
    var env := EmptyKeyDirectory();
    assert CoseTuple(env.cborDecode([1]).value).Some?;
    assert IssuerKeyInfo(env, [1]) == Ok(Some(KeyInfo(Undefined, Some([7]), Undefined)));
  }

  /** Once a certificate is chosen, `verify` rejects an envelope whose
      certificate does not parse, whose signature check fails, or whose
      released payload does not decode. */
  lemma FailedCheckRejects(env: Libraries, content: Bytes, pem: Option<string>)
    requires var info := IssuerKeyInfo(env, content);
      info.Ok? && info.value.Some? && info.value.value.kid.Some?
    requires ChosenPem(env, IssuerKeyInfo(env, content).value.value.kid.value, pem).Some?
    ensures var chosen := ChosenPem(env, IssuerKeyInfo(env, content).value.value.kid.value, pem).value;
      && (GetParamsFromPem(env, chosen).Err? ==> !Verify(env, content, pem))
      && (GetParamsFromPem(env, chosen).Ok? ==>
            var checked := env.coseVerify(content, VerifierFor(GetParamsFromPem(env, chosen).value));
            && (checked.Err? ==> !Verify(env, content, pem))
            && (checked.Ok? && env.cborDecode(checked.value).Err? ==> !Verify(env, content, pem)))
  {
  }

  /** Whenever the key ID resolves to no certificate, `verify` says true and
      the strict form says false. */
  lemma VerifyIgnoresMissingCertificate(env: Libraries, content: Bytes, pem: Option<string>)
    requires IssuerKeyInfo(env, content).Ok? && IssuerKeyInfo(env, content).value.Some?
    requires IssuerKeyInfo(env, content).value.value.kid.Some?
    requires !PemPresent(env.resolveKey(env.base64(IssuerKeyInfo(env, content).value.value.kid.value)))
    requires !PemPresent(pem)
    ensures Verify(env, content, pem) && !VerifyStrict(env, content, pem)
  {
  }

  /** What `unpackAndVerify` returns: the verified payload, or `undefined`
      when anything throws or nothing was verified. */
  function UnpackedAndVerified(env: Libraries, uri: string, pem: Option<string>): (v: Value)
    ensures Unpacked(env, uri).Err? ==> v == Undefined
    ensures Unpacked(env, uri).Ok? ==>
      var r := VerifiedPayload(env, Unpacked(env, uri).value, pem);
      v == if r.Ok? && r.value.Some? then r.value.value else Undefined
  {
    match Unpacked(env, uri)
    case Err(_) => Undefined
    case Ok(content) =>
      match VerifiedPayload(env, content, pem)
      case Ok(Some(payload)) => payload
      case _ => Undefined
  }

  /** `unpackAndVerify`: any error is caught and reported as `undefined`. */
  method UnpackAndVerify(env: Libraries, uri: string, pem: Option<string>) returns (v: Value)
    ensures v == UnpackedAndVerified(env, uri, pem)
  {
    var content := Unpack(env, uri);
    if content.Err? {
      return Undefined;
    }
    var payload := VerifyAndReturnPayload(env, content.value, pem);
    if payload.Ok? && payload.value.Some? {
      v := payload.value.value;
    } else {
      v := Undefined;
    }
  }

  // -------------------------------------------------------------- round trip

  /** The CBOR tag of a COSE_Sign1 message, section 4.2 of RFC 8152. */
  const COSE_SIGN1_TAG := 18

  /** How a COSE library lays out the envelope it signs: a COSE_Sign1
      structure under its tag, whose protected header is a serialized map
      holding the key ID under label 4 and whose unprotected header is
      empty. */
  predicate Sign1Layout(env: Libraries, envelope: Bytes, keyId: Bytes, tuple: seq<Value>, ph: Bytes, pm: seq<Entry>) {
    && env.cborDecode(envelope) == Ok(Tagged(COSE_SIGN1_TAG, Arr(tuple)))
    && |tuple| == 4 && tuple[0] == Buf(ph) && tuple[1] == Map([])
    && |ph| > 0 && env.cborDecode(ph) == Ok(Map(pm))
    && Get(pm, Int(COSE_KID_TAG)) == Buf(keyId)
  }

  /** What a COSE library must do for a signed payload to come back: its
      envelope has the COSE_Sign1 layout with the key ID it was given, and
      checking it with the signer's public key releases the encoded
      payload, which decodes to the payload. */
  predicate CoseRoundTrips(env: Libraries, payload: Value, pem: string, p8: string, tuple: seq<Value>, ph: Bytes, pm: seq<Entry>)
    requires Sign(env, payload, pem, p8).Ok?
  {
    var envelope := Sign(env, payload, pem, p8).value;
    var params := GetParamsFromPem(env, pem).value;
    && Sign1Layout(env, envelope, params.keyId, tuple, ph, pm)
    && env.coseVerify(envelope, VerifierFor(params)) == Ok(env.cborEncode(payload))
    && env.cborDecode(env.cborEncode(payload)) == Ok(payload)
  }

  /** The key ID `getIssuerKeyId` reads from an envelope with the COSE_Sign1
      layout is the one the signer put in its protected header. */
  lemma Sign1LayoutKeyId(env: Libraries, envelope: Bytes, keyId: Bytes, tuple: seq<Value>, ph: Bytes, pm: seq<Entry>)
    requires Sign1Layout(env, envelope, keyId, tuple, ph, pm)
    ensures IssuerKeyInfo(env, envelope).Ok? && IssuerKeyInfo(env, envelope).value.Some?
    ensures IssuerKeyInfo(env, envelope).value.value.kid == Some(keyId)
  {
    Sign1KeyInfo(env, envelope, tuple, ph, pm, []);
    assert HeaderFields(pm).kid == Some(keyId);
  }

  /** A signed envelope verifies with the signer's own certificate, when the
      key directory does not know the key ID. */
  lemma SignThenVerify(env: Libraries, payload: Value, pem: string, p8: string, tuple: seq<Value>, ph: Bytes, pm: seq<Entry>)
    requires Sign(env, payload, pem, p8).Ok?
    requires CoseRoundTrips(env, payload, pem, p8, tuple, ph, pm)
    requires pem != ""
    requires !PemPresent(env.resolveKey(env.base64(GetParamsFromPem(env, pem).value.keyId)))
    ensures VerifiedPayload(env, Sign(env, payload, pem, p8).value, Some(pem)) == Ok(Some(payload))
    ensures VerifyStrict(env, Sign(env, payload, pem, p8).value, Some(pem))
  {
    Sign1LayoutKeyId(env, Sign(env, payload, pem, p8).value, GetParamsFromPem(env, pem).value.keyId, tuple, ph, pm);
  }

  /** `unpackAndVerify(signAndPack(x))` gives back `x`, given the COSE facts
      above and the transport facts of `Pack45RoundTrip` for a Base45 text
      that is not also Base32 text. */
  lemma SignPackUnpackVerify(env: Libraries, payload: Value, pem: string, p8: string, tuple: seq<Value>, ph: Bytes, pm: seq<Entry>)
    requires Sign(env, payload, pem, p8).Ok?
    requires CoseRoundTrips(env, payload, pem, p8, tuple, ph, pm)
    requires pem != ""
    requires !PemPresent(env.resolveKey(env.base64(GetParamsFromPem(env, pem).value.keyId)))
    requires var x := Sign(env, payload, pem, p8).value;
      && env.inflate(env.deflate(x)) == Ok(x)
      && |env.deflate(x)| > 0 && env.deflate(x)[0] == ZLIB_CMF
      && env.base45Decode(env.base45Encode(env.deflate(x))) == Ok(env.deflate(x))
      && IsBase45(env.base45Encode(env.deflate(x)))
      && exists i :: 0 <= i < |env.base45Encode(env.deflate(x))| && !IsBase32Char(env.base45Encode(env.deflate(x))[i])
    ensures UnpackedAndVerified(env, SignAndPack(env, payload, pem, p8).value, Some(pem)) == payload
  {
    var x := Sign(env, payload, pem, p8).value;
    Pack45RoundTrip(env, x);
    SignThenVerify(env, payload, pem, p8, tuple, ph, pm);
  }
}
