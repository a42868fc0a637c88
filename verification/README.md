# DCC envelope codec — a Dafny model

This project models `lib/dcc.js`, the codec of the Digital Covid/Health
Certificate. It turns a claim payload into a signed, compressed, text-safe
token and back:

- **claims** (`claims.dfy`): `makeCWT` and `parseCWT`. These build and read the
  CWT claim map (section 4 of RFC 8392). The map holds issued-at, an optional
  expiry, an optional issuer, and the health-certificate claim -260 → {1 → payload}.
- **key material** (`key_material.dfy`): `getParamsFromPEM` and `getPrivateKeyFromP8`. These
  derive the algorithm, the key ID and the RSA or EC key material by cutting
  the raw key bytes at fixed offsets. The cuts use JavaScript `slice`
  semantics, so clamping and negative indices are modelled.
- **envelope** (`envelope.dfy`): the COSE_Sign1 wiring (section 4.2 of RFC 8152).
  - `sign` and `signAndPack*`.
  - Header, key ID and issuer extraction from an untrusted envelope
    (`getCOSEHeaderParams`, `getIssuerKeyId`).
  - Key resolution, the signature check, the boolean `verify` and
    `unpackAndVerify`.
- **transport** (`transport.dfy`): `unpack`, `isBase32`, `isBase45`, `pack32`,
  `pack45` and `pack`.
  - The `HC1` scheme prefix may come with or without its colon, or be missing.
  - The text alphabet is sniffed: Base32 of section 6 of RFC 4648 first, then
    Base45 of RFC 9285.
  - The data is inflated when its first byte is the zlib CMF byte 0x78
    (section 2.2 of RFC 1950).
- **debug** (`debug.dfy`): `toBase64URL`, `decodeCbor` and `debug`. This is the
  recursive renderer that turns nested CBOR byte strings into decoded values.
  Byte strings that do not decode become Base64 text.

Supporting modules:

- `values.dfy`: JavaScript values as the codec sees them. A JavaScript `Map`
  is an ordered list of entries; `get` finds the first matching entry, and
  `set` replaces an entry in place or appends a new one. The module also has
  JavaScript truthiness.
- `externals.dfy`: one record, `Libraries`, holding every library the codec
  calls, as functions: CBOR, pako, the Base32/Base45/Base64 codecs, SHA-256,
  the X.509 parser, the COSE primitives and the key resolver. Nothing is
  assumed about them. Where a lemma needs a library property (inflate undoes
  deflate, a codec round trips, CBOR decoding shrinks byte strings), it states
  that property as a precondition.
- `wrappers.dfy`: `Option` and `Result`. A thrown exception is an `Err`: a
  JavaScript `TypeError` (reading a property of `undefined`, calling a
  missing `get`, destructuring a non-iterable) or an error raised by a library.

Functions state what each operation returns or throws. Where the source
works step by step (`unpack`, `makeCWT`, `getIssuerKeyId`,
`verifyAndReturnPayload`, `unpackAndVerify`, `decodeCbor`, `debug`), a method
mirrors those steps and is proved equal to the function.

The envelope reader does not check that the decoded envelope has four
elements. Missing elements read as `undefined` and extra elements are ignored,
as in the code.

## Model

| member | source | states |
|---|---|---|
| Values.Get | lib/dcc.js:113 | `get` of an absent key is `undefined`; a key in the first entry gives that entry's value |
| Values.GetSkipsOtherKeys | lib/dcc.js:113 | `get` returns the first match: a prefix without the key does not change what is read |
| Values.Set | lib/dcc.js:92-108 | after `set`, the key reads back the new value |
| Values.SetKeys | lib/dcc.js:92-108 | a new key is appended to the key order; a present key keeps its place and the order is unchanged |
| Values.SetKeepsOtherKeys | lib/dcc.js:92-108 | `set` leaves the value of every other key unchanged |
| Values.SetNewKeyAppends | lib/dcc.js:92-108 | setting an absent key appends exactly one entry at the end |
| Values.SetPresentKeyReplaces | lib/dcc.js:304-308 | setting a key that is present replaces that one entry in place |
| Strings.TrailingPadding | lib/dcc.js:121 | counts exactly the run of `=` that ends the text, no more and no less |
| KeyMaterial.JsSlice | lib/dcc.js:35-54 | a `slice` is never longer than its input, is the plain subsequence for in-range indices, and, for a non-negative end, is empty when end is at or before start; a negative start or end counts from the end of the input |
| KeyMaterial.JsSliceSplits | lib/dcc.js:35-47 | slicing at any index, negative or past the end, splits the input into two parts that concatenate back to it |
| KeyMaterial.ParamsFromCertificate | lib/dcc.js:32-50 | RSA exactly for the rsaEncryption OID, with PS256, else ES256; key ID is the first 8 fingerprint bytes; RSA modulus lies between a 9-byte head and a 5-byte tail, exponent is the last 3 bytes; EC format byte, X and Y concatenate to the first 65 key bytes, with short keys giving short pieces |
| KeyMaterial.RsaKeyLayout | lib/dcc.js:38-43 | a full-length RSA key is head, modulus, 2 bytes, exponent: the cuts lose nothing else |
| KeyMaterial.EcPointLayout | lib/dcc.js:44-49 | a 65-byte EC key splits into 1 + 32 + 32 bytes |
| KeyMaterial.GetParamsFromPem | lib/dcc.js:32-50 | fails exactly when the certificate does not parse, with its error; the key kind follows the OID, the key ID is the digest's first 8 bytes, and the parameters are those `ParamsFromCertificate` gives for the certificate and its SHA-256 digest |
| KeyMaterial.KeyIdIsEightBytes | lib/dcc.js:34-35 | a 32-byte SHA-256 digest gives an 8-byte key ID |
| KeyMaterial.GetPrivateKeyFromP8 | lib/dcc.js:52-55 | fails exactly when the key does not parse; `d` is bytes 7..39 of the raw key, clamped: 32 bytes of a long enough key, what follows byte 7 of a shorter one, empty for a key of at most 7 bytes |
| Claims.MakeCwt | lib/dcc.js:91-110 | the successive `set` calls build exactly the claim list `CwtClaims` |
| Claims.AppendClaim | lib/dcc.js:95-105 | setting a claim key that is not yet present appends it |
| Claims.NestPayload | lib/dcc.js:106-107 | filling the empty map stored under -260 through `get` leaves the single entry 1 → payload in the same place |
| Claims.ParseCwt | lib/dcc.js:112-114 | returns the two-level lookup [-260][1] exactly when the claims and the -260 claim are Maps, and throws a TypeError otherwise |
| Claims.CwtClaimsLayout | lib/dcc.js:91-110 | iat is always set; exp is present iff `monthsToExpire` is truthy; iss is present and equal to `issuer` iff it is truthy; -260 maps to {1 → payload} and is the last key; no other claim is set |
| Claims.ParseMakeRoundTrip | lib/dcc.js:91-114 | `parseCWT(makeCWT(p, m, i)) == p` for every expiry and issuer argument |
| Transport.IsBase32IsThePattern | lib/dcc.js:57-60 | `IsBase32` holds exactly for the texts matching `^[A-Z2-7]+=*$` |
| Transport.AlphabetsOverlap | lib/dcc.js:57-65 | unpadded Base32 text is Base45 text; Base45 text passes the Base32 test iff all of it is in `[A-Z2-7]` |
| Transport.Classify | lib/dcc.js:266-273 | Base32 iff the Base32 test passes; Base45 iff only the Base45 test passes |
| Transport.IsBase32 | lib/dcc.js:57-60 | accepted text is non-empty, starts with an alphabet character and holds only `[A-Z2-7]` and `=` (`IsBase32IsThePattern` proves it is exactly the pattern) |
| Transport.IsBase45 | lib/dcc.js:62-65 | accepted text is non-empty and holds no `=` and no lower-case letter |
| Transport.Base32TakesPrecedence | lib/dcc.js:266-273 | text matching both patterns goes to the Base32 decoder; the empty text matches neither |
| Transport.StripScheme | lib/dcc.js:253-262 | no legacy warning exactly for `HC1:` + rest; otherwise the text is what follows a colon-less `HC1`, or the whole token when it lacks the prefix |
| Transport.StripSchemeCases | lib/dcc.js:253-262 | `HC1:` + s yields s; `HC1` + s, s not starting with `:`, yields s with a warning; text without `HC1` is passed on unchanged |
| Transport.Unpack | lib/dcc.js:249-280 | unrecognised text throws a TypeError; decoded bytes are inflated exactly when their first byte is 0x78 and returned unchanged otherwise |
| Transport.Unpacked | lib/dcc.js:249-280 | what `unpack` returns or throws: unrecognised text gives a TypeError, a decoder error is passed on, decoded bytes are inflated exactly when their first byte is 0x78 and returned unchanged otherwise |
| Transport.LegacyTokensDecodeAlike | lib/dcc.js:253-262 | tokens missing the colon or the whole prefix decode as the `HC1:` token does |
| Transport.Pack32 | lib/dcc.js:326-329 | the token is `HC1:` followed by the Base32 text of the deflated payload, with no legacy warning |
| Transport.Pack45 | lib/dcc.js:331-334 | the token is `HC1:` followed by the Base45 text of the deflated payload, with no legacy warning |
| Transport.Pack | lib/dcc.js:336-338 | `pack` always gives `HC1:` followed by the Base45 text of the deflated payload, never a legacy token |
| Transport.Pack45RoundTrip | lib/dcc.js:266-279 | given inflate∘deflate = id, a 0x78 first byte and a Base45 round trip: `unpack(pack45(x)) == x` when the Base45 text has a character outside `[A-Z2-7]`; otherwise the text goes to the Base32 decoder |
| Transport.Pack32RoundTrip | lib/dcc.js:326-329 | given the compression facts and a Base32 round trip, `unpack(pack32(x)) == x` |
| Transport.UncompressedPassesThrough | lib/dcc.js:274-279 | bytes not starting with 0x78 are returned as decoded |
| Envelope.Sign | lib/dcc.js:67-86 | a certificate error is thrown first, then a private-key error; otherwise the COSE primitive signs the CBOR payload under {alg, kid} of the certificate (PS256 iff RSA) with `d` from the key |
| Envelope.SignAndPack32 | lib/dcc.js:340-342 | fails exactly when signing fails; otherwise an `HC1:` token of the Base32 text of the deflated envelope |
| Envelope.SignAndPack45 | lib/dcc.js:344-346 | fails exactly when signing fails; otherwise an `HC1:` token of the Base45 text of the deflated envelope |
| Envelope.SignAndPack | lib/dcc.js:348-350 | the Base45 form |
| Envelope.HeaderFields | lib/dcc.js:139-148 | alg and kid are taken only from truthy entries under labels 1 and 4; a falsy alg is `undefined` |
| Envelope.KidBytes | lib/dcc.js:146 | a byte-string key ID gives its bytes; any other value gives none (see Left out) |
| Envelope.CoseHeaderParams | lib/dcc.js:124-151 | an empty byte header gives no parameters; a Map header is read as it is; a byte header is decoded, with decode errors thrown, and a decoded non-Map truthy value throws a TypeError; any other header gives no parameters |
| Envelope.MergeHeaders | lib/dcc.js:189-193 | the protected alg wins when truthy and the protected kid when present; otherwise the unprotected one is used |
| Envelope.CoseTuple | lib/dcc.js:154-171 | the top level is the truthy `.value` of a tag, else the array itself, else nothing |
| Envelope.Iterate | lib/dcc.js:173 | destructuring works on arrays, strings, byte strings and Maps, and throws on anything else |
| Envelope.PayloadIssuer | lib/dcc.js:175-184 | iss is set only when the payload decodes to a Map; a decode error leaves it `undefined` |
| Envelope.IssuerKeyInfo | lib/dcc.js:153-194 | a decode error is thrown; an unusable top level gives `undefined`; a result means the top level was found and destructured |
| Envelope.GetIssuerKeyId | lib/dcc.js:153-194 | the step-by-step extraction returns exactly `IssuerKeyInfo` |
| Envelope.Sign1KeyInfo | lib/dcc.js:161-193 | for a tagged or bare COSE_Sign1 array, the merged header fields and the payload's issuer are reported |
| Envelope.ChosenPem | lib/dcc.js:204-215 | the resolver's PEM for the Base64 key ID wins; the caller's PEM is the fallback; an empty PEM counts as none |
| Envelope.VerifierFor | lib/dcc.js:219-231 | an EC verifier with X/Y exactly for EC parameters, otherwise RSA with n/e; both carry the key ID |
| Envelope.VerifiedPayload | lib/dcc.js:196-237 | extraction errors propagate; no readable envelope gives `undefined`; a missing kid throws; once a kid is read, no certificate gives `undefined`, and with a certificate the call throws exactly when the certificate does not parse, the signature check fails or the released payload does not decode; a payload is returned only after a successful signature check with the chosen certificate's key |
| Envelope.VerifyAndReturnPayload | lib/dcc.js:196-237 | the step-by-step version returns exactly `VerifiedPayload` |
| Envelope.Verify | lib/dcc.js:239-247 | true iff `verifyAndReturnPayload` does not throw, so also true for an unreadable envelope |
| Envelope.VerifyStrict | lib/dcc.js:239-247 | true exactly when a certificate was found, the signature check under its key succeeded and the released payload decoded |
| Envelope.VerifyAcceptsUnknownKey | lib/dcc.js:239-247 | there are libraries under which every signature check fails and `verify` still returns true |
| Envelope.VerifyIgnoresMissingCertificate | lib/dcc.js:208-215 | when neither the resolver nor the caller supplies a certificate, `verify` is true and the strict form false |
| Envelope.FailedCheckRejects | lib/dcc.js:217-247 | once a certificate is chosen, `verify` is false when it does not parse, when the signature check fails, or when the released payload does not decode |
| Envelope.UnpackedAndVerified | lib/dcc.js:317-324 | an unpack error, or any throw or `undefined` from verification, gives `undefined`; otherwise the verified payload |
| Envelope.UnpackAndVerify | lib/dcc.js:317-324 | the step-by-step version returns exactly `UnpackedAndVerified` |
| Envelope.Sign1LayoutKeyId | lib/dcc.js:127-193 | from a tagged COSE_Sign1 envelope whose serialized protected header holds a key ID, `getIssuerKeyId` reads exactly that key ID |
| Envelope.SignThenVerify | lib/dcc.js:67-86 | given the COSE_Sign1 layout of the signed envelope and a COSE check that releases the encoded payload, and provided the PEM is non-empty and the key directory holds no certificate for the key ID (a directory certificate would take precedence), the envelope verifies with the signer's certificate to the original payload; the key ID is derived through the header reading |
| Envelope.SignPackUnpackVerify | lib/dcc.js:348-350 | `unpackAndVerify(signAndPack(x)) == x`, given the COSE_Sign1 layout, the COSE and transport round-trip facts and a Base45 text that is not also Base32 text, and provided the PEM is non-empty and the key directory holds no certificate for the key ID |
| Debug.UrlAlphabet | lib/dcc.js:121 | the translated text has the same length and no `+` or `/` |
| Debug.ToBase64Url | lib/dcc.js:120-122 | no `+` or `/`, no trailing `=`; the translated Base64 text is the result followed only by `=` |
| Debug.ToBase64UrlRecoversBase64 | lib/dcc.js:120-122 | translating back and restoring the stripped padding gives the standard Base64 text |
| Debug.Render | lib/dcc.js:282-311 | a value with no byte string outside a tag comes back unchanged; otherwise the weight of undecoded byte strings strictly shrinks (what a byte string becomes is stated by `KeyIdRendersUrlSafe`, `OtherBytesRenderBase64`, `NestedBytesRenderBase64`, `DecodedArrayRenderedTwice`, `DecodedMapRendersValues`, `DecodedTagRendersValue` and `DecodedScalarUnchanged`) |
| Debug.RenderSeq | lib/dcc.js:298-302 | keeps the length; unchanged without byte strings; otherwise the weight strictly shrinks |
| Debug.RenderEntries | lib/dcc.js:304-308 | keeps every key in order; unchanged without byte strings; otherwise the weight strictly shrinks |
| Debug.RenderSeqElementwise | lib/dcc.js:298-302 | element i of the result is element i rendered |
| Debug.RenderEntriesElementwise | lib/dcc.js:304-308 | entry i keeps its key and has its value rendered |
| Debug.RenderPreservesStructure | lib/dcc.js:282-311 | arrays keep their length, Maps their key order, and non-buffer values come back unchanged |
| Debug.KeyIdRendersUrlSafe | lib/dcc.js:289-295 | an undecodable 8-byte buffer renders as exactly `toBase64URL` of it, a text without `+`, `/` or trailing `=` |
| Debug.OtherBytesRenderBase64 | lib/dcc.js:289-295 | an undecodable buffer of any other length renders as its standard Base64 text |
| Debug.NestedBytesRenderBase64 | lib/dcc.js:283-295 | a buffer whose CBOR is another byte string renders as the Base64 of the inner one (URL-safe at 8 bytes): the `for...in` pass throws on the Buffer's inherited getters and the handler takes over |
| Debug.DecodedArrayRenderedTwice | lib/dcc.js:283-302 | a decoded array keeps its length, and each element is rendered twice, by the `for...in` pass and the array pass |
| Debug.DecodedMapRendersValues | lib/dcc.js:283-308 | a decoded Map keeps its keys in order and has each value rendered once |
| Debug.DecodedTagRendersValue | lib/dcc.js:283-288 | a decoded tag keeps its number and has its value rendered once |
| Debug.DecodedScalarUnchanged | lib/dcc.js:283-311 | a decoded number, boolean, text, `null` or `undefined` is shown as decoded |
| Debug.DecodeCbor | lib/dcc.js:282-311 | the step-by-step rewrite returns exactly `Render`, the handler's Base64 for a byte string decoded from a byte string included |
| Debug.DecodeEach | lib/dcc.js:298-302 | the index loop returns exactly `RenderSeq` |
| Debug.DecodeEntries | lib/dcc.js:304-308 | the entry loop returns exactly `RenderEntries` |
| Debug.Debugged | lib/dcc.js:313-315 | an unpack error is thrown; otherwise the unpacked envelope is rendered |
| Debug.Debug | lib/dcc.js:313-315 | the method returns exactly `Debugged` |

## Left out

- Console output is left out. Warnings appear only as the `legacy` flag of `Transport.StripScheme`.
- Wall-clock time is left out. The issue instant, `setMonth` arithmetic and `Math.round` of `makeCWT` are replaced by the inputs `iat` and `exp`.
- The claim map is an ordered entry list rather than a finite map. A JavaScript `Map` keeps insertion order, and the same value type also carries decoded CBOR maps.
- The libraries are uninterpreted: CBOR, pako, Base32URL, base45, base64-js, SHA-256, `@fidm/x509`, `cose-sign.js` and the key resolver. A signature tamper property therefore cannot be stated about them, and none is claimed.
- CBOR floating-point values, `null`-prototype objects and string-keyed plain objects that the decoder may return are not modelled.
- The values the CBOR decoder builds from tags it knows are not modelled: `Date` (tags 0 and 1), big integers (tags 2 and 3), `URL` (tag 32), `RegExp` (tag 35) and `Set` (tag 258). Every tag is kept as a `Tagged` value.
- Envelope.KidBytes: only a byte-string key ID is converted. `new Uint8Array` of a number or an array kid (a zero-filled or converted array) is modelled as empty bytes.
- Envelope.PayloadIssuer: `cbor.decode` of a payload that is not a byte string is taken to yield no issuer.
- Envelope.Iterate: a string holding a lone surrogate cannot be represented, since a character here is a Unicode scalar value; other strings are iterated by code point, as JavaScript does.
- Debug.Render: a decoded non-empty text is returned unchanged. In strict mode the `for...in` assignment to it throws, and the catch then converts that text. An 8-character text would be passed to `toBase64URL`; this is not modelled.
- Debug.DecodedScalarUnchanged: an 8-character decoded text is stated to come back unchanged, as in the model, while the source hands it to `toBase64URL` (see the line above).
- Debug.Render: an undecodable buffer is shown with `env.base64` whatever its class. A `Uint8Array`, unlike a `Buffer`, ignores the `'base64'` argument of `toString`.
- Debug.Render: termination rests on `DecodeShrinks`, the fact that a CBOR decoder returns byte strings with fewer bytes in total than its input. It is a requirement, not a proven property of the decoder.
- Debug.DecodeEntries: each entry is updated by position. This equals `set(key, f(get(key)))` because a Map holds each key once (`Values.SetPresentKeyReplaces`), but the model does not carry that distinctness itself.
- The in-place mutation of the decoded object in `decodeCbor` is left out. The model rebuilds values, which is the same because a freshly decoded value has no other aliases.
- Envelope.Sign: signing always passes an EC private scalar `d`, as the code does, so RSA signing is not modelled.

## Findings

| source | as written | input that shows it | evidently intended | confidence | as-written member | corrected member |
|---|---|---|---|---|---|---|
| lib/dcc.js:239-247 (with 196-215) | `verify` returns true whenever `verifyAndReturnPayload` does not throw, including when it returns `undefined` because the envelope is unreadable or no certificate was found | content `[1]` decoding to `[h'', {4: h'07'}, undefined, undefined]`, a resolver that knows no key, no caller certificate, a COSE check that always fails: `verify` returns true | true only when a certificate was found and the signature check succeeded | not executed | `Envelope.Verify`, shown by `Envelope.VerifyAcceptsUnknownKey` | `Envelope.VerifyStrict` |
