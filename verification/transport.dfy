/** The transport codec: `"HC1:"` + Base45 (RFC 9285) or Base32 (section 6 of
    RFC 4648) text of a zlib stream (RFC 1950) holding the COSE envelope
    (`unpack`, `isBase32`, `isBase45`, `pack32`, `pack45`, `pack`).

    Decoding tolerates older tokens: the scheme prefix may lack its colon or be
    missing, and the envelope may be uncompressed. The alphabet is sniffed,
    Base32 first; the zlib stream is recognised by its first byte, the CMF
    byte 0x78 (section 2.2 of RFC 1950). */
module Transport {
  import opened Wrappers
  import opened Values
  import opened Externals
  import opened Strings

  const URI_SCHEMA := "HC1"

  /** CMF of a zlib stream using deflate with a 32 KiB window. */
  const ZLIB_CMF: byte := 0x78

  predicate IsBase32Char(c: char) {
    ('A' <= c <= 'Z') || ('2' <= c <= '7')
  }

  predicate IsBase45Char(c: char) {
    ('A' <= c <= 'Z') || ('0' <= c <= '9') || c in {' ', '$', '%', '*', '+', '.', '/', ':', '-'}
  }

  /** `isBase32`: the text matches `^[A-Z2-7]+=*$`. */
  predicate IsBase32(s: string): (b: bool)
    ensures b ==> s != [] && IsBase32Char(s[0])
    ensures b ==> forall i :: 0 <= i < |s| ==> IsBase32Char(s[i]) || s[i] == '='
  {
    var body := |s| - TrailingPadding(s);
    body > 0 && forall i :: 0 <= i < body ==> IsBase32Char(s[i])
  }

  /** `isBase45`: the text matches `^[A-Z0-9 $%*+./:-]+$`. */
  predicate IsBase45(s: string): (b: bool)
    ensures b ==> s != []
    // no padding and no lower case
    ensures b ==> forall i :: 0 <= i < |s| ==> s[i] != '=' && !('a' <= s[i] <= 'z')
  {
    |s| > 0 && forall i :: 0 <= i < |s| ==> IsBase45Char(s[i])
  }

  /** The Base32 pattern read literally: `k` alphabet characters, at least
      one, and nothing after them but `=`. */
  ghost predicate MatchesBase32At(s: string, k: int) {
    && 1 <= k <= |s|
    && (forall i :: 0 <= i < k ==> IsBase32Char(s[i]))
    && (forall i :: k <= i < |s| ==> s[i] == '=')
  }

  /** `IsBase32` decides exactly the language of `^[A-Z2-7]+=*$`. */
  lemma IsBase32IsThePattern(s: string)
    ensures IsBase32(s) <==> exists k :: MatchesBase32At(s, k)
  {
    var n := TrailingPadding(s);
    if IsBase32(s) {
      assert MatchesBase32At(s, |s| - n);
    }
    if k :| MatchesBase32At(s, k) {
      assert s[k - 1] != '=';
      assert k <= |s| - n;
      assert s[|s| - n - 1] != '=';
      assert k >= |s| - n;
    }
  }

  /** The two alphabets overlap: unpadded Base32 text is also Base45 text,
      and Base45 text is Base32 text exactly when all of it is drawn from
      `[A-Z2-7]`. */
  lemma AlphabetsOverlap(s: string)
    ensures IsBase32(s) && TrailingPadding(s) == 0 ==> IsBase45(s)
    ensures IsBase45(s) ==> (IsBase32(s) <==> forall i :: 0 <= i < |s| ==> IsBase32Char(s[i]))
  {
    if IsBase45(s) {
      assert !IsBase45Char('=');
      if |s| > 0 {
        assert s[|s| - 1] != '=';
      }
      assert TrailingPadding(s) == 0;
    }
  }

  /** Which decoder the sniffing picks. */
  datatype Encoding = Base32 | Base45 | Unrecognized

  function Classify(text: string): (e: Encoding)
    ensures e == Base32 <==> IsBase32(text)
    ensures e == Base45 <==> !IsBase32(text) && IsBase45(text)
  {
    if IsBase32(text) then Base32 else if IsBase45(text) then Base45 else Unrecognized
  }

  /** Text that matches both patterns is decoded as Base32, and the empty text
      matches neither. */
  lemma Base32TakesPrecedence(text: string)
    ensures IsBase32(text) && IsBase45(text) ==> Classify(text) == Base32
    ensures Classify("") == Unrecognized
    ensures Classify("ABC") == Base32 && IsBase45("ABC")
  {
    assert TrailingPadding("ABC") == 0;
  }

  /** What is left after the scheme prefix, and whether `unpack` warns that
      the token comes from an older version. */
  datatype Stripped = Stripped(text: string, legacy: bool)

  function StripScheme(uri: string): (s: Stripped)
    ensures !s.legacy <==> uri == URI_SCHEMA + ":" + s.text
    ensures s.legacy ==>
      || (uri == URI_SCHEMA + s.text && !StartsWith(s.text, ":"))
      || (uri == s.text && !StartsWith(uri, URI_SCHEMA))
  {
    if StartsWith(uri, URI_SCHEMA) then
      var rest := uri[3..];
      assert uri == URI_SCHEMA + rest;
      if StartsWith(rest, ":") then
        assert uri == URI_SCHEMA + ":" + rest[1..];
        Stripped(rest[1..], false)
      else
        Stripped(rest, true)
    else
      Stripped(uri, true)
  }

  /** The three ways a token may start. */
  lemma StripSchemeCases(t: string)
    ensures StripScheme(URI_SCHEMA + ":" + t) == Stripped(t, false)
    ensures !StartsWith(t, ":") ==> StripScheme(URI_SCHEMA + t) == Stripped(t, true)
    ensures !StartsWith(t, URI_SCHEMA) ==> StripScheme(t) == Stripped(t, true)
  {
    var u := URI_SCHEMA + ":" + t;
    assert StartsWith(u, URI_SCHEMA) && u[3..] == ":" + t && StartsWith(u[3..], ":");
    assert (":" + t)[1..] == t;
    var v := URI_SCHEMA + t;
    assert StartsWith(v, URI_SCHEMA) && v[3..] == t;
  }

  /** The text decoded by the decoder its alphabet selects; unrecognised text
      leaves the bytes undefined, and reading their first byte throws. */
  function Decoded(env: Libraries, text: string): Result<Bytes> {
    match Classify(text)
    case Base32 => env.base32Decode(text)
    case Base45 => env.base45Decode(text)
    case Unrecognized => Err(TypeError)
  }

  /** Inflate exactly when the first byte is the zlib CMF byte. */
  function Inflated(env: Libraries, bytes: Bytes): Result<Bytes> {
    if |bytes| > 0 && bytes[0] == ZLIB_CMF then env.inflate(bytes) else Ok(bytes)
  }

  /** What `unpack` returns or throws. */
  function Unpacked(env: Libraries, uri: string): (r: Result<Bytes>)
    ensures Classify(StripScheme(uri).text) == Unrecognized ==> r == Err(TypeError)
    ensures Decoded(env, StripScheme(uri).text).Err? ==> r == Err(Decoded(env, StripScheme(uri).text).error)
    ensures Decoded(env, StripScheme(uri).text).Ok? ==>
      var bytes := Decoded(env, StripScheme(uri).text).value;
      && (|bytes| > 0 && bytes[0] == ZLIB_CMF ==> r == env.inflate(bytes))
      && (|bytes| == 0 || bytes[0] != ZLIB_CMF ==> r == Ok(bytes))
  {
    match Decoded(env, StripScheme(uri).text)
    case Err(e) => Err(e)
    case Ok(bytes) => Inflated(env, bytes)
  }

  /** `unpack`: strip the scheme, decode by alphabet, inflate when the data
      starts with the zlib CMF byte. */
  method Unpack(env: Libraries, uri: string) returns (r: Result<Bytes>)
    ensures r == Unpacked(env, uri)
    ensures Classify(StripScheme(uri).text) == Unrecognized ==> r == Err(TypeError)
    ensures Decoded(env, StripScheme(uri).text).Ok? ==>
      var bytes := Decoded(env, StripScheme(uri).text).value;
      && (|bytes| > 0 && bytes[0] == ZLIB_CMF ==> r == env.inflate(bytes))
      && (|bytes| == 0 || bytes[0] != ZLIB_CMF ==> r == Ok(bytes))
  {
    var data := uri;
    if StartsWith(data, URI_SCHEMA) {
      data := data[3..];
      if StartsWith(data, ":") {
        data := data[1..];
      }
    }
    assert data == StripScheme(uri).text;

    var unencodedData: Option<Bytes> := None;
    if IsBase32(data) {
      var decoded := env.base32Decode(data);
      if decoded.Err? {
        return Err(decoded.error);
      }
      unencodedData := Some(decoded.value);
    } else if IsBase45(data) {
      var decoded := env.base45Decode(data);
      if decoded.Err? {
        return Err(decoded.error);
      }
      unencodedData := Some(decoded.value);
    }

    if unencodedData.None? {
      // `undefined[0]`
      return Err(TypeError);
    }
    var bytes := unencodedData.value;
    if |bytes| > 0 && bytes[0] == ZLIB_CMF {
      r := env.inflate(bytes);
    } else {
      r := Ok(bytes);
    }
  }

  /** A token without the colon, or without the whole prefix, decodes as the
      prefixed token does. */
  lemma LegacyTokensDecodeAlike(env: Libraries, t: string)
    ensures !StartsWith(t, ":") ==> Unpacked(env, URI_SCHEMA + t) == Unpacked(env, URI_SCHEMA + ":" + t)
    ensures !StartsWith(t, URI_SCHEMA) ==> Unpacked(env, t) == Unpacked(env, URI_SCHEMA + ":" + t)
  {
    StripSchemeCases(t);
  }

  /** `pack32`: deflate, Base32-encode, prefix with `HC1:`. */
  function Pack32(env: Libraries, payload: Bytes): (token: string)
    ensures StripScheme(token) == Stripped(env.base32Encode(env.deflate(payload)), false)
  {
    StripSchemeCases(env.base32Encode(env.deflate(payload)));
    URI_SCHEMA + ":" + env.base32Encode(env.deflate(payload))
  }

  /** `pack45`: deflate, Base45-encode, prefix with `HC1:`. */
  function Pack45(env: Libraries, payload: Bytes): (token: string)
    ensures StripScheme(token) == Stripped(env.base45Encode(env.deflate(payload)), false)
  {
    StripSchemeCases(env.base45Encode(env.deflate(payload)));
    URI_SCHEMA + ":" + env.base45Encode(env.deflate(payload))
  }

  /** `pack`: the Base45 form. */
  function Pack(env: Libraries, payload: Bytes): (token: string)
    ensures StripScheme(token) == Stripped(env.base45Encode(env.deflate(payload)), false)
  {
    Pack45(env, payload)
  }

  /** `unpack(pack45(x))`. Given that inflate undoes deflate, that deflate
      output starts with the zlib CMF byte, and that the Base45 codec round
      trips and writes its own alphabet, the payload comes back exactly when
      the Base45 text holds a character outside `[A-Z2-7]`. Otherwise the
      sniffing sends it to the Base32 decoder instead. */
  lemma Pack45RoundTrip(env: Libraries, x: Bytes)
    requires env.inflate(env.deflate(x)) == Ok(x)
    requires |env.deflate(x)| > 0 && env.deflate(x)[0] == ZLIB_CMF
    requires env.base45Decode(env.base45Encode(env.deflate(x))) == Ok(env.deflate(x))
    requires IsBase45(env.base45Encode(env.deflate(x)))
    ensures var text := env.base45Encode(env.deflate(x));
      && ((exists i :: 0 <= i < |text| && !IsBase32Char(text[i])) ==> Unpacked(env, Pack45(env, x)) == Ok(x))
      && ((forall i :: 0 <= i < |text| ==> IsBase32Char(text[i])) ==>
            Unpacked(env, Pack45(env, x)) == (match env.base32Decode(text)
                                              case Ok(b) => Inflated(env, b)
                                              case Err(e) => Err(e)))
  {
    var text := env.base45Encode(env.deflate(x));
    AlphabetsOverlap(text);
    assert StripScheme(Pack45(env, x)).text == text;
  }

  /** `unpack(pack32(x)) == x`, given the same compression facts, a Base32
      codec that round trips, and encoder output matching the Base32 pattern. */
  lemma Pack32RoundTrip(env: Libraries, x: Bytes)
    requires env.inflate(env.deflate(x)) == Ok(x)
    requires |env.deflate(x)| > 0 && env.deflate(x)[0] == ZLIB_CMF
    requires env.base32Decode(env.base32Encode(env.deflate(x))) == Ok(env.deflate(x))
    requires IsBase32(env.base32Encode(env.deflate(x)))
    ensures Unpacked(env, Pack32(env, x)) == Ok(x)
  {
    assert StripScheme(Pack32(env, x)).text == env.base32Encode(env.deflate(x));
  }

  /** An uncompressed envelope (first byte not 0x78) passes through as it was
      decoded, as tokens issued before compression became mandatory did. */
  lemma UncompressedPassesThrough(env: Libraries, text: string, bytes: Bytes)
    requires Decoded(env, text) == Ok(bytes)
    requires |bytes| == 0 || bytes[0] != ZLIB_CMF
    ensures Unpacked(env, URI_SCHEMA + ":" + text) == Ok(bytes)
  {
    StripSchemeCases(text);
  }
}
