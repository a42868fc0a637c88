/** The debugging view of a token (`toBase64URL`, `decodeCbor`, `debug`):
    every byte string that holds CBOR is replaced by its decoded value,
    recursively, and one that does not is shown as Base64 text (section 4 of
    RFC 4648), or as unpadded URL-safe Base64 (section 5 of RFC 4648) when it
    is 8 bytes long, the length of a key ID.

    Decoding a byte string can only give values whose own byte strings are
    shorter than it, which is what makes the recursion end. That is a fact
    about every CBOR decoder (a byte string of n bytes takes at least n + 1
    bytes to encode) and is stated here as `DecodeShrinks`. */
module Debug {
  import opened Wrappers
  import opened Values
  import opened Externals
  import opened Strings
  import opened Transport

  // ------------------------------------------------------------ Base64 URL

  function UrlChar(c: char): char {
    if c == '+' then '-' else if c == '/' then '_' else c
  }

  function StandardChar(c: char): char {
    if c == '-' then '+' else if c == '_' then '/' else c
  }

  /** `+` to `-` and `/` to `_`, everywhere. */
  function UrlAlphabet(s: string): (t: string)
    ensures |t| == |s|
    ensures forall i :: 0 <= i < |t| ==> t[i] != '+' && t[i] != '/'
  {
    seq(|s|, i requires 0 <= i < |s| => UrlChar(s[i]))
  }

  /** `toBase64URL`: the Base64 text in the URL-safe alphabet, without its
      trailing `=` padding. */
  function ToBase64Url(env: Libraries, bytes: Bytes): (s: string)
    ensures forall i :: 0 <= i < |s| ==> s[i] != '+' && s[i] != '/'
    ensures |s| == 0 || s[|s| - 1] != '='
    ensures |s| <= |env.base64(bytes)|
    ensures UrlAlphabet(env.base64(bytes)) == s + seq(|env.base64(bytes)| - |s|, _ => '=')
  {
    var t := UrlAlphabet(env.base64(bytes));
    var s := t[..|t| - TrailingPadding(t)];
    assert t == s + seq(|t| - |s|, _ => '=');
    s
  }

  /** Translating back and restoring the padding gives the Base64 text again,
      when that text does not use `-` or `_` (standard Base64 never does). */
  lemma ToBase64UrlRecoversBase64(env: Libraries, bytes: Bytes)
    requires forall i :: 0 <= i < |env.base64(bytes)| ==> env.base64(bytes)[i] != '-' && env.base64(bytes)[i] != '_'
    ensures var s := ToBase64Url(env, bytes);
      var b64 := env.base64(bytes);
      seq(|s|, i requires 0 <= i < |s| => StandardChar(s[i])) + seq(|b64| - |s|, _ => '=') == b64
  {
    var s, b64 := ToBase64Url(env, bytes), env.base64(bytes);
    var t := UrlAlphabet(b64);
    var back := seq(|s|, i requires 0 <= i < |s| => StandardChar(s[i]));
    var pad := seq(|b64| - |s|, _ => '=');
    forall i | 0 <= i < |b64|
      ensures (back + pad)[i] == b64[i]
    {
      assert t[i] == UrlChar(b64[i]);
      if i < |s| {
        assert s[i] == t[i];
      } else {
        assert t[i] == '=';
      }
    }
  }

  /** How the handler of `decodeCbor` shows a byte string: unpadded
      URL-safe Base64 when it is 8 bytes long, the length of a key ID, and
      standard Base64 otherwise. */
  function Base64Shown(env: Libraries, b: Bytes): string {
    if |b| == 8 then ToBase64Url(env, b) else env.base64(b)
  }

  // ---------------------------------------------------------------- weights

  /** The total length, plus one each, of the byte strings that `Render`
      would decode: those outside CBOR tags, and not in Map keys. */
  function RenderWeight(v: Value): nat {
    match v
    case Buf(b) => |b| + 1
    case Arr(items) => SeqWeight(items)
    case Map(es) => EntriesWeight(es)
    case _ => 0
  }

  function SeqWeight(items: seq<Value>): nat {
    if items == [] then 0 else RenderWeight(items[0]) + SeqWeight(items[1..])
  }

  function EntriesWeight(es: seq<Entry>): nat {
    if es == [] then 0 else EntryWeight(es[0]) + EntriesWeight(es[1..])
  }

  function EntryWeight(e: Entry): nat {
    RenderWeight(e.val)
  }

  /** The total length, plus one each, of all the byte strings in a value. */
  function BufferWeight(v: Value): nat {
    match v
    case Buf(b) => |b| + 1
    case Arr(items) => SeqBufferWeight(items)
    case Map(es) => EntriesBufferWeight(es)
    case Tagged(_, x) => BufferWeight(x)
    case _ => 0
  }

  function SeqBufferWeight(items: seq<Value>): nat {
    if items == [] then 0 else BufferWeight(items[0]) + SeqBufferWeight(items[1..])
  }

  function EntriesBufferWeight(es: seq<Entry>): nat {
    if es == [] then 0 else EntryBufferWeight(es[0]) + EntriesBufferWeight(es[1..])
  }

  function EntryBufferWeight(e: Entry): nat {
    BufferWeight(e.key) + BufferWeight(e.val)
  }

  /** The number of nodes of a value, counting each list cell once more. */
  function Size(v: Value): nat {
    match v
    case Arr(items) => 1 + SeqSize(items)
    case Map(es) => 1 + EntriesSize(es)
    case Tagged(_, x) => 1 + Size(x)
    case _ => 1
  }

  function SeqSize(items: seq<Value>): nat {
    if items == [] then 0 else 1 + Size(items[0]) + SeqSize(items[1..])
  }

  function EntriesSize(es: seq<Entry>): nat {
    if es == [] then 0 else 1 + EntrySize(es[0]) + EntriesSize(es[1..])
  }

  function EntrySize(e: Entry): nat {
    Size(e.val)
  }

  /** The byte strings `Render` decodes are among all the byte strings. */
  lemma {:induction false} RenderWeightBounded(v: Value)
    ensures RenderWeight(v) <= BufferWeight(v)
  {
    match v
    case Arr(items) => SeqWeightBounded(items);
    case Map(es) => EntriesWeightBounded(es);
    case _ =>
  }

  lemma {:induction false} SeqWeightBounded(items: seq<Value>)
    ensures SeqWeight(items) <= SeqBufferWeight(items)
  {
    if items != [] {
      RenderWeightBounded(items[0]);
      SeqWeightBounded(items[1..]);
    }
  }

  lemma {:induction false} EntriesWeightBounded(es: seq<Entry>)
    ensures EntriesWeight(es) <= EntriesBufferWeight(es)
  {
    if es != [] {
      EntryWeightBounded(es[0]);
      EntriesWeightBounded(es[1..]);
    }
  }

  lemma {:induction false} EntryWeightBounded(e: Entry)
    ensures EntryWeight(e) <= EntryBufferWeight(e)
  {
    RenderWeightBounded(e.val);
  }

  /** Every value a decoder returns holds fewer byte-string bytes, plus one
      per byte string, than the bytes it was decoded from. */
  ghost predicate DecodeShrinks(env: Libraries) {
    forall b: Bytes :: env.cborDecode(b).Ok? ==> BufferWeight(env.cborDecode(b).value) <= |b|
  }

  // -------------------------------------------------------------- rendering

  /** The value `decodeCbor` returns. A byte string that does not decode is
      shown as Base64; one that decodes is replaced by the decoded value,
      in which the elements of an array are rendered twice (once by the
      `for...in` pass, once by the array pass), the values of a Map once,
      and the value of a CBOR tag once. A byte string that decodes to
      another byte string is shown as Base64 of the inner one: the
      `for...in` pass over a Buffer also visits its inherited getters
      `parent` and `offset`, and assigning to a getter throws in module
      code, so the handler takes over with the decoded value. Arrays and
      Maps met directly have their elements or values rendered; anything
      else is left alone. */
  function Render(env: Libraries, v: Value): (r: Value)
    requires DecodeShrinks(env)
    ensures RenderWeight(v) == 0 ==> r == v
    ensures RenderWeight(v) > 0 ==> RenderWeight(r) < RenderWeight(v)
    decreases RenderWeight(v), Size(v)
  {
    match v
    case Buf(b) =>
      (match env.cborDecode(b)
      case Err(_) => Text(Base64Shown(env, b))
      case Ok(decoded) =>
        RenderWeightBounded(decoded);
        (match decoded
         case Arr(items) => Arr(RenderSeq(env, RenderSeq(env, items)))
         case Map(es) => Map(RenderEntries(env, es))
         case Tagged(t, x) =>
           RenderWeightBounded(x);
           Tagged(t, Render(env, x))
         case Buf(c) => Text(Base64Shown(env, c))
         case _ => decoded))
    case Arr(items) => Arr(RenderSeq(env, items))
    case Map(es) => Map(RenderEntries(env, es))
    case _ => v
  }

  /** Every element rendered, in place. */
  function RenderSeq(env: Libraries, items: seq<Value>): (r: seq<Value>)
    requires DecodeShrinks(env)
    ensures |r| == |items|
    ensures SeqWeight(items) == 0 ==> r == items
    ensures SeqWeight(items) > 0 ==> SeqWeight(r) < SeqWeight(items)
    decreases SeqWeight(items), SeqSize(items)
  {
    if items == [] then []
    else
      var r := [Render(env, items[0])] + RenderSeq(env, items[1..]);
      assert r[1..] == RenderSeq(env, items[1..]);
      r
  }

  /** Every value rendered, keys kept in place. */
  function RenderEntries(env: Libraries, es: seq<Entry>): (r: seq<Entry>)
    requires DecodeShrinks(env)
    ensures Keys(r) == Keys(es)
    ensures EntriesWeight(es) == 0 ==> r == es
    ensures EntriesWeight(es) > 0 ==> EntriesWeight(r) < EntriesWeight(es)
    decreases EntriesWeight(es), EntriesSize(es)
  {
    if es == [] then []
    else
      assert EntryWeight(es[0]) == RenderWeight(es[0].val) && EntrySize(es[0]) == Size(es[0].val);
      var r := [Entry(es[0].key, Render(env, es[0].val))] + RenderEntries(env, es[1..]);
      assert r[1..] == RenderEntries(env, es[1..]);
      KeysOfRest(es);
      KeysOfRest(r);
      r
  }

  /** `RenderSeq` renders each element on its own. */
  lemma {:induction false} RenderSeqElementwise(env: Libraries, items: seq<Value>)
    requires DecodeShrinks(env)
    ensures forall i :: 0 <= i < |items| ==> RenderSeq(env, items)[i] == Render(env, items[i])
  {
    if items != [] {
      RenderSeqElementwise(env, items[1..]);
    }
  }

  /** `RenderEntries` renders each value on its own and keeps each key. */
  lemma {:induction false} RenderEntriesElementwise(env: Libraries, es: seq<Entry>)
    requires DecodeShrinks(env)
    ensures forall i :: 0 <= i < |es| ==> RenderEntries(env, es)[i] == Entry(es[i].key, Render(env, es[i].val))
  {
    if es != [] {
      RenderEntriesElementwise(env, es[1..]);
    }
  }

  lemma {:induction false} ElementBounds(items: seq<Value>, i: nat)
    requires i < |items|
    ensures RenderWeight(items[i]) <= SeqWeight(items)
    ensures Size(items[i]) < SeqSize(items)
  {
    if i > 0 {
      ElementBounds(items[1..], i - 1);
    }
  }

  lemma {:induction false} EntryBounds(es: seq<Entry>, i: nat)
    requires i < |es|
    ensures RenderWeight(es[i].val) <= EntriesWeight(es)
    ensures Size(es[i].val) < EntriesSize(es)
  {
    if i > 0 {
      EntryBounds(es[1..], i - 1);
    }
  }

  /** Rendering keeps the shape of what it is given: an array keeps its
      length, a Map its keys in order, and any other value that is not a
      byte string comes back unchanged. */
  lemma RenderPreservesStructure(env: Libraries, v: Value)
    requires DecodeShrinks(env)
    ensures v.Arr? ==> Render(env, v).Arr? && |Render(env, v).items| == |v.items|
    ensures v.Map? ==> Render(env, v).Map? && Keys(Render(env, v).entries) == Keys(v.entries)
    ensures !v.Buf? && !v.Arr? && !v.Map? ==> Render(env, v) == v
  {
  }

  /** A byte string that is not CBOR and is 8 bytes long, a key ID, is shown
      as URL-safe Base64 without padding: no `+`, no `/`, no trailing `=`. */
  lemma KeyIdRendersUrlSafe(env: Libraries, b: Bytes)
    requires DecodeShrinks(env)
    requires |b| == 8 && env.cborDecode(b).Err?
    ensures Render(env, Buf(b)) == Text(ToBase64Url(env, b))
    ensures var s := Render(env, Buf(b)).s;
      (forall i :: 0 <= i < |s| ==> s[i] != '+' && s[i] != '/') && (|s| == 0 || s[|s| - 1] != '=')
  {
  }

  /** A byte string that is not CBOR and is not 8 bytes long is shown as
      standard Base64. */
  lemma OtherBytesRenderBase64(env: Libraries, b: Bytes)
    requires DecodeShrinks(env)
    requires |b| != 8 && env.cborDecode(b).Err?
    ensures Render(env, Buf(b)) == Text(env.base64(b))
  {
  }

  /** A byte string whose CBOR is a byte string is shown as the Base64 of
      the inner byte string, URL-safe when that one is 8 bytes long. */
  lemma NestedBytesRenderBase64(env: Libraries, b: Bytes, c: Bytes)
    requires DecodeShrinks(env)
    requires env.cborDecode(b) == Ok(Buf(c))
    ensures |c| == 8 ==> Render(env, Buf(b)) == Text(ToBase64Url(env, c))
    ensures |c| != 8 ==> Render(env, Buf(b)) == Text(env.base64(c))
  {
  }

  /** A byte string whose CBOR is a Map shows that Map with its keys in
      order and each value rendered once, by the Map pass. */
  lemma DecodedMapRendersValues(env: Libraries, b: Bytes, es: seq<Entry>)
    requires DecodeShrinks(env)
    requires env.cborDecode(b) == Ok(Map(es))
    ensures Render(env, Buf(b)).Map?
    ensures Keys(Render(env, Buf(b)).entries) == Keys(es)
    ensures forall i :: 0 <= i < |es| ==> Render(env, Buf(b)).entries[i] == Entry(es[i].key, Render(env, es[i].val))
  {
    RenderEntriesElementwise(env, es);
  }

  /** A byte string whose CBOR is a tag shows the tag with its value
      rendered once, by the `for...in` pass over the tag's fields. */
  lemma DecodedTagRendersValue(env: Libraries, b: Bytes, t: nat, x: Value)
    requires DecodeShrinks(env)
    requires env.cborDecode(b) == Ok(Tagged(t, x))
    ensures Render(env, Buf(b)) == Tagged(t, Render(env, x))
  {
  }

  /** A byte string whose CBOR is a scalar (a number, a boolean, a text,
      `null` or `undefined`) shows that scalar. */
  lemma DecodedScalarUnchanged(env: Libraries, b: Bytes, v: Value)
    requires DecodeShrinks(env)
    requires env.cborDecode(b) == Ok(v)
    requires !v.Buf? && !v.Arr? && !v.Map? && !v.Tagged?
    ensures Render(env, Buf(b)) == v
  {
  }

  /** A byte string whose CBOR is an array shows each element rendered
      twice: a byte string nested two levels deep is decoded too. */
  lemma DecodedArrayRenderedTwice(env: Libraries, b: Bytes, items: seq<Value>)
    requires DecodeShrinks(env)
    requires env.cborDecode(b) == Ok(Arr(items))
    ensures Render(env, Buf(b)).Arr?
    ensures |Render(env, Buf(b)).items| == |items|
    ensures forall i :: 0 <= i < |items| ==> Render(env, Buf(b)).items[i] == Render(env, Render(env, items[i]))
  {
    RenderSeqElementwise(env, items);
    RenderSeqElementwise(env, RenderSeq(env, items));
  }

  // ----------------------------------------------------------------- methods

  /** `decodeCbor`, step by step. */
  method DecodeCbor(env: Libraries, cborObj: Value) returns (r: Value)
    requires DecodeShrinks(env)
    ensures r == Render(env, cborObj)
    decreases RenderWeight(cborObj), Size(cborObj)
  {
    match cborObj
    case Buf(b) =>
      var decoded := env.cborDecode(b);
      if decoded.Err? {
        // not CBOR: Base64, or the URL-safe form for a key ID
        r := Text(Base64Shown(env, b));
        return;
      }
      RenderWeightBounded(decoded.value);
      match decoded.value {
        case Arr(items) =>
          // the `for...in` pass, then the array pass
          var once := DecodeEach(env, items);
          var twice := DecodeEach(env, once);
          r := Arr(twice);
        case Map(es) =>
          var rendered := DecodeEntries(env, es);
          r := Map(rendered);
        case Tagged(t, x) =>
          RenderWeightBounded(x);
          var rendered := DecodeCbor(env, x);
          r := Tagged(t, rendered);
        case Buf(c) =>
          // the `for...in` pass reaches the getters `parent` and `offset`
          // that a Buffer inherits; assigning to them throws, and the
          // handler shows the decoded byte string as Base64
          r := Text(Base64Shown(env, c));
        case _ =>
          r := decoded.value;
      }
    case Arr(items) =>
      var rendered := DecodeEach(env, items);
      r := Arr(rendered);
    case Map(es) =>
      var rendered := DecodeEntries(env, es);
      r := Map(rendered);
    case _ =>
      r := cborObj;
  }

  /** `cborObj[i] = decodeCbor(cborObj[i])` for each index in turn. */
  method DecodeEach(env: Libraries, items: seq<Value>) returns (r: seq<Value>)
    requires DecodeShrinks(env)
    ensures r == RenderSeq(env, items)
    decreases SeqWeight(items), SeqSize(items)
  {
    r := items;
    var i := 0;
    while i < |r|
      invariant 0 <= i <= |r| == |items|
      invariant forall j :: 0 <= j < i ==> r[j] == Render(env, items[j])
      invariant r[i..] == items[i..]
    {
      ElementBounds(items, i);
      assert r[i] == items[i];
      var x := DecodeCbor(env, r[i]);
      r := r[i := x];
      i := i + 1;
    }
    RenderSeqElementwise(env, items);
  }

  /** `cborObj.set(key, decodeCbor(cborObj.get(key)))` for each entry in
      turn; a Map holds each key once, so this replaces the entry in place. */
  method DecodeEntries(env: Libraries, es: seq<Entry>) returns (r: seq<Entry>)
    requires DecodeShrinks(env)
    ensures r == RenderEntries(env, es)
    decreases EntriesWeight(es), EntriesSize(es)
  {
    r := es;
    var i := 0;
    while i < |r|
      invariant 0 <= i <= |r| == |es|
      invariant forall j :: 0 <= j < i ==> r[j] == Entry(es[j].key, Render(env, es[j].val))
      invariant r[i..] == es[i..]
    {
      EntryBounds(es, i);
      assert r[i] == es[i];
      var x := DecodeCbor(env, r[i].val);
      r := r[i := Entry(r[i].key, x)];
      i := i + 1;
    }
    RenderEntriesElementwise(env, es);
  }

  /** What `debug` returns or throws: the rendered token. */
  function Debugged(env: Libraries, uri: string): (r: Result<Value>)
    requires DecodeShrinks(env)
    ensures Unpacked(env, uri).Err? ==> r == Err(Unpacked(env, uri).error)
    ensures Unpacked(env, uri).Ok? ==> r == Ok(Render(env, Buf(Unpacked(env, uri).value)))
  {
    match Unpacked(env, uri)
    case Err(e) => Err(e)
    case Ok(bytes) => Ok(Render(env, Buf(bytes)))
  }

  /** `debug`: unpack the token and render the envelope. */
  method Debug(env: Libraries, uri: string) returns (r: Result<Value>)
    requires DecodeShrinks(env)
    ensures r == Debugged(env, uri)
  {
    var unpacked := Unpack(env, uri);
    if unpacked.Err? {
      return Err(unpacked.error);
    }
    var rendered := DecodeCbor(env, Buf(unpacked.value));
    r := Ok(rendered);
  }
}
