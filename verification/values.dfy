/** JavaScript values as the codec sees them: what the CBOR decoder returns and
    what the codec builds before encoding.

    A JavaScript `Map` keeps its entries in insertion order and holds each key
    once; it is modelled as an ordered list of entries, read with `Get` (the
    first entry with that key) and written with `Set` (replace the entry in
    place, or append a new one at the end). */
module Values {
  import opened Wrappers

  newtype byte = x: int | 0 <= x < 256

  type Bytes = seq<byte>

  datatype Value =
    | Undefined                     // `undefined`, a missing property or entry
    | Null
    | Bool(b: bool)
    | Int(n: int)
    | Text(s: string)
    | Buf(bytes: Bytes)             // a Buffer / Uint8Array
    | Arr(items: seq<Value>)        // an Array
    | Map(entries: seq<Entry>)      // a Map, entries in insertion order
    | Tagged(tag: nat, value: Value) // the CBOR decoder's Tagged wrapper, read through `.value`

  datatype Entry = Entry(key: Value, val: Value)

  /** JavaScript truthiness: `undefined`, `null`, `false`, `0` and `""` are
      falsy; every object (buffers, arrays and maps included, even empty ones)
      is truthy. */
  predicate Truthy(v: Value) {
    match v
    case Undefined => false
    case Null => false
    case Bool(b) => b
    case Int(n) => n != 0
    case Text(s) => s != ""
    case _ => true
  }

  /** The keys of a Map, in insertion order. */
  function Keys(es: seq<Entry>): (ks: seq<Value>)
    ensures |ks| == |es|
  {
    seq(|es|, i requires 0 <= i < |es| => es[i].key)
  }

  /** The keys after the first are the keys of the rest. */
  lemma KeysOfRest(es: seq<Entry>)
    requires es != []
    ensures Keys(es) == [es[0].key] + Keys(es[1..])
  {
  }

  /** `m.get(k)`: the value of the first entry with key `k`, else `undefined`. */
  function Get(es: seq<Entry>, k: Value): (v: Value)
    ensures k !in Keys(es) ==> v == Undefined
    ensures |es| > 0 && es[0].key == k ==> v == es[0].val
  {
    if es == [] then Undefined
    else
      KeysOfRest(es);
      if es[0].key == k then es[0].val
      else Get(es[1..], k)
  }

  /** `get` returns the first match: looking a key up past a prefix that
      does not hold it reads the same value. */
  lemma {:induction false} GetSkipsOtherKeys(es: seq<Entry>, k: Value, n: nat)
    requires n <= |es|
    requires forall j :: 0 <= j < n ==> es[j].key != k
    ensures Get(es, k) == Get(es[n..], k)
  {
    if n > 0 {
      GetSkipsOtherKeys(es[1..], k, n - 1);
      assert es[1..][n - 1..] == es[n..];
    }
  }

  /** `m.set(k, v)`: an existing key keeps its place and gets the new value; a
      new key is appended. */
  function Set(es: seq<Entry>, k: Value, v: Value): (r: seq<Entry>)
    ensures Get(r, k) == v
  {
    if es == [] then [Entry(k, v)]
    else if es[0].key == k then [Entry(k, v)] + es[1..]
    else
      var r := [es[0]] + Set(es[1..], k, v);
      assert r[1..] == Set(es[1..], k, v);
      r
  }

  /** After `m.set(k, v)` the keys are as before when `k` was present, and
      `k` is appended otherwise. */
  lemma {:induction false} SetKeys(es: seq<Entry>, k: Value, v: Value)
    ensures Keys(Set(es, k, v)) == if k in Keys(es) then Keys(es) else Keys(es) + [k]
  {
    if es != [] {
      KeysOfRest(es);
      var r := Set(es, k, v);
      KeysOfRest(r);
      if es[0].key == k {
        assert r[1..] == es[1..];
      } else {
        SetKeys(es[1..], k, v);
        SetSkipsFirst(es, k, v);
        assert r[1..] == Set(es[1..], k, v);
        assert k in Keys(es) <==> k in Keys(es[1..]);
        if k !in Keys(es[1..]) {
          assert Keys(r) == [es[0].key] + (Keys(es[1..]) + [k]);
        }
      }
    }
  }

  /** `m.set(k, v)` leaves every other key's value as it was. */
  lemma {:induction false} SetKeepsOtherKeys(es: seq<Entry>, k: Value, v: Value, other: Value)
    requires other != k
    ensures Get(Set(es, k, v), other) == Get(es, other)
  {
    if es != [] {
      if es[0].key == k {
        assert Set(es, k, v)[1..] == es[1..];
      } else {
        SetKeepsOtherKeys(es[1..], k, v, other);
        assert Set(es, k, v)[1..] == Set(es[1..], k, v);
      }
    }
  }

  /** Setting a key that is not yet present appends one entry at the end. */
  lemma {:induction false} SetNewKeyAppends(es: seq<Entry>, k: Value, v: Value)
    requires k !in Keys(es)
    ensures Set(es, k, v) == es + [Entry(k, v)]
  {
    if es != [] {
      KeysOfRest(es);
      assert es[0].key != k && k !in Keys(es[1..]);
      SetNewKeyAppends(es[1..], k, v);
      assert es == [es[0]] + es[1..];
      assert Set(es, k, v) == [es[0]] + (es[1..] + [Entry(k, v)]);
    }
  }

  /** `Set` passes over a first entry with another key. */
  lemma SetSkipsFirst(es: seq<Entry>, k: Value, v: Value)
    requires es != [] && es[0].key != k
    ensures Set(es, k, v) == [es[0]] + Set(es[1..], k, v)
  {
  }

  /** Setting a key that is present changes only that entry's value. */
  lemma {:induction false} SetPresentKeyReplaces(es: seq<Entry>, i: nat, v: Value)
    requires i < |es|
    requires forall j :: 0 <= j < i ==> es[j].key != es[i].key
    ensures Set(es, es[i].key, v) == es[i := Entry(es[i].key, v)]
  {
    var k := es[i].key;
    var e := Entry(k, v);
    if i == 0 {
      assert Set(es, k, v) == [e] + es[1..];
      assert es[0 := e] == [e] + es[1..];
    } else {
      var rest := es[1..];
      assert rest[i - 1] == es[i];
      assert es[0].key != k;
      forall j | 0 <= j < i - 1
        ensures rest[j].key != rest[i - 1].key
      {
        assert rest[j] == es[j + 1];
      }
      SetPresentKeyReplaces(rest, i - 1, v);
      SetSkipsFirst(es, k, v);
      assert es[i := e] == [es[0]] + rest[i - 1 := e];
    }
  }
}

/** Prefix and padding tests on text. */
module Strings {

  predicate StartsWith(s: string, prefix: string) {
    |prefix| <= |s| && s[..|prefix|] == prefix
  }

  /** The number of `=` characters that end `s`. */
  function TrailingPadding(s: string): (n: nat)
    ensures n <= |s|
    ensures forall i :: |s| - n <= i < |s| ==> s[i] == '='
    ensures n < |s| ==> s[|s| - n - 1] != '='
  {
    if |s| > 0 && s[|s| - 1] == '=' then TrailingPadding(s[..|s| - 1]) + 1 else 0
  }
}
