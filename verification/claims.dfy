/** The CWT claim map (`makeCWT`, `parseCWT`), claim keys of section 4 of
    RFC 8392 plus the health-certificate claim -260, whose value is a one-entry
    map from version 1 to the payload.

    The issue and expiry instants come from the wall clock and calendar
    arithmetic in the source; here they are inputs, `iat` and `exp`, in seconds
    since the epoch. */
module Claims {
  import opened Wrappers
  import opened Values

  const CWT_ISSUER := 1
  const CWT_SUBJECT := 2
  const CWT_AUDIENCE := 3
  const CWT_EXPIRATION := 4
  const CWT_NOT_BEFORE := 5
  const CWT_ISSUED_AT := 6
  const CWT_ID := 7
  const CWT_HCERT := -260
  const CWT_HCERT_V1 := 1

  /** The claim map `makeCWT` returns, entries in insertion order: issued-at,
      then expiration when `monthsToExpire` is truthy, then issuer when
      `issuer` is truthy, then the health certificate. */
  function CwtClaims(payload: Value, monthsToExpire: Value, issuer: Value, iat: int, exp: int): seq<Entry>
  {
    [Entry(Int(CWT_ISSUED_AT), Int(iat))]
    + (if Truthy(monthsToExpire) then [Entry(Int(CWT_EXPIRATION), Int(exp))] else [])
    + (if Truthy(issuer) then [Entry(Int(CWT_ISSUER), issuer)] else [])
    + [Entry(Int(CWT_HCERT), Map([Entry(Int(CWT_HCERT_V1), payload)]))]
  }

  /** `makeCWT`: a fresh Map filled by successive `set` calls; the nested
      health-certificate map is created empty and then filled through
      `cwt.get(CWT_HCERT)`. */
  method MakeCwt(payload: Value, monthsToExpire: Value, issuer: Value, iat: int, exp: int)
    returns (cwt: Value)
    ensures cwt == Map(CwtClaims(payload, monthsToExpire, issuer, iat, exp))
  {
    ghost var iatEntry := Entry(Int(CWT_ISSUED_AT), Int(iat));
    ghost var expEntries := if Truthy(monthsToExpire) then [Entry(Int(CWT_EXPIRATION), Int(exp))] else [];
    ghost var issEntries := if Truthy(issuer) then [Entry(Int(CWT_ISSUER), issuer)] else [];
    var entries: seq<Entry> := [];
    AppendClaim(entries, CWT_ISSUED_AT, Int(iat));
    entries := Set(entries, Int(CWT_ISSUED_AT), Int(iat));
    if Truthy(monthsToExpire) {
      AppendClaim(entries, CWT_EXPIRATION, Int(exp));
      entries := Set(entries, Int(CWT_EXPIRATION), Int(exp));
    }
    assert entries == [iatEntry] + expEntries;
    if Truthy(issuer) {
      AppendClaim(entries, CWT_ISSUER, issuer);
      entries := Set(entries, Int(CWT_ISSUER), issuer);
    }
    ghost var before := [iatEntry] + expEntries + issEntries;
    assert entries == before;
    AppendClaim(entries, CWT_HCERT, Map([]));
    entries := Set(entries, Int(CWT_HCERT), Map([]));
    // `cwt.get(CWT_HCERT).set(CWT_HCERT_V1, payload)` updates the map that
    // is already stored under CWT_HCERT
    NestPayload(before, payload);
    var hcert := Get(entries, Int(CWT_HCERT));
    entries := Set(entries, Int(CWT_HCERT), Map(Set(hcert.entries, Int(CWT_HCERT_V1), payload)));
    cwt := Map(entries);
  }

  /** Filling the empty health-certificate map stored last in the claims
      leaves one entry, version 1 to the payload, in the same place. */
  lemma NestPayload(before: seq<Entry>, payload: Value)
    requires forall j :: 0 <= j < |before| ==> before[j].key.Int? && before[j].key.n != CWT_HCERT
    ensures var entries := before + [Entry(Int(CWT_HCERT), Map([]))];
      var hcert := Get(entries, Int(CWT_HCERT));
      hcert.Map? &&
      Set(entries, Int(CWT_HCERT), Map(Set(hcert.entries, Int(CWT_HCERT_V1), payload)))
        == before + [Entry(Int(CWT_HCERT), Map([Entry(Int(CWT_HCERT_V1), payload)]))]
  {
    var entries := before + [Entry(Int(CWT_HCERT), Map([]))];
    GetSkipsOtherKeys(entries, Int(CWT_HCERT), |before|);
    SetNewKeyAppends([], Int(CWT_HCERT_V1), payload);
    SetPresentKeyReplaces(entries, |before|, Map([Entry(Int(CWT_HCERT_V1), payload)]));
  }

  /** Setting a claim key that the map does not hold yet appends it. */
  lemma AppendClaim(es: seq<Entry>, k: int, v: Value)
    requires forall j :: 0 <= j < |es| ==> es[j].key.Int? && es[j].key.n != k
    ensures Set(es, Int(k), v) == es + [Entry(Int(k), v)]
  {
    SetNewKeyAppends(es, Int(k), v);
  }

  /** `parseCWT`: `cwt.get(CWT_HCERT).get(CWT_HCERT_V1)`. Calling `get` on
      something that is not a Map throws a TypeError. */
  function ParseCwt(cwt: Value): (r: Result<Value>)
    ensures r.Ok? <==> cwt.Map? && Get(cwt.entries, Int(CWT_HCERT)).Map?
    ensures r.Ok? ==> r.value == Get(Get(cwt.entries, Int(CWT_HCERT)).entries, Int(CWT_HCERT_V1))
    ensures r.Err? ==> r.error == TypeError
  {
    if !cwt.Map? then Err(TypeError)
    else
      var hcert := Get(cwt.entries, Int(CWT_HCERT));
      if !hcert.Map? then Err(TypeError) else Ok(Get(hcert.entries, Int(CWT_HCERT_V1)))
  }

  /** Which claims `makeCWT` sets, and to what. */
  lemma CwtClaimsLayout(payload: Value, monthsToExpire: Value, issuer: Value, iat: int, exp: int)
    ensures var c := CwtClaims(payload, monthsToExpire, issuer, iat, exp);
      && Get(c, Int(CWT_ISSUED_AT)) == Int(iat)
      && (Int(CWT_EXPIRATION) in Keys(c) <==> Truthy(monthsToExpire))
      && (Truthy(monthsToExpire) ==> Get(c, Int(CWT_EXPIRATION)) == Int(exp))
      && (Int(CWT_ISSUER) in Keys(c) <==> Truthy(issuer))
      && (Truthy(issuer) ==> Get(c, Int(CWT_ISSUER)) == issuer)
      && Get(c, Int(CWT_HCERT)) == Map([Entry(Int(CWT_HCERT_V1), payload)])
      && Keys(c)[|c| - 1] == Int(CWT_HCERT)
      && forall k :: k in Keys(c) ==> k.Int? && k.n in {CWT_ISSUED_AT, CWT_EXPIRATION, CWT_ISSUER, CWT_HCERT}
  {
    var c := CwtClaims(payload, monthsToExpire, issuer, iat, exp);
    var e := if Truthy(monthsToExpire) then [Entry(Int(CWT_EXPIRATION), Int(exp))] else [];
    var i := if Truthy(issuer) then [Entry(Int(CWT_ISSUER), issuer)] else [];
    var h := Entry(Int(CWT_HCERT), Map([Entry(Int(CWT_HCERT_V1), payload)]));
    assert c == [Entry(Int(CWT_ISSUED_AT), Int(iat))] + e + i + [h];
    var ks := Keys(c);
    assert Truthy(issuer) ==> ks[1 + |e|] == Int(CWT_ISSUER);
    if Truthy(monthsToExpire) {
      assert ks[1] == Int(CWT_EXPIRATION);
      assert Get(c, Int(CWT_EXPIRATION)) == Get(c[1..], Int(CWT_EXPIRATION));
    }
    if Truthy(issuer) {
      assert Get(c, Int(CWT_ISSUER)) == Get(c[1..], Int(CWT_ISSUER));
      assert Get(c[1..], Int(CWT_ISSUER)) == Get(c[1 + |e|..], Int(CWT_ISSUER));
    }
    assert Get(c, Int(CWT_HCERT)) == Get(c[|c| - 1..], Int(CWT_HCERT)) by {
      GetSkipsOtherKeys(c, Int(CWT_HCERT), |c| - 1);
    }
  }

  /** `parseCWT(makeCWT(p, m, i)) == p`: the payload comes back unchanged,
      whatever the expiry and issuer arguments. */
  lemma ParseMakeRoundTrip(payload: Value, monthsToExpire: Value, issuer: Value, iat: int, exp: int)
    ensures ParseCwt(Map(CwtClaims(payload, monthsToExpire, issuer, iat, exp))) == Ok(payload)
  {
    CwtClaimsLayout(payload, monthsToExpire, issuer, iat, exp);
  }
}
