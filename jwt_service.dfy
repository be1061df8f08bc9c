/** `JwtService.create_access_token`: the payload and its expiry, with time as whole seconds. */
module JwtService {
  import opened Wrappers

  /** A payload value: claims either hold integers (`exp` is seconds since the epoch) or text. */
  datatype Claim = IntClaim(i: int) | TextClaim(s: string)

  type Payload = map<string, Claim>

  /** `jwt.encode(payload, SECRET_KEY, algorithm=ALGORITHM)`, not modelled. */
  type Encoder = Payload -> string

  /** The returned `Token` schema. */
  datatype Token = Token(accessToken: string, tokenType: string)

  const ExpiryKey: string := "exp"
  const DefaultLifetimeSeconds: int := 15 * 60

  /** The expiry: `now + expires_delta` when a delta is given and is truthy (non-zero), otherwise
      `now + 15 minutes`. */
  function Expiry(now: int, expiresDelta: Option<int>): (r: int)
    ensures expiresDelta.Some? && expiresDelta.value != 0 ==> r == now + expiresDelta.value
    ensures expiresDelta.None? || expiresDelta.value == 0 ==> r == now + 900
  {
    if expiresDelta.Some? && expiresDelta.value != 0 then now + expiresDelta.value
    else now + DefaultLifetimeSeconds
  }

  /** The dictionary that is encoded: a copy of `data` with "exp" added or overwritten. */
  function EncodedPayload(data: Payload, now: int, expiresDelta: Option<int>): (r: Payload)
    ensures r.Keys == data.Keys + {ExpiryKey}
    ensures r[ExpiryKey] == IntClaim(Expiry(now, expiresDelta))
    ensures forall k :: k in data && k != ExpiryKey ==> r[k] == data[k]
  {
    data[ExpiryKey := IntClaim(Expiry(now, expiresDelta))]
  }

  /** `create_access_token`; `data` is a value here, so the caller's dictionary cannot change. */
  function CreateAccessToken(data: Payload, expiresDelta: Option<int>, now: int, encode: Encoder): (t: Token)
    ensures t.tokenType == "bearer"
    ensures t.accessToken == encode(EncodedPayload(data, now, expiresDelta))
  {
    Token(encode(EncodedPayload(data, now, expiresDelta)), "bearer")
  }

  /** A zero delta is falsy and behaves exactly like no delta. */
  lemma ZeroDeltaMeansDefault(data: Payload, now: int, encode: Encoder)
    ensures CreateAccessToken(data, Some(0), now, encode) == CreateAccessToken(data, None, now, encode)
    ensures EncodedPayload(data, now, None)[ExpiryKey] == IntClaim(now + 900)
  {
  }

  /** For data without an "exp" claim, the payload is that data plus exactly the one expiry claim. */
  lemma PayloadOnlyAddsExpiry(data: Payload, now: int, expiresDelta: Option<int>)
    requires ExpiryKey !in data
    ensures EncodedPayload(data, now, expiresDelta) - {ExpiryKey} == data
  {
    var p := EncodedPayload(data, now, expiresDelta);
    assert (p - {ExpiryKey}).Keys == data.Keys;
  }
}
