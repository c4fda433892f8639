/** The Zhipu credential: a compound `id.secret` key from which a short-lived
    token is derived for every call. The HMAC signing itself is not modelled;
    the token is represented by what is handed to the signer. */
module Zhipu {
  import opened Base
  import opened Strings

  /** The signed payload: `api_key`, `exp` (seconds) and `timestamp` (milliseconds). */
  datatype Claims = Claims(apiKey: string, exp: int, timestamp: int)

  /** The claims together with the signing secret, which is `undefined` when the
      key holds no '.'. */
  datatype UnsignedToken = UnsignedToken(claims: Claims, secret: Option<string>)

  /** `generateZhipuToken(apiKey, expSeconds)` at the instant `nowMs`: the id is the
      segment before the first '.', the secret the segment after it, and the
      expiry lies `expSeconds` after the current whole second. */
  function GenerateZhipuToken(apiKey: string, expSeconds: int, nowMs: int): UnsignedToken
  {
    var parts := Split(apiKey, '.');
    var secret := if |parts| > 1 then Some(parts[1]) else None;
    UnsignedToken(Claims(parts[0], nowMs / 1000 + expSeconds, nowMs), secret)
  }

  /** The id holds no '.'; without a '.' the whole key is the id and there is no
      secret; otherwise the key starts with `id.secret`, followed by its end or
      another '.'. The expiry is `expSeconds` after the whole second of `nowMs`. */
  lemma ZhipuTokenSpec(apiKey: string, expSeconds: int, nowMs: int)
    ensures var t := GenerateZhipuToken(apiKey, expSeconds, nowMs);
      && '.' !in t.claims.apiKey
      && (t.secret.None? <==> '.' !in apiKey)
      && (t.secret.None? ==> t.claims.apiKey == apiKey)
      && (t.secret.Some? ==>
            '.' !in t.secret.value && SecondSegmentFollows(apiKey, '.', t.claims.apiKey, t.secret.value))
      && (t.claims.exp - expSeconds) * 1000 <= nowMs < (t.claims.exp - expSeconds + 1) * 1000
      && t.claims.timestamp == nowMs
  {
    FirstTwoSegments(apiKey, '.');
  }
}
