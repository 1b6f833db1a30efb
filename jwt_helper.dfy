/**
 * JwtHelper.GetJwtToken: builds an unsigned JWT security token from a user name, a signing
 * key, an issuer, an audience, a lifetime and extra claims. Times are DateTime ticks
 * (100 ns units since 0001-01-01); the current time and the fresh GUID are parameters.
 */
module JwtHelper {
  import opened Wrappers
  import opened Numeric
  import opened Claims
  import Text

  const TicksPerSecond: int := 10_000_000
  const TicksPerMinute: int := 60 * TicksPerSecond
  /** DateTime.UnixEpoch, 1970-01-01T00:00:00Z, in ticks. */
  const UnixEpochTicks: int := 621_355_968_000_000_000
  /** DateTime.MaxValue in ticks. */
  const MaxTicks: int := 3_155_378_975_999_999_999

  /** A DateTime: a tick count between DateTime.MinValue and DateTime.MaxValue. */
  type DateTimeTicks = t: int | 0 <= t <= MaxTicks

  /** SecurityAlgorithms.HmacSha256. */
  const HmacSha256: string := "HS256"

  /** The token before it is serialised: its header algorithm and key, and its payload. */
  datatype JwtSecurityToken = JwtSecurityToken(
    issuer: string,
    audience: string,
    claims: seq<Claim>,
    exp: nat,               // the "exp" claim: seconds since the Unix epoch
    algorithm: string,
    key: seq<byte>)

  datatype TokenError =
    | EmptySigningKey       // SymmetricSecurityKey refuses a zero-length key
    | DateTimeOutOfRange    // DateTime.Add leaves the representable range

  /** EpochTime.GetIntDate: whole seconds from the Unix epoch, rounded down, and 0 for instants not after it. */
  function IntDate(ticks: DateTimeTicks): (r: nat)
    ensures ticks <= UnixEpochTicks ==> r == 0
    ensures ticks > UnixEpochTicks ==>
      UnixEpochTicks + r * TicksPerSecond <= ticks < UnixEpochTicks + (r + 1) * TicksPerSecond
  {
    if ticks <= UnixEpochTicks then 0 else (ticks - UnixEpochTicks) / TicksPerSecond
  }

  /** EpochTime.DateTime: the instant a number of seconds after the Unix epoch, clamped to
      the epoch from below and to DateTime.MaxValue from above. */
  function EpochDateTime(seconds: int): (r: DateTimeTicks)
    ensures seconds <= 0 ==> r == UnixEpochTicks
    ensures 0 < seconds && UnixEpochTicks + seconds * TicksPerSecond <= MaxTicks ==>
      r == UnixEpochTicks + seconds * TicksPerSecond
    ensures UnixEpochTicks + seconds * TicksPerSecond > MaxTicks ==> r == MaxTicks
  {
    if seconds <= 0 then UnixEpochTicks
    else if UnixEpochTicks + seconds * TicksPerSecond > MaxTicks then MaxTicks
    else UnixEpochTicks + seconds * TicksPerSecond
  }

  /** JwtSecurityToken.ValidTo: the "exp" claim read back as a DateTime. */
  function ValidTo(token: JwtSecurityToken): DateTimeTicks
  {
    EpochDateTime(token.exp)
  }

  /**
   * GetJwtToken: the claims are "sub" (the user name) and "jti" (the fresh GUID), followed
   * by the additional claims when they are given; the key is the UTF-8 encoding of the
   * signing key, the algorithm HMAC-SHA256 and the expiry `now + expiration`.
   */
  function GetJwtToken(username: string, signingKey: string, issuer: string, audience: string,
                       expiration: int, additionalClaims: Option<seq<Claim>>,
                       now: DateTimeTicks, jti: string): (r: Result<JwtSecurityToken, TokenError>)
    ensures r == Failure(EmptySigningKey) <==> signingKey == []
    ensures r == Failure(DateTimeOutOfRange) <==>
      signingKey != [] && !(0 <= now + expiration <= MaxTicks)
    ensures r.Success? ==>
      && |r.value.claims| >= 2
      && r.value.claims[0] == Claim(SubClaimType, username)
      && r.value.claims[1] == Claim(JtiClaimType, jti)
      && r.value.claims[2..] == (if additionalClaims.Some? then additionalClaims.value else [])
      && r.value.issuer == issuer && r.value.audience == audience
      && r.value.algorithm == HmacSha256
      && r.value.key == Text.Utf8Encode(signingKey)
  {
    var claims := [Claim(SubClaimType, username), Claim(JtiClaimType, jti)]
                  + (if additionalClaims.Some? then additionalClaims.value else []);
    var key := Text.Utf8Encode(signingKey);
    if key == [] then Failure(EmptySigningKey)
    else if !(0 <= now + expiration <= MaxTicks) then Failure(DateTimeOutOfRange)
    else Success(JwtSecurityToken(issuer, audience, claims, IntDate(now + expiration), HmacSha256, key))
  }

  /** The token expires at the whole second at or just before the requested instant: ValidTo
      is that instant truncated to seconds, and never before the Unix epoch. */
  lemma ValidToTruncatesExpiry(username: string, signingKey: string, issuer: string, audience: string,
                               expiration: int, additionalClaims: Option<seq<Claim>>,
                               now: DateTimeTicks, jti: string)
    requires GetJwtToken(username, signingKey, issuer, audience, expiration, additionalClaims, now, jti).Success?
    ensures var v := ValidTo(GetJwtToken(username, signingKey, issuer, audience, expiration, additionalClaims, now, jti).value);
      && (now + expiration <= UnixEpochTicks ==> v == UnixEpochTicks)
      && (now + expiration > UnixEpochTicks ==>
            v <= now + expiration < v + TicksPerSecond && (v - UnixEpochTicks) % TicksPerSecond == 0)
  {
    var t := GetJwtToken(username, signingKey, issuer, audience, expiration, additionalClaims, now, jti).value;
    var e := now + expiration;
    assert t.exp == IntDate(e);
    if e > UnixEpochTicks {
      var s := IntDate(e);
      assert UnixEpochTicks + s * TicksPerSecond <= e < UnixEpochTicks + (s + 1) * TicksPerSecond;
      if s > 0 {
        assert ValidTo(t) == UnixEpochTicks + s * TicksPerSecond;
        assert (s * TicksPerSecond) % TicksPerSecond == 0;
      }
    }
  }

  /** Two tokens built with different GUIDs differ: the "jti" claim makes every token unique. */
  lemma DistinctJtiDistinctTokens(username: string, signingKey: string, issuer: string, audience: string,
                                  expiration: int, additionalClaims: Option<seq<Claim>>,
                                  now: DateTimeTicks, jti1: string, jti2: string)
    requires jti1 != jti2
    requires GetJwtToken(username, signingKey, issuer, audience, expiration, additionalClaims, now, jti1).Success?
    ensures GetJwtToken(username, signingKey, issuer, audience, expiration, additionalClaims, now, jti1)
         != GetJwtToken(username, signingKey, issuer, audience, expiration, additionalClaims, now, jti2)
  {
    var t1 := GetJwtToken(username, signingKey, issuer, audience, expiration, additionalClaims, now, jti1);
    var t2 := GetJwtToken(username, signingKey, issuer, audience, expiration, additionalClaims, now, jti2);
    assert t2.Success?;
    assert t1.value.claims[1] != t2.value.claims[1];
  }
}
