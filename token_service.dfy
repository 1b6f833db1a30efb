/**
 * TokenService: parses the token validation settings once, then issues a signed JWT for a
 * user carrying the user's name, id, display name and role as claims.
 */
module TokenService {
  import opened Wrappers
  import opened Numeric
  import opened Claims
  import opened JwtHelper
  import Text
  import Int32Text
  import Dto

  /** Lifetime used when the configured one is negative. */
  const DefaultExpireMinutes: int32 := 60
  /** The smallest HMAC key the token handler signs with, in bits. */
  const MinimumSymmetricKeySizeInBits: int := 128

  const UsernameClaimType: string := "username"
  const IdClaimType: string := "id"
  const DisplayNameClaimType: string := "displayname"

  /** TokenValidationSettings as read from configuration: any string may be missing. */
  datatype TokenValidationSettings = TokenValidationSettings(
    issuer: Option<string>,
    audience: Option<string>,
    expireMinutes: int32,
    signingKey: Option<string>)

  /** The state ParseSettings leaves the settings in. */
  predicate IsParsed(s: TokenValidationSettings)
  {
    && !Text.IsNullOrEmpty(s.audience)
    && !Text.IsNullOrEmpty(s.issuer)
    && !Text.IsNullOrEmpty(s.signingKey)
    && s.expireMinutes >= 0
  }

  const AudienceRequired: string := "TokenService: A value for Audience is required. Check configuration."
  const IssuerRequired: string := "TokenService: A value for Issuer is required. Check configuration."
  const SigningKeyRequired: string := "TokenService: A value for SigningKey is required. Check Environment."

  /**
   * ParseSettings: audience, issuer and signing key must be present and non-empty, checked
   * in that order; a negative lifetime is replaced by the default and zero is kept.
   */
  function ParseSettings(unparsed: TokenValidationSettings): (r: Result<TokenValidationSettings, string>)
    ensures r == Failure(AudienceRequired) <==> Text.IsNullOrEmpty(unparsed.audience)
    ensures r == Failure(IssuerRequired) <==>
      !Text.IsNullOrEmpty(unparsed.audience) && Text.IsNullOrEmpty(unparsed.issuer)
    ensures r == Failure(SigningKeyRequired) <==>
      !Text.IsNullOrEmpty(unparsed.audience) && !Text.IsNullOrEmpty(unparsed.issuer)
      && Text.IsNullOrEmpty(unparsed.signingKey)
    ensures r.Success? ==>
      && IsParsed(r.value)
      && r.value.audience == unparsed.audience
      && r.value.issuer == unparsed.issuer
      && r.value.signingKey == unparsed.signingKey
      && r.value.expireMinutes == (if unparsed.expireMinutes < 0 then DefaultExpireMinutes else unparsed.expireMinutes)
  {
    if Text.IsNullOrEmpty(unparsed.audience) then Failure(AudienceRequired)
    else
      var expireMinutes := if unparsed.expireMinutes < 0 then DefaultExpireMinutes else unparsed.expireMinutes;
      if Text.IsNullOrEmpty(unparsed.issuer) then Failure(IssuerRequired)
      else if Text.IsNullOrEmpty(unparsed.signingKey) then Failure(SigningKeyRequired)
      else Success(TokenValidationSettings(unparsed.issuer, unparsed.audience, expireMinutes, unparsed.signingKey))
  }

  /** Parsed settings parse to themselves, and parsing never leaves a negative lifetime. */
  lemma ParseSettingsIdempotent(unparsed: TokenValidationSettings)
    requires ParseSettings(unparsed).Success?
    ensures ParseSettings(ParseSettings(unparsed).value) == ParseSettings(unparsed)
  {
  }

  /** Settings succeed to parse exactly when the three strings are present. */
  lemma ParseSettingsSucceedsIff(unparsed: TokenValidationSettings)
    ensures ParseSettings(unparsed).Success? <==>
      !Text.IsNullOrEmpty(unparsed.audience) && !Text.IsNullOrEmpty(unparsed.issuer)
      && !Text.IsNullOrEmpty(unparsed.signingKey)
  {
  }

  /** The claims CreateToken adds for a user, in order. */
  function UserClaims(user: Dto.DalUser): (r: seq<Claim>)
    ensures |r| == 4
    ensures r[0] == Claim(UsernameClaimType, user.username) && r[1] == Claim(IdClaimType, Int32Text.FormatInt(user.id))
    ensures r[2] == Claim(DisplayNameClaimType, user.name) && r[3] == Claim(RoleClaimType, user.role)
  {
    [Claim(UsernameClaimType, user.username), Claim(IdClaimType, Int32Text.FormatInt(user.id)),
     Claim(DisplayNameClaimType, user.name), Claim(RoleClaimType, user.role)]
  }

  datatype CreateTokenError =
    | BuildFailed(cause: TokenError)   // GetJwtToken threw
    | KeyTooShort                       // the signing key is shorter than HMAC-SHA256 accepts

  /** TimeSpan.FromMinutes of a whole number of minutes, in ticks. */
  function MinutesToTicks(minutes: int): int
  {
    minutes * TicksPerMinute
  }

  /** The token CreateToken builds, before it is written out. */
  function BuildToken(settings: TokenValidationSettings, user: Dto.DalUser, now: DateTimeTicks, jti: string)
    : Result<JwtSecurityToken, TokenError>
    requires IsParsed(settings)
  {
    GetJwtToken(user.username, settings.signingKey.value, settings.issuer.value, settings.audience.value,
                MinutesToTicks(settings.expireMinutes as int), Some(UserClaims(user)), now, jti)
  }

  /**
   * CreateToken: builds the token and serialises it with `writeToken` (the token handler's
   * compact JWS serialisation); the expiry reported is the token's ValidTo.
   */
  function CreateToken(settings: TokenValidationSettings, user: Dto.DalUser, now: DateTimeTicks, jti: string,
                       writeToken: JwtSecurityToken -> string): (r: Result<Dto.ApiSecurityToken, CreateTokenError>)
    requires IsParsed(settings)
    ensures r == Failure(BuildFailed(DateTimeOutOfRange)) <==>
      now + settings.expireMinutes as int * TicksPerMinute > MaxTicks
    ensures r == Failure(KeyTooShort) <==>
      now + settings.expireMinutes as int * TicksPerMinute <= MaxTicks
      && |Text.Utf8Encode(settings.signingKey.value)| * 8 < MinimumSymmetricKeySizeInBits
    ensures r.Success? ==>
      && BuildToken(settings, user, now, jti).Success?
      && r.value == Dto.ApiSecurityToken(writeToken(BuildToken(settings, user, now, jti).value),
                                          ValidTo(BuildToken(settings, user, now, jti).value))
  {
    var token := BuildToken(settings, user, now, jti);
    if token.Failure? then Failure(BuildFailed(token.error))
    else if |token.value.key| * 8 < MinimumSymmetricKeySizeInBits then Failure(KeyTooShort)
    else Success(Dto.ApiSecurityToken(writeToken(token.value), ValidTo(token.value)))
  }

  /** The token names its user: "sub" and "username" carry the user name, "id" the user's id
      written so that it parses back, and the role claim the user's role. */
  lemma TokenIdentifiesUser(settings: TokenValidationSettings, user: Dto.DalUser, now: DateTimeTicks, jti: string)
    requires IsParsed(settings)
    requires BuildToken(settings, user, now, jti).Success?
    ensures var claims := BuildToken(settings, user, now, jti).value.claims;
      && FindFirst(claims, SubClaimType) == Some(Claim(SubClaimType, user.username))
      && FindFirst(claims, IdClaimType) == Some(Claim(IdClaimType, Int32Text.FormatInt(user.id)))
      && Int32Text.ParseInt32(FindFirst(claims, IdClaimType).value.value) == Some(user.id)
      && FindFirst(claims, UsernameClaimType) == Some(Claim(UsernameClaimType, user.username))
      && IsInRole(claims, user.role)
  {
    var claims := BuildToken(settings, user, now, jti).value.claims;
    assert claims == [Claim(SubClaimType, user.username), Claim(JtiClaimType, jti)] + UserClaims(user);
    UserTokenClaims(claims, user, jti);
    Int32Text.FormatParseRoundTrip(user.id);
  }

  /** Where each claim CreateToken asks for sits in the token's claim list. */
  lemma UserTokenClaims(claims: seq<Claim>, user: Dto.DalUser, jti: string)
    requires claims == [Claim(SubClaimType, user.username), Claim(JtiClaimType, jti)] + UserClaims(user)
    ensures FindFirst(claims, SubClaimType) == Some(Claim(SubClaimType, user.username))
    ensures FindFirst(claims, IdClaimType) == Some(Claim(IdClaimType, Int32Text.FormatInt(user.id)))
    ensures FindFirst(claims, UsernameClaimType) == Some(Claim(UsernameClaimType, user.username))
    ensures IsInRole(claims, user.role)
  {
    var sub, jc := claims[0], claims[1];
    var un, ic, dn, rc := claims[2], claims[3], claims[4], claims[5];
    assert claims == [sub, jc, un, ic, dn, rc];
    Text.EqualsIgnoreCaseLength(SubClaimType, IdClaimType);
    Text.EqualsIgnoreCaseLength(JtiClaimType, IdClaimType);
    Text.EqualsIgnoreCaseLength(UsernameClaimType, IdClaimType);
    Text.EqualsIgnoreCaseLength(SubClaimType, UsernameClaimType);
    Text.EqualsIgnoreCaseLength(JtiClaimType, UsernameClaimType);
    FirstOfSix(sub, jc, un, ic, dn, rc, SubClaimType, 0);
    FirstOfSix(sub, jc, un, ic, dn, rc, UsernameClaimType, 2);
    FirstOfSix(sub, jc, un, ic, dn, rc, IdClaimType, 3);
    assert claims[5] == rc && HasType(rc, RoleClaimType);
  }

  /** In a six-claim list, the claim at position k is found first when none before it has its type. */
  lemma FirstOfSix(c0: Claim, c1: Claim, c2: Claim, c3: Claim, c4: Claim, c5: Claim, claimType: string, k: nat)
    requires k < 6
    requires HasType([c0, c1, c2, c3, c4, c5][k], claimType)
    requires forall j :: 0 <= j < k ==> !HasType([c0, c1, c2, c3, c4, c5][j], claimType)
    ensures FindFirst([c0, c1, c2, c3, c4, c5], claimType) == Some([c0, c1, c2, c3, c4, c5][k])
  {
    var s := [c0, c1, c2, c3, c4, c5];
    assert s[..k] + [s[k]] + s[k + 1..] == s;
    FindFirstSkipsOtherTypes(s[..k], s[k], s[k + 1..], claimType);
  }

  /** DateTime truncated to the whole second, as a DateTime built from its calendar fields. */
  function TruncateToSecond(t: DateTimeTicks): DateTimeTicks
  {
    t - t % TicksPerSecond
  }

  /** The reported expiry is the issue time truncated to the second plus the configured
      number of minutes, for every issue time from the Unix epoch on. */
  lemma CreateTokenExpires(settings: TokenValidationSettings, user: Dto.DalUser, now: DateTimeTicks, jti: string,
                           writeToken: JwtSecurityToken -> string)
    requires IsParsed(settings)
    requires now >= UnixEpochTicks
    requires CreateToken(settings, user, now, jti, writeToken).Success?
    ensures CreateToken(settings, user, now, jti, writeToken).value.expires
         == TruncateToSecond(now) + settings.expireMinutes as int * TicksPerMinute
  {
    var m := settings.expireMinutes as int;
    var e := now + m * TicksPerMinute;
    var token := BuildToken(settings, user, now, jti).value;
    assert token.exp == IntDate(e);
    ShiftBySeconds(now, 60 * m);
    assert e == now + (60 * m) * TicksPerSecond;
    if e > UnixEpochTicks {
      ValidToTruncatesExpiry(user.username, settings.signingKey.value, settings.issuer.value, settings.audience.value,
                             MinutesToTicks(m), Some(UserClaims(user)), now, jti);
      TruncationIsUnique(e, ValidTo(token));
    } else {
      assert now == UnixEpochTicks && m == 0;
    }
  }

  /** Adding whole seconds keeps the sub-second part. */
  lemma ShiftBySeconds(t: int, k: nat)
    ensures (t + k * TicksPerSecond) % TicksPerSecond == t % TicksPerSecond
  {
    var q := t / TicksPerSecond;
    var r := t % TicksPerSecond;
    assert t + k * TicksPerSecond == (q + k) * TicksPerSecond + r;
  }

  /** The only whole second at or before e and less than a second before it is
      e truncated to the second. */
  lemma TruncationIsUnique(e: int, v: int)
    requires v <= e < v + TicksPerSecond
    requires (v - UnixEpochTicks) % TicksPerSecond == 0
    ensures v == e - e % TicksPerSecond
  {
    var k := (v - UnixEpochTicks) / TicksPerSecond;
    assert v == (k + 62135596800) * TicksPerSecond;
    var d := e - v;
    assert 0 <= d < TicksPerSecond;
    assert e == (k + 62135596800) * TicksPerSecond + d;
  }
}
