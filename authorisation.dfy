/**
 * AuthorisationService: the predicates the authorisation policies are built from. A
 * principal is the list of claims of its identity; a request is its path and route values.
 */
module AuthorisationService {
  import opened Wrappers
  import opened Text
  import opened Claims
  import Int32Text
  import Dto
  import TokenService
  import JwtHelper

  /** What IsOwner reads of the HTTP context: the request path and the route values. */
  datatype Request = Request(path: string, routeValues: map<string, string>)

  const AdminRole: string := "Admin"
  const UserRole: string := "User"
  /** The path under which every resource is owned by the user whose id it carries. */
  const UsersSegment: string := "/users"
  const IdRouteValue: string := "id"

  /** PathString.StartsWithSegments: the path is the prefix, ignoring case, or the prefix
      followed by a further segment. */
  predicate StartsWithSegments(path: string, prefix: string)
  {
    |prefix| <= |path| && EqualsIgnoreCase(path[..|prefix|], prefix)
    && (|path| == |prefix| || path[|prefix|] == '/')
  }

  /** IsAdmin: the principal holds the role "Admin". */
  predicate IsAdmin(claims: seq<Claim>)
  {
    IsInRole(claims, AdminRole)
  }

  /** IsUser: the principal holds the role "User". */
  predicate IsUser(claims: seq<Claim>)
  {
    IsInRole(claims, UserRole)
  }

  /**
   * IsOwner: the request is under /users, it names a non-empty route id, the principal has a
   * non-empty first "id" claim, and the two are the same string. Anything missing denies.
   */
  function IsOwner(claims: seq<Claim>, request: Request): (r: bool)
    ensures r <==>
      && StartsWithSegments(request.path, UsersSegment)
      && IdRouteValue in request.routeValues && request.routeValues[IdRouteValue] != []
      && FindFirst(claims, IdClaimType).Some?
      && FindFirst(claims, IdClaimType).value.value == request.routeValues[IdRouteValue]
  {
    if !StartsWithSegments(request.path, UsersSegment) then false
    else
      var resourceId := if IdRouteValue in request.routeValues then Some(request.routeValues[IdRouteValue]) else None;
      if IsNullOrEmpty(resourceId) then false
      else
        var idClaim := FindFirst(claims, IdClaimType);
        if idClaim.None? then false
        else
          var userId := idClaim.value.value;
          if userId == [] then false
          else if userId != resourceId.value then false
          else true
  }

  const IdClaimType: string := TokenService.IdClaimType

  /** The payload claims of a token issued for a user, in the order TokenService writes them. */
  predicate IsTokenFor(claims: seq<Claim>, user: Dto.DalUser)
  {
    && |claims| == 6
    && claims[0] == Claim(SubClaimType, user.username)
    && claims[1].claimType == JtiClaimType
    && claims[2..] == TokenService.UserClaims(user)
  }

  /** Every token TokenService builds for a user carries that user's claims. */
  lemma IssuedTokenIsFor(settings: TokenService.TokenValidationSettings, user: Dto.DalUser,
                         now: JwtHelper.DateTimeTicks, jti: string)
    requires TokenService.IsParsed(settings)
    requires TokenService.BuildToken(settings, user, now, jti).Success?
    ensures IsTokenFor(TokenService.BuildToken(settings, user, now, jti).value.claims, user)
  {
    var claims := TokenService.BuildToken(settings, user, now, jti).value.claims;
    assert claims == [Claim(SubClaimType, user.username), Claim(JtiClaimType, jti)] + TokenService.UserClaims(user);
  }

  /**
   * The claims of the principal JwtBearer authentication builds from a token issued for a user,
   * as far as the policies read them: the user's id claim and role claim are there, and no other
   * claim has the id type or the role type, ignoring case. The position of the claims and the
   * claims of other types do not matter.
   */
  predicate IsPrincipalFor(claims: seq<Claim>, user: Dto.DalUser)
  {
    && Claim(IdClaimType, Int32Text.FormatInt(user.id)) in claims
    && Claim(RoleClaimType, user.role) in claims
    && (forall c :: c in claims && HasType(c, IdClaimType) ==> c == Claim(IdClaimType, Int32Text.FormatInt(user.id)))
    && (forall c :: c in claims && HasType(c, RoleClaimType) ==> c == Claim(RoleClaimType, user.role))
  }

  /** ClaimTypes.NameIdentifier, the type the default inbound claim map gives "sub". */
  const NameIdentifierClaimType: string := "http://schemas.xmlsoap.org/ws/2005/05/identity/claims/nameidentifier"
  /** The registered claims of sections 4.1.1, 4.1.3 and 4.1.4 of RFC 7519 the payload also holds. */
  const IssClaimType: string := "iss"
  const AudClaimType: string := "aud"
  const ExpClaimType: string := "exp"

  /** The default inbound claim-type map of the token handler, for the claim types issued tokens use. */
  function InboundClaimType(claimType: string): string
  {
    if claimType == SubClaimType then NameIdentifierClaimType else claimType
  }

  /**
   * The claims of the principal the JwtBearer handler validates a token into: the payload's
   * claims with their types mapped inbound, and the issuer, audience and expiry claims.
   */
  function ValidatedClaims(token: JwtHelper.JwtSecurityToken): (r: seq<Claim>)
    ensures |r| == |token.claims| + 3
    ensures forall i :: 0 <= i < |token.claims| ==>
      r[i] == Claim(InboundClaimType(token.claims[i].claimType), token.claims[i].value)
    ensures r[|token.claims|..] == [Claim(ExpClaimType, Int32Text.FormatInt(token.exp)),
                                    Claim(IssClaimType, token.issuer), Claim(AudClaimType, token.audience)]
  {
    seq(|token.claims|, i requires 0 <= i < |token.claims| =>
          Claim(InboundClaimType(token.claims[i].claimType), token.claims[i].value))
    + [Claim(ExpClaimType, Int32Text.FormatInt(token.exp)), Claim(IssClaimType, token.issuer),
       Claim(AudClaimType, token.audience)]
  }

  /** The principal validated from a token TokenService built for a user is that user's
      principal: the role and id claims survive the inbound mapping and nothing else takes
      their types. */
  lemma ValidatedPrincipalIsFor(settings: TokenService.TokenValidationSettings, user: Dto.DalUser,
                                now: JwtHelper.DateTimeTicks, jti: string)
    requires TokenService.IsParsed(settings)
    requires TokenService.BuildToken(settings, user, now, jti).Success?
    ensures IsPrincipalFor(ValidatedClaims(TokenService.BuildToken(settings, user, now, jti).value), user)
  {
    var token := TokenService.BuildToken(settings, user, now, jti).value;
    IssuedTokenIsFor(settings, user, now, jti);
    var idc := Claim(IdClaimType, Int32Text.FormatInt(user.id));
    var rc := Claim(RoleClaimType, user.role);
    var cs := ValidatedClaims(token);
    assert cs[3] == idc && cs[5] == rc;
    forall c | c in cs
      ensures HasType(c, IdClaimType) ==> c == idc
      ensures HasType(c, RoleClaimType) ==> c == rc
    {
      var i :| 0 <= i < |cs| && cs[i] == c;
      if i != 3 && i != 5 {
        OtherValidatedTypes(token, user, i);
      }
    }
  }

  /** Apart from positions 3 and 5, no validated claim's type has the length of the id type or
      of the role type. */
  lemma OtherValidatedTypes(token: JwtHelper.JwtSecurityToken, user: Dto.DalUser, i: int)
    requires IsTokenFor(token.claims, user)
    requires 0 <= i < 9 && i != 3 && i != 5
    ensures |ValidatedClaims(token)[i].claimType| != |IdClaimType|
    ensures |ValidatedClaims(token)[i].claimType| != |RoleClaimType|
  {
    var cs := ValidatedClaims(token);
    var t := cs[i].claimType;
    if i == 0 {
      assert t == NameIdentifierClaimType;
    } else if i == 1 {
      assert t == JtiClaimType;
    } else if i == 2 {
      assert token.claims[2] == token.claims[2..][0];
      assert t == TokenService.UsernameClaimType;
    } else if i == 4 {
      assert token.claims[4] == token.claims[2..][2];
      assert t == TokenService.DisplayNameClaimType;
    } else {
      assert t in [ExpClaimType, IssClaimType, AudClaimType];
    }
  }

  /** A user's principal holds exactly one role: the user's. */
  lemma TokenRoles(claims: seq<Claim>, user: Dto.DalUser, role: string)
    requires IsPrincipalFor(claims, user)
    ensures IsInRole(claims, role) <==> role == user.role
  {
    var rc := Claim(RoleClaimType, user.role);
    var k :| 0 <= k < |claims| && claims[k] == rc;
    EqualsIgnoreCaseEquivalence(RoleClaimType, RoleClaimType, RoleClaimType);
    assert HasType(claims[k], RoleClaimType);
    if IsInRole(claims, role) {
      var i :| 0 <= i < |claims| && HasType(claims[i], RoleClaimType) && claims[i].value == role;
      assert claims[i] in claims;
    }
  }

  /** A user's principal owns exactly the resources under /users whose route id is the user's
      id written in decimal. */
  lemma TokenOwnsOwnRecord(claims: seq<Claim>, user: Dto.DalUser, request: Request)
    requires IsPrincipalFor(claims, user)
    ensures IsOwner(claims, request) <==>
      && StartsWithSegments(request.path, UsersSegment)
      && IdRouteValue in request.routeValues
      && request.routeValues[IdRouteValue] == Int32Text.FormatInt(user.id)
  {
    var idc := Claim(IdClaimType, Int32Text.FormatInt(user.id));
    var k :| 0 <= k < |claims| && claims[k] == idc;
    EqualsIgnoreCaseEquivalence(IdClaimType, IdClaimType, IdClaimType);
    assert HasType(claims[k], IdClaimType);
    var first := FindFirst(claims, IdClaimType);
    var i :| 0 <= i < |claims| && claims[i] == first.value && HasType(claims[i], IdClaimType);
    assert claims[i] in claims;
    assert first == Some(idc);
  }

  /** Ownership compares strings, not numbers: a route id with a leading zero names the same
      number as the user's id but is not owned by the user. */
  lemma LeadingZeroIdNotOwned(claims: seq<Claim>, user: Dto.DalUser, request: Request)
    requires IsPrincipalFor(claims, user)
    requires user.id >= 0
    requires IdRouteValue in request.routeValues
    requires request.routeValues[IdRouteValue] == "0" + Int32Text.FormatInt(user.id)
    ensures Int32Text.ParseInt32(request.routeValues[IdRouteValue]) == Some(user.id)
    ensures !IsOwner(claims, request)
  {
    Int32Text.LeadingZeroParses(user.id);
    TokenOwnsOwnRecord(claims, user, request);
  }

  /** Ownership by example: the holder of id claim "42" owns /users/42/favourites and not
      /users/43/favourites. */
  lemma OwnershipExample()
    ensures IsOwner([Claim(IdClaimType, "42")], Request("/users/42/favourites", map[IdRouteValue := "42"]))
    ensures !IsOwner([Claim(IdClaimType, "42")], Request("/users/43/favourites", map[IdRouteValue := "43"]))
  {
    var path42, path43 := "/users/42/favourites", "/users/43/favourites";
    assert path42[..|UsersSegment|] == UsersSegment && path42[|UsersSegment|] == '/';
    assert path43[..|UsersSegment|] == UsersSegment && path43[|UsersSegment|] == '/';
    assert HasType(Claim(IdClaimType, "42"), IdClaimType);
    assert FindFirst([Claim(IdClaimType, "42")], IdClaimType) == Some(Claim(IdClaimType, "42"));
    assert "42" != "43" by { assert "42"[1] != "43"[1]; }
  }
}
