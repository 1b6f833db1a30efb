/**
 * The three authorisation handlers. Each signals success for its requirement when its
 * condition holds and otherwise stays silent, which the framework reads as a denial.
 */
module AuthorisationHandlers {
  import opened Claims
  import opened AuthorisationService
  import Int32Text
  import Dto
  import Domain
  import Numeric

  /** The requirements the policies name; each is handled by the handler of the same name. */
  datatype Requirement = CanReadUser | CanUpdateUser | CanReadUsersHome

  /** HandleRequirementAsync of the handler for the requirement: whether it calls Succeed. */
  function Succeeds(requirement: Requirement, claims: seq<Claim>, request: Request): (r: bool)
    ensures IsAdmin(claims) ==> r
    ensures requirement == CanReadUsersHome ==> (r <==> IsAdmin(claims) || IsUser(claims))
    ensures requirement != CanReadUsersHome ==> (r <==> IsAdmin(claims) || IsOwner(claims, request))
  {
    match requirement
    case CanReadUser | CanUpdateUser =>
      if IsAdmin(claims) then true
      else if IsOwner(claims, request) then true
      else false
    case CanReadUsersHome =>
      if IsAdmin(claims) then true
      else if IsUser(claims) then true
      else false
  }

  /** Reading the users' home page depends on the roles alone, not on the request. */
  lemma UsersHomeIgnoresRequest(claims: seq<Claim>, request1: Request, request2: Request)
    ensures Succeeds(CanReadUsersHome, claims, request1) == Succeeds(CanReadUsersHome, claims, request2)
  {
  }

  /** For a user's principal: reading or updating a user succeeds exactly for an administrator or
      for a request under /users naming the user's own id. */
  lemma UserRecordAccess(claims: seq<Claim>, user: Dto.DalUser, requirement: Requirement, request: Request)
    requires IsPrincipalFor(claims, user)
    requires requirement != CanReadUsersHome
    ensures Succeeds(requirement, claims, request) <==>
      || user.role == Domain.Role.Admin.Name()
      || (&& StartsWithSegments(request.path, UsersSegment)
          && IdRouteValue in request.routeValues
          && request.routeValues[IdRouteValue] == Int32Text.FormatInt(user.id))
  {
    TokenRoles(claims, user, AdminRole);
    TokenOwnsOwnRecord(claims, user, request);
  }

  /** For a user's principal: the users' home page is open exactly to the roles Admin and User,
      so a user with role Everyone is refused. */
  lemma UsersHomeAccess(claims: seq<Claim>, user: Dto.DalUser, request: Request)
    requires IsPrincipalFor(claims, user)
    ensures Succeeds(CanReadUsersHome, claims, request) <==>
      user.role == Domain.Role.Admin.Name() || user.role == Domain.Role.User.Name()
  {
    TokenRoles(claims, user, AdminRole);
    TokenRoles(claims, user, UserRole);
  }

  /** A user whose role is Everyone may still update their own favourites. */
  lemma EveryoneUpdatesOwnFavourites(claims: seq<Claim>, user: Dto.DalUser, venueId: string)
    requires IsPrincipalFor(claims, user)
    requires user.role == Domain.Role.Everyone.Name()
    ensures var id := Int32Text.FormatInt(user.id);
      Succeeds(CanUpdateUser, claims,
               Request("/users/" + id + "/favourites/" + venueId, map[IdRouteValue := id, "venueId" := venueId]))
  {
    var id := Int32Text.FormatInt(user.id);
    var path := "/users/" + id + "/favourites/" + venueId;
    assert path[..|UsersSegment|] == UsersSegment && path[|UsersSegment|] == '/';
    UserRecordAccess(claims, user, CanUpdateUser,
                     Request(path, map[IdRouteValue := id, "venueId" := venueId]));
  }

  /** A user who is not an administrator cannot read another user's record. */
  lemma UserCannotReadOthers(claims: seq<Claim>, user: Dto.DalUser, otherId: Numeric.int32)
    requires IsPrincipalFor(claims, user)
    requires user.role != Domain.Role.Admin.Name()
    requires otherId != user.id
    ensures var id := Int32Text.FormatInt(otherId);
      !Succeeds(CanReadUser, claims, Request("/users/" + id, map[IdRouteValue := id]))
  {
    var id := Int32Text.FormatInt(otherId);
    if id == Int32Text.FormatInt(user.id) {
      Int32Text.FormatIntInjective(otherId, user.id);
    }
    UserRecordAccess(claims, user, CanReadUser, Request("/users/" + id, map[IdRouteValue := id]));
  }
}
