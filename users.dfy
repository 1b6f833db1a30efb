/**
 * The decisions of the Users API component: the validators that vet what a client sent, the
 * component's settings, and how each endpoint turns the data access layer's (or the
 * authentication service's) answer into an HTTP status, a message and a payload. Reading the
 * request and writing the response are not modelled; the data access calls are parameters.
 */
module Users {
  import opened Wrappers
  import opened Numeric
  import opened Text
  import Int32Text
  import opened Dto
  import opened DalConstants
  import Domain
  import DataMapper
  import InputParser
  import HashingService
  import JwtHelper
  import TokenService
  import AuthenticationService
  import Dal

  // The HTTP status codes the endpoints answer with.
  const OK: int := 200
  const Created: int := 201
  const BadRequest: int := 400
  const Unauthorized: int := 401
  const NotFound: int := 404
  const UnprocessableEntity: int := 422
  const InternalServerError: int := 500

  /** UserRegistrationSettings. */
  datatype UserRegistrationSettings = UserRegistrationSettings(minUsernameLength: int32, minPasswordLength: int32)

  predicate IsParsed(settings: UserRegistrationSettings)
  {
    settings.minUsernameLength > 0 && settings.minPasswordLength > 0
  }

  const InvalidMinUsernameLength: string := "Invalid MinUsernameLength in settings."
  const InvalidMinPasswordLength: string := "Invalid MinPasswordLength in settings."

  /** ParseSettings: both minimum lengths must be positive, the username's checked first. */
  function ParseSettings(unparsed: UserRegistrationSettings): (r: Result<UserRegistrationSettings, string>)
    ensures r == Failure(InvalidMinUsernameLength) <==> unparsed.minUsernameLength <= 0
    ensures r == Failure(InvalidMinPasswordLength) <==>
      unparsed.minUsernameLength > 0 && unparsed.minPasswordLength <= 0
    ensures r.Success? <==> IsParsed(unparsed)
    ensures r.Success? ==> r.value == unparsed
  {
    if unparsed.minUsernameLength <= 0 then Failure(InvalidMinUsernameLength)
    else if unparsed.minPasswordLength <= 0 then Failure(InvalidMinPasswordLength)
    else Success(UserRegistrationSettings(unparsed.minUsernameLength, unparsed.minPasswordLength))
  }

  /** The error listing the mandatory fields that are missing. */
  function MissingInfo(missing: seq<string>): string
  {
    "Missing needed info: " + Join(", ", missing) + "."
  }

  // ---------------------------------------------------------------------------------------
  // Registration.

  /** ApiRegisterUser: every field may be null. */
  datatype ApiRegisterUser = ApiRegisterUser(
    username: Option<string>, name: Option<string>, surname: Option<string>,
    email: Option<string>, password: Option<string>)

  const NullRegistration: string := "Missing user registration info. The request is empty (null)."
  const BadEmail: string := "Email doesn't look right."
  const ShortUsername: string := "Username must be longer. At least 3 in length."
  const ShortPassword: string := "Password must be longer. At least 8 in length."

  /** The position of a mandatory field in the order the fields are checked. */
  function RegistrationFieldRank(field: string): int
  {
    if field == "Username" then 0 else if field == "Email" then 1 else if field == "Password" then 2 else 3
  }

  /** The mandatory registration fields that are null or white space, in the order checked. */
  function MissingRegistrationFields(request: ApiRegisterUser): (r: seq<string>)
    ensures "Username" in r <==> IsNullOrWhiteSpace(request.username)
    ensures "Email" in r <==> IsNullOrWhiteSpace(request.email)
    ensures "Password" in r <==> IsNullOrWhiteSpace(request.password)
    ensures forall i :: 0 <= i < |r| ==> RegistrationFieldRank(r[i]) < 3
    ensures forall i, j :: 0 <= i < j < |r| ==> RegistrationFieldRank(r[i]) < RegistrationFieldRank(r[j])
  {
    (if IsNullOrWhiteSpace(request.username) then ["Username"] else [])
    + (if IsNullOrWhiteSpace(request.email) then ["Email"] else [])
    + (if IsNullOrWhiteSpace(request.password) then ["Password"] else [])
  }

  /** The position of a content check in the order the checks run. */
  function RegistrationCheckRank(error: string): int
  {
    if error == BadEmail then 0 else if error == ShortUsername then 1 else if error == ShortPassword then 2 else 3
  }

  /** An email address passes when it contains both '@' and '.'. */
  predicate LooksLikeEmail(email: string)
  {
    '@' in email && '.' in email
  }

  /** What registration accepts, stated independently of the order of the checks. */
  predicate IsAcceptableRegistration(settings: UserRegistrationSettings, request: Option<ApiRegisterUser>)
  {
    && request.Some?
    && !IsNullOrWhiteSpace(request.value.username)
    && !IsNullOrWhiteSpace(request.value.email)
    && !IsNullOrWhiteSpace(request.value.password)
    && LooksLikeEmail(request.value.email.value)
    && Utf16Length(request.value.username.value) >= settings.minUsernameLength as int
    && Utf16Length(request.value.password.value) >= settings.minPasswordLength as int
  }

  /** The content checks a registration with every mandatory field present goes through: the
      email shape, then the username length, then the password length, each adding its own error. */
  function ContentErrors(settings: UserRegistrationSettings, username: string, email: string, password: string)
    : (r: seq<string>)
    ensures BadEmail in r <==> !LooksLikeEmail(email)
    ensures ShortUsername in r <==> Utf16Length(username) < settings.minUsernameLength as int
    ensures ShortPassword in r <==> Utf16Length(password) < settings.minPasswordLength as int
    ensures forall i :: 0 <= i < |r| ==> RegistrationCheckRank(r[i]) < 3
    ensures forall i, j :: 0 <= i < j < |r| ==> RegistrationCheckRank(r[i]) < RegistrationCheckRank(r[j])
  {
    (if !LooksLikeEmail(email) then [BadEmail] else [])
    + (if Utf16Length(username) < settings.minUsernameLength as int then [ShortUsername] else [])
    + (if Utf16Length(password) < settings.minPasswordLength as int then [ShortPassword] else [])
  }

  /**
   * FindErrors for a registration: a null request gives one error and stops; missing mandatory
   * fields give one error listing them and stop; otherwise the content checks run.
   */
  function FindRegistrationErrors(settings: UserRegistrationSettings, request: Option<ApiRegisterUser>)
    : (r: seq<string>)
    ensures request.None? ==> r == [NullRegistration]
    ensures request.Some? && MissingRegistrationFields(request.value) != [] ==>
      r == [MissingInfo(MissingRegistrationFields(request.value))]
    ensures request.Some? && MissingRegistrationFields(request.value) == [] ==>
      r == ContentErrors(settings, request.value.username.value, request.value.email.value, request.value.password.value)
    ensures r == [] <==> IsAcceptableRegistration(settings, request)
  {
    if request.None? then [NullRegistration]
    else
      var missing := MissingRegistrationFields(request.value);
      if missing != [] then [MissingInfo(missing)]
      else
        var req := request.value;
        assert !IsNullOrWhiteSpace(req.username) && !IsNullOrWhiteSpace(req.email) && !IsNullOrWhiteSpace(req.password);
        var errors := ContentErrors(settings, req.username.value, req.email.value, req.password.value);
        assert errors == [] <==> IsAcceptableRegistration(settings, request) by {
          if errors != [] {
            assert RegistrationCheckRank(errors[0]) < 3;
          }
        }
        errors
  }

  /** With the username and password present, an email without '@' or '.' is always reported:
      as a bad email, or as missing. */
  lemma InvalidEmailIsReported(settings: UserRegistrationSettings, request: ApiRegisterUser)
    requires !IsNullOrWhiteSpace(request.username) && !IsNullOrWhiteSpace(request.password)
    requires request.email.None? || !LooksLikeEmail(request.email.value)
    ensures var errors := FindRegistrationErrors(settings, Some(request));
      || BadEmail in errors
      || errors == [MissingInfo(["Email"])]
  {
    if IsNullOrWhiteSpace(request.email) {
      assert MissingRegistrationFields(request) == ["Email"];
    }
  }

  /** What Add passes to Dal.AddUser. */
  datatype NewUser = NewUser(
    username: Option<string>, name: Option<string>, surname: Option<string>, email: Option<string>,
    passwordHash: string, role: Domain.Role, accountStatus: Domain.AccountStatus)

  const WonkyRegistration: string := "Wonky register user request received. Check the request method and body."
  const WonkyInfo: string := "Wonky info received."

  /** The registration response once the data access layer has answered. An unexpected code
      leaves the pessimistic 500 with no message in place. */
  function RegistrationResponse(dr: DalResultWithAffectedId): (r: ApiResponse<Option<ApiAffectedId>>)
    ensures r.apiStatus.statusCode == Created <==> dr.dalResult.code == AddUserOK.Code()
    ensures r.apiStatus.statusCode == UnprocessableEntity <==>
      dr.dalResult.code in {ErrorDuplicateEmail.Code(), ErrorDuplicateUsername.Code()}
    ensures r.apiStatus.statusCode in {Created, UnprocessableEntity, InternalServerError}
    ensures r.payload.Some? <==> r.apiStatus.statusCode == Created
    ensures r.payload.Some? ==> r.payload.value.value == dr.dalAffectedId.value
    ensures r.apiStatus.errors == Some([])
  {
    if dr.dalResult.code == AddUserOK.Code() then
      DataMapper.MapToApiResponse(DataMapper.MapToApiStatus(Created, Some("User registered."), Some([])),
                                  Some(DataMapper.MapToApiAffectedId(dr.dalAffectedId)))
    else if dr.dalResult.code == ErrorDuplicateEmail.Code() || dr.dalResult.code == ErrorDuplicateUsername.Code() then
      DataMapper.MapToApiResponse(DataMapper.MapToApiStatus(UnprocessableEntity, Some("User is already registered."), Some([])), None)
    else
      DataMapper.MapToApiResponse(DataMapper.MapToApiStatus(InternalServerError, None, Some([])), None)
  }

  /**
   * Add: a null request or validation errors answer 400 and store nothing. Otherwise the
   * password is hashed first and the user is handed to the data access layer with the User role
   * and the Active status; the answer follows what it returned.
   */
  method Add(settings: UserRegistrationSettings, kdf: HashingService.Kdf, rng: nat -> byte,
             request: Option<ApiRegisterUser>, addUser: NewUser -> DalResultWithAffectedId)
    returns (response: ApiResponse<Option<ApiAffectedId>>, stored: Option<NewUser>)
    ensures stored.Some? <==> IsAcceptableRegistration(settings, request)
    ensures stored.None? ==>
      && response.apiStatus.statusCode == BadRequest && response.payload.None?
      && response.apiStatus.errors == (if request.None? then None else Some(FindRegistrationErrors(settings, request)))
    ensures stored.Some? ==>
      var req := request.value;
      && stored.value.username == req.username && stored.value.name == req.name
      && stored.value.surname == req.surname && stored.value.email == req.email
      && stored.value.role == Domain.User && stored.value.accountStatus == Domain.Active
      && HashingService.VerifyHashBundle(kdf, req.password.value, stored.value.passwordHash) == Success(true)
      && response == RegistrationResponse(addUser(stored.value))
  {
    if request.None? {
      response := DataMapper.MapToApiResponse(DataMapper.MapToApiStatus(BadRequest, Some(WonkyRegistration), None), None);
      stored := None;
      return;
    }
    var errors := FindRegistrationErrors(settings, request);
    if |errors| > 0 {
      response := DataMapper.MapToApiResponse(DataMapper.MapToApiStatus(BadRequest, Some(WonkyInfo), Some(errors)), None);
      stored := None;
      return;
    }
    var req := request.value;
    var hashedPassword := HashingService.GenerateHashBundleFromValue(kdf, req.password.value, rng);
    var user := NewUser(req.username, req.name, req.surname, req.email, hashedPassword, Domain.User, Domain.Active);
    var dr := addUser(user);
    response := RegistrationResponse(dr);
    stored := Some(user);
  }

  /** A row the data access layer inserted answers 201 with its id; a duplicate email or
      username, however the SQL error reports it, answers 422. */
  lemma RegistrationFollowsInsert(execution: Dal.Execution)
    requires Dal.AddUserOutcome(execution).Some?
    ensures var r := RegistrationResponse(Dal.AddUserOutcome(execution).value);
      && (execution.Returned? ==>
            r.apiStatus.statusCode == Created && r.payload == Some(ApiAffectedId(Some(execution.scalar.value))))
      && (execution.Raised? ==> r.apiStatus.statusCode == UnprocessableEntity && r.payload.None?)
  {
  }

  // ---------------------------------------------------------------------------------------
  // Login.

  /** ApiUserLogin: both fields may be null. */
  datatype ApiUserLogin = ApiUserLogin(usernameOrEmail: Option<string>, password: Option<string>)

  const NullLogin: string := "Missing user login info. The request is empty (null)."

  /** The mandatory login fields that are null or white space, in the order checked. */
  function MissingLoginFields(request: ApiUserLogin): (r: seq<string>)
    ensures "UsernameOrEmail" in r <==> IsNullOrWhiteSpace(request.usernameOrEmail)
    ensures "Password" in r <==> IsNullOrWhiteSpace(request.password)
    ensures |r| <= 2 && (|r| == 2 ==> r == ["UsernameOrEmail", "Password"])
  {
    (if IsNullOrWhiteSpace(request.usernameOrEmail) then ["UsernameOrEmail"] else [])
    + (if IsNullOrWhiteSpace(request.password) then ["Password"] else [])
  }

  /** A login request with both fields present. */
  predicate IsCompleteLogin(request: Option<ApiUserLogin>)
  {
    request.Some? && !IsNullOrWhiteSpace(request.value.usernameOrEmail) && !IsNullOrWhiteSpace(request.value.password)
  }

  /** FindErrors for a login: at most one error, which lists every missing field. */
  function FindLoginErrors(request: Option<ApiUserLogin>): (r: seq<string>)
    ensures |r| <= 1
    ensures request.None? ==> r == [NullLogin]
    ensures request.Some? && r != [] ==> r == [MissingInfo(MissingLoginFields(request.value))]
    ensures r == [] <==> IsCompleteLogin(request)
  {
    if request.None? then [NullLogin]
    else
      var missing := MissingLoginFields(request.value);
      if missing != [] then [MissingInfo(missing)] else []
  }

  /** A login with neither field names both, in order, in its one error. */
  lemma EmptyLoginNamesBothFields()
    ensures FindLoginErrors(Some(ApiUserLogin(None, None)))
         == ["Missing needed info: " + "UsernameOrEmail" + ", " + "Password" + "."]
  {
    assert MissingLoginFields(ApiUserLogin(None, None)) == ["UsernameOrEmail", "Password"];
    JoinTwo(", ", "UsernameOrEmail", "Password");
    var prefix, u, sep, pw := "Missing needed info: ", "UsernameOrEmail", ", ", "Password";
    assert prefix + (u + sep + pw) + "." == prefix + u + sep + pw + ".";
  }

  lemma JoinTwo(sep: string, a: string, b: string)
    ensures Join(sep, [a, b]) == a + sep + b
  {
    assert [a, b][1..] == [b];
  }

  const WonkyLogin: string := "Wonky login request received. Check the request method and body."

  /**
   * Authenticate: a null or incomplete request answers 400; otherwise the authentication service
   * decides, no token answering 401 and a token 200 with that token. An exception from the
   * service propagates.
   */
  function Authenticate(kdf: HashingService.Kdf, settings: TokenService.TokenValidationSettings,
                        writeToken: JwtHelper.JwtSecurityToken -> string,
                        byEmail: map<string, DalUser>, byUsername: map<string, DalUser>,
                        request: Option<ApiUserLogin>, now: JwtHelper.DateTimeTicks, jti: string)
    : (r: Result<ApiResponse<Option<ApiSecurityToken>>, AuthenticationService.AuthenticationError>)
    requires TokenService.IsParsed(settings)
    ensures !IsCompleteLogin(request) ==>
      && r.Success? && r.value.apiStatus.statusCode == BadRequest && r.value.payload.None?
      && r.value.apiStatus.errors == (if request.None? then None else Some(FindLoginErrors(request)))
    ensures IsCompleteLogin(request) ==>
      var answer := AuthenticationService.Authenticate(kdf, settings, writeToken, byEmail, byUsername,
                                                       request.value.usernameOrEmail.value, request.value.password.value, now, jti);
      && (r.Failure? <==> answer.Failure?)
      && (r.Success? ==>
            && r.value.payload == answer.value
            && r.value.apiStatus.statusCode == (if answer.value.None? then Unauthorized else OK))
  {
    if request.None? then
      Success(DataMapper.MapToApiResponse(DataMapper.MapToApiStatus(BadRequest, Some(WonkyLogin), None), None))
    else
      var errors := FindLoginErrors(request);
      if |errors| > 0 then
        Success(DataMapper.MapToApiResponse(DataMapper.MapToApiStatus(BadRequest, Some(WonkyInfo), Some(errors)), None))
      else
        var st :- AuthenticationService.Authenticate(kdf, settings, writeToken, byEmail, byUsername,
                                                     request.value.usernameOrEmail.value, request.value.password.value, now, jti);
        if st.None? then
          Success(DataMapper.MapToApiResponse(DataMapper.MapToApiStatus(Unauthorized, Some("Authentication failed."), Some(errors)), None))
        else
          Success(DataMapper.MapToApiResponse(DataMapper.MapToApiStatus(OK, Some("Authentication succeeded."), Some(errors)), st))
  }

  /** A login answers 200 exactly when it is complete, names a stored user, carries that user's
      password and a token can be made; the token is the one made for that user. */
  lemma LoginSucceedsOnlyWithPassword(kdf: HashingService.Kdf, settings: TokenService.TokenValidationSettings,
                                      writeToken: JwtHelper.JwtSecurityToken -> string,
                                      byEmail: map<string, DalUser>, byUsername: map<string, DalUser>,
                                      request: Option<ApiUserLogin>, now: JwtHelper.DateTimeTicks, jti: string)
    requires TokenService.IsParsed(settings)
    ensures var r := Authenticate(kdf, settings, writeToken, byEmail, byUsername, request, now, jti);
      (r.Success? && r.value.apiStatus.statusCode == OK) <==>
        && IsCompleteLogin(request)
        && var u := AuthenticationService.FindUser(byEmail, byUsername, request.value.usernameOrEmail.value);
           && u.Some?
           && HashingService.VerifyHashBundle(kdf, request.value.password.value, u.value.passwordHash) == Success(true)
           && TokenService.CreateToken(settings, u.value, now, jti, writeToken).Success?
  {
    if IsCompleteLogin(request) {
      AuthenticationService.TokenOnlyForVerifiedPassword(kdf, settings, writeToken, byEmail, byUsername,
        request.value.usernameOrEmail.value, request.value.password.value, now, jti);
    }
  }

  // ---------------------------------------------------------------------------------------
  // Get by username.

  const BlankUsername: string := "Missing needed info. Username is blank or empty (null)."
  const UsernameLengthOutOfRange: string := "Username must be between 3 and 40 in length."

  /** FindErrors for a username lookup: a blank name gives one error and stops; a length outside
      [3, 40] gives one error. */
  function FindUsernameErrors(username: string): (r: seq<string>)
    ensures |r| <= 1
    ensures IsNullOrWhiteSpace(Some(username)) ==> r == [BlankUsername]
    ensures r == [] <==> !IsNullOrWhiteSpace(Some(username)) && 3 <= Utf16Length(username) <= 40
  {
    if IsNullOrWhiteSpace(Some(username)) then [BlankUsername]
    else if Utf16Length(username) < 3 || Utf16Length(username) > 40 then [UsernameLengthOutOfRange]
    else []
  }

  /** A query value of white space only is trimmed to nothing and reported blank. */
  lemma WhiteSpaceUsernameIsBlank(value: string)
    requires forall i :: 0 <= i < |value| ==> IsWhiteSpace(value[i])
    ensures FindUsernameErrors(InputParser.TryParseString(Some(value)).1) == [BlankUsername]
  {
    TrimStartAllWhite(value);
  }

  // ---------------------------------------------------------------------------------------
  // Favourites and account state.

  /** The error for a route argument that is not an integer greater than zero. */
  function ArgumentError(name: string, unparsed: Option<string>): string
  {
    "Missing an expected integer (greater than 0) argument: " + name
    + ". The value supplied was '" + unparsed.GetOr("") + "'."
  }

  /** One error per route argument that does not parse as a positive integer, id first. */
  function ArgumentErrors(unparsedId: Option<string>, unparsedVenueId: Option<string>): (r: seq<string>)
    ensures var idOk := InputParser.TryParsePositiveInt(unparsedId).0;
      var venueIdOk := InputParser.TryParsePositiveInt(unparsedVenueId).0;
      && |r| == (if idOk then 0 else 1) + (if venueIdOk then 0 else 1)
      && (!idOk ==> r[0] == ArgumentError("id", unparsedId))
      && (!venueIdOk ==> r[|r| - 1] == ArgumentError("venueId", unparsedVenueId))
  {
    (if InputParser.TryParsePositiveInt(unparsedId).0 then [] else [ArgumentError("id", unparsedId)])
    + (if InputParser.TryParsePositiveInt(unparsedVenueId).0 then [] else [ArgumentError("venueId", unparsedVenueId)])
  }

  /** A data access result code no endpoint branch expects: InvalidOperationException. */
  datatype UnexpectedCode = UnexpectedCode(operation: string, code: int)

  /** AddFavourite's answer once the data access layer has answered: added or already there is
      200, a missing user or venue is 422, anything else throws. */
  function AddFavouriteResponse(dr: DalResultWithAffectedId): (r: Result<ApiResponse<Option<ApiAffectedId>>, UnexpectedCode>)
    ensures r.Failure? <==> AddUserFavouriteResultFromCode(dr.dalResult.code).None?
    ensures r.Failure? ==> r.error == UnexpectedCode("Dal.AddUserFavourite", dr.dalResult.code)
    ensures r.Success? ==>
      && (r.value.apiStatus.statusCode == OK <==> dr.dalResult.code in {AddFavouriteOK.Code(), ErrorDuplicate.Code()})
      && (r.value.apiStatus.statusCode == UnprocessableEntity <==>
            dr.dalResult.code in {ErrorInexistentUser.Code(), ErrorInexistentVenue.Code()})
      && r.value.payload == Some(DataMapper.MapToApiAffectedId(dr.dalAffectedId))
  {
    var affected := Some(DataMapper.MapToApiAffectedId(dr.dalAffectedId));
    if dr.dalResult.code == AddFavouriteOK.Code() then
      Success(DataMapper.MapToApiResponse(DataMapper.MapToApiStatus(OK, Some("Favourite added."), Some([])), affected))
    else if dr.dalResult.code == ErrorDuplicate.Code() then
      Success(DataMapper.MapToApiResponse(DataMapper.MapToApiStatus(OK, Some("Favourite already exists."), Some([])), affected))
    else if dr.dalResult.code == ErrorInexistentUser.Code() || dr.dalResult.code == ErrorInexistentVenue.Code() then
      Success(DataMapper.MapToApiResponse(
        DataMapper.MapToApiStatus(UnprocessableEntity, Some("Cannot add favourite. User and/or venue does not exist."), Some([])),
        affected))
    else Failure(UnexpectedCode("Dal.AddUserFavourite", dr.dalResult.code))
  }

  /** AddFavourite: route arguments that are not positive integers answer 400 with one error
      each; otherwise the data access layer is asked for exactly the parsed ids. */
  function AddFavourite(unparsedId: Option<string>, unparsedVenueId: Option<string>,
                        addUserFavourite: (int32, int32) -> DalResultWithAffectedId)
    : (r: Result<ApiResponse<Option<ApiAffectedId>>, UnexpectedCode>)
    ensures ArgumentErrors(unparsedId, unparsedVenueId) != [] ==>
      && r.Success? && r.value.apiStatus.statusCode == BadRequest && r.value.payload.None?
      && r.value.apiStatus.errors == Some(ArgumentErrors(unparsedId, unparsedVenueId))
    ensures ArgumentErrors(unparsedId, unparsedVenueId) == [] ==>
      r == AddFavouriteResponse(addUserFavourite(InputParser.TryParsePositiveInt(unparsedId).1,
                                                 InputParser.TryParsePositiveInt(unparsedVenueId).1))
  {
    var errors := ArgumentErrors(unparsedId, unparsedVenueId);
    if |errors| > 0 then
      Success(DataMapper.MapToApiResponse(DataMapper.MapToApiStatus(BadRequest, Some("Cannot invoke Add favourite."), Some(errors)), None))
    else
      AddFavouriteResponse(addUserFavourite(InputParser.TryParsePositiveInt(unparsedId).1,
                                            InputParser.TryParsePositiveInt(unparsedVenueId).1))
  }

  /** RemoveFavourite's answer once the data access layer has answered: removed and not there
      are both 200; anything else throws. */
  function RemoveFavouriteResponse(dr: DalResultWithAffectedId): (r: Result<ApiResponse<Option<ApiAffectedId>>, UnexpectedCode>)
    ensures r.Failure? <==> RemoveUserFavouriteResultFromCode(dr.dalResult.code).None?
    ensures r.Failure? ==> r.error == UnexpectedCode("Dal.RemoveUserFavourite", dr.dalResult.code)
    ensures r.Success? ==>
      && r.value.apiStatus.statusCode == OK
      && r.value.payload == Some(DataMapper.MapToApiAffectedId(dr.dalAffectedId))
      && (r.value.apiStatus.message == Some("Favourite removed.") <==> dr.dalResult.code == RemoveFavouriteOK.Code())
  {
    var affected := Some(DataMapper.MapToApiAffectedId(dr.dalAffectedId));
    if dr.dalResult.code == RemoveFavouriteOK.Code() then
      Success(DataMapper.MapToApiResponse(DataMapper.MapToApiStatus(OK, Some("Favourite removed."), Some([])), affected))
    else if dr.dalResult.code == ErrorInexistent.Code() then
      Success(DataMapper.MapToApiResponse(DataMapper.MapToApiStatus(OK, Some("Favourite does not exist."), Some([])), affected))
    else Failure(UnexpectedCode("Dal.RemoveUserFavourite", dr.dalResult.code))
  }

  /** RemoveFavourite: as AddFavourite for the route arguments. */
  function RemoveFavourite(unparsedId: Option<string>, unparsedVenueId: Option<string>,
                           removeUserFavourite: (int32, int32) -> DalResultWithAffectedId)
    : (r: Result<ApiResponse<Option<ApiAffectedId>>, UnexpectedCode>)
    ensures ArgumentErrors(unparsedId, unparsedVenueId) != [] ==>
      && r.Success? && r.value.apiStatus.statusCode == BadRequest && r.value.payload.None?
      && r.value.apiStatus.errors == Some(ArgumentErrors(unparsedId, unparsedVenueId))
    ensures ArgumentErrors(unparsedId, unparsedVenueId) == [] ==>
      r == RemoveFavouriteResponse(removeUserFavourite(InputParser.TryParsePositiveInt(unparsedId).1,
                                                       InputParser.TryParsePositiveInt(unparsedVenueId).1))
  {
    var errors := ArgumentErrors(unparsedId, unparsedVenueId);
    if |errors| > 0 then
      Success(DataMapper.MapToApiResponse(DataMapper.MapToApiStatus(BadRequest, Some("Cannot invoke Remove favourite."), Some(errors)), None))
    else
      RemoveFavouriteResponse(removeUserFavourite(InputParser.TryParsePositiveInt(unparsedId).1,
                                                  InputParser.TryParsePositiveInt(unparsedVenueId).1))
  }

  /** Whatever the data access layer's classifiers return, the favourite endpoints never reach
      their unexpected-code branch. */
  lemma FavouriteCodesAreExpected(execution: Dal.Execution, favId: Dal.Scalar)
    ensures Dal.AddUserFavouriteOutcome(execution).Some? ==>
      AddFavouriteResponse(Dal.AddUserFavouriteOutcome(execution).value).Success?
    ensures Dal.RemoveUserFavouriteOutcome(favId).Some? ==>
      RemoveFavouriteResponse(Dal.RemoveUserFavouriteOutcome(favId).value).Success?
  {
  }

  /** Positive ids written in decimal reach the data access layer unchanged. */
  lemma PositiveIdsReachDal(id: int32, venueId: int32, addUserFavourite: (int32, int32) -> DalResultWithAffectedId)
    requires id > 0 && venueId > 0
    ensures AddFavourite(Some(Int32Text.FormatInt(id)), Some(Int32Text.FormatInt(venueId)), addUserFavourite)
         == AddFavouriteResponse(addUserFavourite(id, venueId))
  {
    InputParser.PositiveIntRoundTrip(id);
    InputParser.PositiveIntRoundTrip(venueId);
  }

  /** SetActiveState, behind Activate and Deactivate: a bad id answers 400; otherwise no row
      changed answers 404 and any change 200, both with the row count. */
  function SetActiveState(isActive: bool, unparsedId: Option<string>,
                          setActive: (bool, int32) -> DalAffectedRows)
    : (r: ApiResponse<Option<ApiAffectedRows>>)
    ensures !InputParser.TryParsePositiveInt(unparsedId).0 ==>
      && r.apiStatus.statusCode == BadRequest && r.payload.None?
      && r.apiStatus.errors == Some([ArgumentError("id", unparsedId)])
    ensures InputParser.TryParsePositiveInt(unparsedId).0 ==>
      var dr := setActive(isActive, InputParser.TryParsePositiveInt(unparsedId).1);
      && r.apiStatus.statusCode == (if dr.count == 0 then NotFound else OK)
      && r.payload == Some(ApiAffectedRows(dr.count))
  {
    var publicActionName := if isActive then "Activate" else "Deactivate";
    var (argsValid, id) := InputParser.TryParsePositiveInt(unparsedId);
    if !argsValid then
      DataMapper.MapToApiResponse(
        DataMapper.MapToApiStatus(BadRequest, Some("Cannot invoke " + publicActionName + " user."),
                                  Some([ArgumentError("id", unparsedId)])),
        None)
    else
      var dr := setActive(isActive, id);
      var affected := Some(DataMapper.MapToApiAffectedRows(dr));
      if dr.count == 0 then
        DataMapper.MapToApiResponse(
          DataMapper.MapToApiStatus(NotFound, Some(publicActionName + " user did nothing. Could not find user."), Some([])),
          affected)
      else
        DataMapper.MapToApiResponse(
          DataMapper.MapToApiStatus(OK, Some(publicActionName + " user succeeded."), Some([])), affected)
  }
}
