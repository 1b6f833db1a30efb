# Kebapi credentials, tokens and access control in Dafny

This project models the decision-making core of Kebapi, a small ASP.NET web API for users,
venues and favourites:

- **Hash bundles** (`hashing_service.dfy`): a password is stored as
  `Algorithm.Iterations.Salt.Hash`, with a 24-byte random salt and a 32-byte PBKDF2 key
  (section 5.2 of RFC 8018, HMAC-SHA512, 10000 iterations). The salt and the key are written
  in Base64 (section 4 of RFC 4648, `base64.dfy`). Verification parses the bundle back. It
  re-derives the key with the bundle's own salt and iteration count. It then compares the two
  keys with a loop that never exits early (`UnoptimisedEqual`, a method over `array?<byte>`).
- **Token issuance** (`token_service.dfy`, `jwt_helper.dfy`): the settings are validated once.
  The claim list is `sub`, `jti`, `username`, `id`, `displayname`, role, in that order. `sub`
  and `jti` are the registered claims of sections 4.1.2 and 4.1.7 of RFC 7519. The token is
  keyed for HMAC-SHA256 ("HS256", section 3.2 of RFC 7518) with the UTF-8 bytes of the signing
  key. Its `exp` claim is `now + ExpireMinutes` cut to whole seconds since the Unix epoch (see Left out).
- **Authentication** (`authentication_service.dfy`): an identifier containing `@` is looked up
  by email first, any other identifier by username first. The other lookup is used only when
  the first one finds nobody. The password is then verified and a token is issued.
- **Authorisation** (`authorisation.dfy`, `authorisation_handlers.dfy`): `IsAdmin`, `IsUser`
  and `IsOwner` over the claims of the caller and the request's path and route values. The
  three requirement handlers combine them: Admin or owner, Admin or owner, Admin or User.
- **Validators, normalisers and outcome maps** (`input_parser.dfy`, `dal.dfy`,
  `dal_constants.dfy`, `users.dfy`, `data_mapper.dfy`, `domain_user.dfy`): paging clamps,
  integer and string parsing, settings validation, SQL-error classification, request
  validators and the result-code-to-HTTP-status decisions of the Users endpoints.

Supporting modules model the .NET behaviour the core relies on:

- `text.dfy`: `Trim`, `Split`, `Join`, `Contains`, `IsNullOrWhiteSpace`, UTF-16 length, UTF-8
  encoding and case-insensitive comparison.
- `int32_text.dfy`: `Int32.ToString` and `Int32.Parse`.
- `numeric.dfy`: `Int32`, `Byte` and `Math.Abs` with its overflow.
- `claims.dfy`: claims, `FindFirst` and `IsInRole`.
- `dto.dfy`: the data transfer records.
- `wrappers.dfy`: `Option` for null and `Result` for exceptions.

The model takes the following as parameters:

- The key derivation (`Kdf`).
- The random source (`rng`).
- The clock (`now`, in `DateTime` ticks).
- The fresh GUID (`jti`).
- The compact JWT serialisation (`writeToken`).
- The database calls the endpoints make.

An exception in the source is a `Failure` in the model, and a null reference is `None`.

Some details of the code that the model keeps:

- `UnoptimisedEqual` returns at once on a null array or a length mismatch. It does not
  compare over the shorter length first.
- `IsOwner` takes the resource id from the route value `id`, not by parsing the path. The
  path only has to start with the segment `/users`.
- The reported expiry is the token's `ValidTo`, which is read back from the `exp` claim. That
  claim holds whole seconds, so `ValidTo` is `now + minutes` cut to the second
  (`TokenService.CreateTokenExpires`), not exactly `now + minutes`. The model takes the cut as a
  floor. The library converts through a double, which can round a time just before a whole
  second up to it (see Left out).
- The policies read the principal that JwtBearer authentication (`Kebapi/Startup.cs:92-111`)
  builds from a validated token, not the payload as written. The inbound claim map renames
  `sub`, and the issuer, audience and expiry become claims. The access lemmas assume only what
  the policies read: the user's `id` and role claims are present, and no other claim has
  either type.

## Model

| member | source | states |
|---|---|---|
| `HashingService.UnoptimisedEqual` | Kebapi/Services/HashingService/HashingService.cs:99-115 | Two nulls are equal. One null is unequal, and so are arrays of different lengths. Otherwise the result is true iff the contents are equal, and every index is compared: the number of comparisons equals the length. |
| `HashingService.IsValueInHashBundle` | Kebapi/Services/HashingService/HashingService.cs:60-80 | Parses the fields, derives the key and compares with `UnoptimisedEqual`. The result is exactly the specification `VerifyHashBundle`, failures included, in the source's order of evaluation. |
| `HashingService.GenerateHashBundleFromValue` | Kebapi/Services/HashingService/HashingService.cs:33-48 | The 24-byte salt array is filled from the random source. The bundle joins the four generated fields with `.` and splits back into exactly them. The bundle verifies against the value it was made from. |
| `HashingService.GeneratedBundleVerifies` | Kebapi/Services/HashingService/HashingService.cs:33-80 | Round trip: a generated bundle splits into its four fields, and verifying the value it was made from answers true. |
| `HashingService.GeneratedLayout` | Kebapi/Services/HashingService/HashingService.cs:43-47 | A generated bundle has four fields: `"SHA512"`, `"10000"`, Base64 of the salt and Base64 of the key derived with 10000 iterations and 32 bytes. |
| `HashingService.GeneratedBundleSizes` | Kebapi/Services/HashingService/HashingService.cs:35-42 | With a derivation that honours the requested length, the salt field decodes to the 24 salt bytes and the hash field decodes to 32 bytes. |
| `HashingService.BundleVerifies` | Kebapi/Services/HashingService/HashingService.cs:66-79 | For any bundle in the layout, with any algorithm field, trailing white space on the hash field and extra fields after it: it fails when the salt is shorter than 8 bytes, then when the count is not positive. Otherwise the answer is whether the key derived with the bundle's own salt and count equals the stored hash. |
| `HashingService.PaddedBundleVerifies` | Kebapi/Services/HashingService/HashingService.cs:66-71 | A generated bundle still verifies after trailing white space is appended, because the fields are trimmed. |
| `HashingService.NoDelimiterFails` | Kebapi/Services/HashingService/HashingService.cs:66-69 | A bundle with no `.` fails (index out of range) instead of answering false. |
| `HashingService.MissingHashFieldFails` | Kebapi/Services/HashingService/HashingService.cs:66-71 | A bundle that stops after a valid salt field fails on the missing hash field. |
| `HashingService.EmptyIterationsFails` | Kebapi/Services/HashingService/HashingService.cs:69 | An empty iteration field fails to parse before the salt is read. |
| `HashingService.AnswerNeedsWellFormedFields` | Kebapi/Services/HashingService/HashingService.cs:66-77 | Verification answers at all only if there are at least 4 fields, the iteration count parses and is above zero, the salt decodes to at least 8 bytes and the hash field decodes. |
| `Base64.RoundTrip` | Kebapi/Services/HashingService/HashingService.cs:70-71 | `FromBase64String(ToBase64String(b)) == b` for every byte sequence. |
| `Base64.EncodingAlphabet` | Kebapi/Services/HashingService/HashingService.cs:46-47 | An encoding never contains the `.` delimiter or white space. |
| `Base64.EncodeLength` | Kebapi/Services/HashingService/HashingService.cs:46-47 | An encoding has 4 characters for every started group of 3 bytes. |
| `Int32Text.FormatParseRoundTrip` | Kebapi/Services/HashingService/HashingService.cs:69 | `Int32.Parse(n.ToString()) == n`, so the iteration count written into a bundle reads back unchanged. |
| `Int32Text.LeadingZeroParses` | Kebapi/Services/AuthorisationService/AuthorisationService.cs:67 | For n ≥ 0, `"0" + n.ToString()` parses to n, yet it is a different string from `n.ToString()`. |
| `TokenService.ParseSettings` | Kebapi/Services/TokenService/TokenService.cs:80-110 | Audience, then issuer, then signing key must be non-null and non-empty, and each has its own error. A negative lifetime becomes 60 while zero and positive values are kept. Everything else is copied unchanged. |
| `TokenService.ParseSettingsSucceedsIff` | Kebapi/Services/TokenService/TokenService.cs:82-101 | The settings parse iff all three strings are present and non-empty. |
| `TokenService.ParseSettingsIdempotent` | Kebapi/Services/TokenService/TokenService.cs:80-110 | Parsed settings parse to themselves. |
| `TokenService.UserClaims` | Kebapi/Services/TokenService/TokenService.cs:37-48 | Exactly four claims, in order: `username`, `id` (the decimal id), `displayname` and one role claim. |
| `TokenService.CreateToken` | Kebapi/Services/TokenService/TokenService.cs:33-70 | Fails only when the expiry leaves the `DateTime` range or the key is under 128 bits. Otherwise it returns the serialised token of `BuildToken` and that token's `ValidTo`. |
| `TokenService.TokenIdentifiesUser` | Kebapi/Services/TokenService/TokenService.cs:37-48 | In the issued token, the first `sub` and `username` claims are the user name. The first `id` claim is the id's decimal string, which parses back to the id. The role claim is the user's role. |
| `TokenService.CreateTokenExpires` | Kebapi/Services/TokenService/TokenService.cs:57-67 | The reported expiry is the issue time truncated to the second plus `ExpireMinutes` minutes. |
| `JwtHelper.GetJwtToken` | Kebapi/Services/TokenService/JwtHelper.cs:27-59 | The claims are `sub` = user name, `jti` = the GUID, then the additional claims in their order, or nothing more when they are null. The algorithm is HS256 and the key is the UTF-8 bytes of the signing key. Issuer and audience pass through unchanged. It fails on an empty key or an out-of-range expiry. |
| `JwtHelper.ValidToTruncatesExpiry` | Kebapi/Services/TokenService/JwtHelper.cs:55 | `ValidTo` is the whole second at or just before `now + expiration`, and never earlier than the Unix epoch. |
| `JwtHelper.DistinctJtiDistinctTokens` | Kebapi/Services/TokenService/JwtHelper.cs:38-39 | Two calls with different GUIDs build different tokens. |
| `Claims.FindFirst` | Kebapi/Services/AuthorisationService/AuthorisationService.cs:58 | Returns a claim iff one of that type exists, and it is the first claim of that type. |
| `AuthenticationService.UserStore.GetUserByEmail` | Kebapi/Services/AuthenticationService/AuthenticationService.cs:48 | The user stored under that email, or null. |
| `AuthenticationService.UserStore.GetUserByUsername` | Kebapi/Services/AuthenticationService/AuthenticationService.cs:53 | The user stored under that username, or null. |
| `AuthenticationService.LookupOrder` | Kebapi/Services/AuthenticationService/AuthenticationService.cs:46-55 | Two distinct lookups. Email comes first iff the identifier contains `@`. |
| `AuthenticationService.FirstHit` | Kebapi/Services/AuthenticationService/AuthenticationService.cs:48-54 | The `??` fallback: lookups run in order until one finds a user. The user is null iff every lookup misses, and the lookups made are a prefix of the order. |
| `AuthenticationService.Authenticator.AuthenticateUser` | Kebapi/Services/AuthenticationService/AuthenticationService.cs:38-67 | Makes exactly the lookups `LookupsMade` names, then verifies and creates the token. It equals the specification `Authenticate`, a malformed bundle included, and changes nothing. |
| `AuthenticationService.FindUserOrder` | Kebapi/Services/AuthenticationService/AuthenticationService.cs:46-55 | With `@`, the email lookup decides when it finds a user and the username lookup runs only when it misses. Without `@`, the reverse. |
| `AuthenticationService.FindUserSound` | Kebapi/Services/AuthenticationService/AuthenticationService.cs:46-59 | No user is found iff the identifier is neither a stored email nor a stored username. A user found is stored under the identifier. |
| `AuthenticationService.TokenOnlyForVerifiedPassword` | Kebapi/Services/AuthenticationService/AuthenticationService.cs:57-65 | A token is returned iff a user is found, the password verifies against that user's bundle and the token can be created. It is then `CreateToken` of that same user. |
| `AuthenticationService.UnknownUserAndWrongPasswordLookAlike` | Kebapi/Services/AuthenticationService/AuthenticationService.cs:57-65 | An unknown identifier and a wrong password both give the same answer: no token. |
| `AuthenticationService.RegisteredUserAuthenticates` | Kebapi/Services/AuthenticationService/AuthenticationService.cs:59-63 | A user stored with a bundle generated from the password, even padded with white space, logs in with that password and gets their own token. |
| `AuthorisationService.IsOwner` | Kebapi/Services/AuthorisationService/AuthorisationService.cs:45-72 | True iff four things hold: the path starts with the segment `/users`; the route id is present and non-empty; the first `id` claim exists; and that claim's value equals the route id as an ordinal string. Anything missing denies. |
| `AuthorisationService.OwnershipExample` | Kebapi/Services/AuthorisationService/AuthorisationService.cs:50-70 | The id claim `"42"` owns `/users/42/favourites` and does not own `/users/43/favourites`. |
| `AuthorisationService.IssuedTokenIsFor` | Kebapi/Services/TokenService/TokenService.cs:37-58 | Every token built for a user carries exactly `sub`, `jti` and that user's four claims. |
| `AuthorisationService.ValidatedClaims` | Kebapi/Startup.cs:92-111 | The validated principal holds every payload claim in place, with `sub` renamed to NameIdentifier, followed by three more claims: `exp`, `iss` and `aud`. |
| `AuthorisationService.ValidatedPrincipalIsFor` | Kebapi/Startup.cs:92-111 | The principal validated from any token built for a user is that user's principal: after `sub` is mapped to NameIdentifier and `exp`, `iss` and `aud` are added, the id and role claims are the user's and no other claim takes their types. |
| `AuthorisationService.TokenRoles` | Kebapi/Services/AuthorisationService/AuthorisationService.cs:24-37 | For a user's principal (any claims holding the user's role claim and no other role claim), `IsInRole(role)` holds iff the role is the user's. So `IsAdmin` and `IsUser` hold exactly for the roles Admin and User. |
| `AuthorisationService.TokenOwnsOwnRecord` | Kebapi/Services/AuthorisationService/AuthorisationService.cs:50-70 | A user's principal (any claims holding the user's id claim and no other id claim, in any position) owns exactly the requests under `/users` whose route id is the user's id in decimal. |
| `AuthorisationService.LeadingZeroIdNotOwned` | Kebapi/Services/AuthorisationService/AuthorisationService.cs:67-70 | A route id with a leading zero parses to the user's id but is not owned, because the comparison is on strings. |
| `AuthorisationHandlers.Succeeds` | Kebapi/Services/AuthorisationService/CanReadUserHandler.cs:15-24 | Admin always succeeds. Reading or updating a user succeeds iff the caller is Admin or owner. The users' home succeeds iff the caller is Admin or User. Otherwise success is never signalled. |
| `AuthorisationHandlers.UserRecordAccess` | Kebapi/Services/AuthorisationService/CanUpdateUserHandler.cs:15-24 | For a user's principal, reading or updating succeeds iff the user's role is Admin or the request is under `/users` with the user's own id. |
| `AuthorisationHandlers.UsersHomeAccess` | Kebapi/Services/AuthorisationService/CanReadUsersHomeHandler.cs:15-24 | For a user's principal, the users' home is open iff the role is Admin or User. Everyone is refused. |
| `AuthorisationHandlers.UsersHomeIgnoresRequest` | Kebapi/Services/AuthorisationService/CanReadUsersHomeHandler.cs:17-21 | The users' home decision does not depend on the path or the route values. |
| `AuthorisationHandlers.EveryoneUpdatesOwnFavourites` | Kebapi/Services/AuthorisationService/CanUpdateUserHandler.cs:18-21 | A user with role Everyone may update their own favourites. |
| `AuthorisationHandlers.UserCannotReadOthers` | Kebapi/Services/AuthorisationService/CanReadUserHandler.cs:18-21 | A non-admin reading another user's record is denied. |
| `InputParser.ParseStartRow` | Kebapi/Services/InputParser.cs:30-36 | The result is at least the minimum and at least the input, and is one of the two, i.e. `max(startRow, MinStartRow)`. |
| `InputParser.ParseRowCount` | Kebapi/Services/InputParser.cs:45-52 | The result never exceeds the maximum. It is the input when the input is within `[MinRowCount, MaxRowCount]`, and the maximum otherwise. |
| `InputParser.PagingBounds` | Kebapi/Services/InputParser.cs:30-52 | Both clamps are idempotent. When the range is non-empty, the row count lands inside it. |
| `InputParser.TryParsePositiveInt` | Kebapi/Services/InputParser.cs:62-69 | True iff the string parses as an Int32 above zero. The out value is the parsed number, or 0 when nothing parses. Null gives false. |
| `InputParser.PositiveIntRoundTrip` | Kebapi/Services/InputParser.cs:62-69 | A number written by `ToString` is accepted iff it is positive, and reads back unchanged. |
| `InputParser.TryParseString` | Kebapi/Services/InputParser.cs:98-104 | Always true. The result is the input with its leading and trailing white space dropped, and nothing else: a slice with non-white ends such that everything before and after it is white space. Null gives `""`. |
| `InputParser.TryParseStringIdempotent` | Kebapi/Services/InputParser.cs:98-104 | Parsing a parsed string changes nothing. |
| `InputParser.GetQueryVar` | Kebapi/Services/InputParser.cs:171-178 | The values of the variable whose name equals the requested name ignoring case, or none when no variable's name does. |
| `InputParser.GetQueryVarIgnoresCase` | Kebapi/Services/InputParser.cs:171-206 | Names that differ only in case give the same values, the same `GetQueryVarAsInt` and the same `GetQueryVarAsCardinal`. |
| `InputParser.GetQueryVarAsInt` | Kebapi/Services/InputParser.cs:197-206 | The result is the `Int32.Parse` of `StringValues.ToString` when that parses, and 0 when it throws. `ToString` gives the single value, or the non-empty values joined with commas when there are two or more. An absent variable gives 0. |
| `InputParser.QueryVarAsIntCases` | Kebapi/Services/InputParser.cs:197-206 | When the only non-empty value is a number written by `ToString`, it reads back as that number, even beside empty repeats (`["5", ""]` gives 5). No non-empty value, or two or more, gives 0. |
| `InputParser.GetQueryVarAsCardinal` | Kebapi/Services/InputParser.cs:217-220 | The result is the magnitude of `GetQueryVarAsInt`, which is at least 0. It fails (overflow) exactly for Int32.MinValue. |
| `InputParser.CardinalOverflows` | Kebapi/Services/InputParser.cs:217-220 | The query value `"-2147483648"` makes it throw. |
| `InputParser.ParseSettings` | Kebapi/Services/InputParser.cs:230-248 | Fails with its own message for a negative MinStartRow, then MinRowCount, then MaxRowCount. Otherwise it returns the settings unchanged. |
| `Dal.ParseSettings` | Kebapi/DataAccess/Dal.cs:1179-1198 | A null connection string throws. A connection string that is empty after trimming is refused. A missing MaxSelectRows becomes 100, and a value outside `[1, 5000]` is refused. On success the result holds the trimmed string and that value. |
| `Dal.ParseSettingsIdempotent` | Kebapi/DataAccess/Dal.cs:1179-1198 | Parsed settings parse to themselves. |
| `Dal.NewDal` | Kebapi/DataAccess/Dal.cs:44-58 | The constructor propagates settings errors and refuses an empty database name and `master` in any case. A constructed layer satisfies `Valid`. |
| `Dal.GuardDatabaseOperation` | Kebapi/DataAccess/Dal.cs:145-150 | Refuses `master` in any case, then any database other than the configured one. |
| `Dal.GuardAllowsOnlyOwnDatabase` | Kebapi/DataAccess/Dal.cs:294-304 | For a valid layer, create, drop and reset proceed iff the name equals the configured one, ignoring case. |
| `Dal.ParseStartRow` | Kebapi/DataAccess/Dal.cs:1157-1160 | `|startRow|`, which overflows only for Int32.MinValue. |
| `Dal.ParseRowCount` | Kebapi/DataAccess/Dal.cs:1162-1169 | `|rowCount|`, replaced by MaxSelectRows when it is 0 or above it. Overflows only for Int32.MinValue. |
| `Dal.RowCountInRange` | Kebapi/DataAccess/Dal.cs:1162-1169 | For a valid layer the result lies in `[1, MaxSelectRows]`, and a value already there is kept. |
| `Dal.AddUserOutcome` | Kebapi/DataAccess/Dal.cs:796-838 | An integer id gives OK with that id, and a non-integer id throws. Error 2627 naming `'uq_user_email'` gives ErrorDuplicateEmail; email is checked first. Error 2627 naming `'uq_user_username'` gives ErrorDuplicateUsername. Both carry a null id, and any other error is rethrown. |
| `Dal.AddUserFavouriteOutcome` | Kebapi/DataAccess/Dal.cs:883-933 | Error 547 naming the users key gives InexistentUser; the users key is checked first. Error 547 naming the venues key gives InexistentVenue. Error 2627 naming `'uq_user_venue'` gives Duplicate. All carry a null id, and anything else is rethrown. |
| `Dal.RemoveUserFavouriteOutcome` | Kebapi/DataAccess/Dal.cs:964-977 | A null id gives ErrorInexistent with a null affected id. An integer id gives OK with that id. |
| `Dal.SuccessCarriesId` | Kebapi/DataAccess/Dal.cs:796-977 | For all three writes, the code is OK iff an affected id is carried. |
| `DalConstants.AddUserCodesDistinct` | Kebapi/DataAccess/Constants.cs:27-35 | OK is 0, the errors are -1 and -2, and the codes are distinct, so each code maps back to its result. |
| `DalConstants.AddUserFavouriteCodesDistinct` | Kebapi/DataAccess/Constants.cs:40-50 | OK is 0, the errors are -1 to -3, and the codes are distinct and map back. |
| `DalConstants.RemoveUserFavouriteCodesDistinct` | Kebapi/DataAccess/Constants.cs:55-61 | OK is 0 and ErrorInexistent is -1; the codes are distinct and map back. |
| `Domain.RoleRoundTrip` | Kebapi/Domain/User.cs:20-25 | The codes Admin=1, User=2 and Everyone=99 and the role names each map back to their role. |
| `Domain.RoleCodeInjective` | Kebapi/Domain/User.cs:20-25 | Role codes and names are injective. |
| `Domain.AccountStatusRoundTrip` | Kebapi/Domain/User.cs:11-15 | The codes Active=2 and Inactive=1 map back to their status. |
| `Domain.AccountStatusCodeInjective` | Kebapi/Domain/User.cs:11-15 | Account status codes and names are injective. |
| `DataMapper.MapToApiUser` | Kebapi/Services/DataMapper.cs:79-84 | Copies Id, Email, Name, Surname and Username. |
| `DataMapper.MapToApiUserFilters` | Kebapi/Services/DataMapper.cs:79-84 | The API user does not depend on PasswordHash, Role or AccountStatusId. |
| `DataMapper.MapToApiUserKeepsPublicFields` | Kebapi/Services/DataMapper.cs:79-84 | Two rows map to the same API user iff they agree on the five public fields. |
| `DataMapper.MapToApiStatus` | Kebapi/Services/DataMapper.cs:39-44 | The code, message and errors go through unchanged. |
| `DataMapper.MapToApiAffectedId` | Kebapi/Services/DataMapper.cs:49-52 | Preserves the affected id's Value. |
| `DataMapper.MapToApiAffectedRows` | Kebapi/Services/DataMapper.cs:56-59 | Preserves the row Count. |
| `DataMapper.MapToApiUserAccountStatus` | Kebapi/Services/DataMapper.cs:87-91 | Preserves Id and Status. |
| `DataMapper.MapToApiVenue` | Kebapi/Services/DataMapper.cs:127-133 | Copies all seven venue fields. |
| `DataMapper.MapToApiVenueInjective` | Kebapi/Services/DataMapper.cs:127-133 | The venue mapping is injective: nothing is lost. |
| `DataMapper.MapToApiResponse` | Kebapi/Services/DataMapper.cs:94-99 | Every response composer pairs the status and the payload without altering either. |
| `Users.ParseSettings` | Kebapi/Api/Users.cs:973-988 | A minimum username length of 0 or less fails. Then a minimum password length of 0 or less fails. Otherwise the settings come back unchanged. |
| `Users.MissingRegistrationFields` | Kebapi/Api/Users.cs:667-673 | Holds "Username", "Email" and "Password" exactly when that field is null or white space, in that order. |
| `Users.ContentErrors` | Kebapi/Api/Users.cs:689-702 | A bad email (no `@` or no `.`), a short username and a short password each add their own error, iff the condition holds, in that order. |
| `Users.FindRegistrationErrors` | Kebapi/Api/Users.cs:652-705 | A null request gives one error and stops. Missing fields give one "Missing needed info" error and stop. Otherwise the content checks run. The result is empty iff the registration is acceptable. |
| `Users.InvalidEmailIsReported` | Kebapi/Api/Users.cs:667-692 | When username and password are present, an email without `@` or `.` is always reported: as a bad email, or as missing. |
| `Users.RegistrationResponse` | Kebapi/Api/Users.cs:617-635 | OK gives 201 with the new id. A duplicate email or username gives 422 with no id. Any other code gives the pessimistic 500. |
| `Users.Add` | Kebapi/Api/Users.cs:564-644 | A user is stored iff the registration is acceptable; otherwise the answer is 400. The user is stored with the request's fields, role User, status Active and a bundle that verifies the password. The answer follows the stored result. |
| `Users.RegistrationFollowsInsert` | Kebapi/Api/Users.cs:617-635 | An inserted row answers 201 with its id. A duplicate reported by the SQL error answers 422. |
| `Users.MissingLoginFields` | Kebapi/Api/Users.cs:951-956 | Holds "UsernameOrEmail" and "Password" exactly when missing, in that order. |
| `Users.FindLoginErrors` | Kebapi/Api/Users.cs:939-959 | At most one error, which lists every missing field. It is empty iff the login is complete. |
| `Users.EmptyLoginNamesBothFields` | Kebapi/Api/Users.cs:951-956 | An empty login gives "Missing needed info: UsernameOrEmail, Password.". |
| `Users.Authenticate` | Kebapi/Api/Users.cs:870-936 | A null or incomplete request gives 400. Otherwise no token gives 401, a token gives 200 with that token, and a service exception propagates. |
| `Users.LoginSucceedsOnlyWithPassword` | Kebapi/Api/Users.cs:892-923 | The answer is 200 iff the login is complete, names a stored user, carries that user's password and a token can be made. |
| `Users.FindUsernameErrors` | Kebapi/Api/Users.cs:189-207 | A blank username gives one error. A length outside `[3, 40]` gives one error. Otherwise there is none. |
| `Users.WhiteSpaceUsernameIsBlank` | Kebapi/Api/Users.cs:137-152 | A query value of white space only is trimmed to nothing and reported blank. |
| `Users.ArgumentErrors` | Kebapi/Api/Users.cs:738-747 | One error per route argument that is not a positive integer, the id's first. |
| `Users.AddFavouriteResponse` | Kebapi/Api/Users.cs:751-775 | OK and Duplicate give 200. InexistentUser and InexistentVenue give 422. Any other code throws. |
| `Users.AddFavourite` | Kebapi/Api/Users.cs:715-790 | Invalid arguments give 400 with one error each. Otherwise the data layer gets exactly the parsed ids. |
| `Users.RemoveFavouriteResponse` | Kebapi/Api/Users.cs:834-847 | OK and Inexistent both give 200. Any other code throws. |
| `Users.RemoveFavourite` | Kebapi/Api/Users.cs:798-860 | Invalid arguments give 400 with one error each. Otherwise the data layer gets exactly the parsed ids. |
| `Users.FavouriteCodesAreExpected` | Kebapi/Api/Users.cs:751-847 | No result the data layer's classifiers produce reaches the unexpected-code exception. |
| `Users.PositiveIdsReachDal` | Kebapi/Api/Users.cs:733-750 | Positive ids written in decimal reach the data layer unchanged. |
| `Users.SetActiveState` | Kebapi/Api/Users.cs:492-556 | A bad id gives 400. Otherwise 0 rows affected gives 404 and anything else 200, both with the row count. |

## Left out

- Cryptography: PBKDF2/HMAC-SHA512, the random number generator, HMAC-SHA256 signing and JWT
  serialisation are parameters (`Kdf`, `rng`, `writeToken`). Token validation at presentation
  is done by the framework, not by this code.
- The clock and `Guid.NewGuid` are parameters (`now`, `jti`). Distinct GUIDs are an
  assumption of `JwtHelper.DistinctJtiDistinctTokens`.
- The `AuthenticateUser` overload without a cancellation token: once cancellation is dropped
  it is the same operation as `AuthenticationService.Authenticator.AuthenticateUser`.
- `async`/`await`, cancellation tokens, logging, and reading and writing HTTP requests and
  responses. The endpoints' decisions are modelled; their I/O is not.
- `GetUserCountResult` and `GetVenueCountResult`: one-member enums used only by the count queries, which are database I/O and not modelled.
- All database I/O in `Dal.cs`: connections, commands, reader loops, and creating, dropping and
  resetting databases. Only the guards and the classifiers of what a command returned or
  raised are modelled. Extracting `InitialCatalog` from a connection string is a parameter of
  `Dal.NewDal`.
- Floating point: venue distances, `TryParseLatitude`, `TryParseLongitude`,
  `TryParsePositiveDouble` and `MapToApiVenueDistance`. Venue coordinates are `real`.
- `JwtHelper.ValidToTruncatesExpiry`: the model's `IntDate` is an exact floor of the seconds. `EpochTime.GetIntDate` goes through a double, and a time within about one tick (100 ns) of the next whole second can round up to it, so `ValidTo` may lie one tick after `now + expiration`. The rounding is not modelled.
- `TokenService.CreateTokenExpires`: states the reported expiry as the floor of `now + ExpireMinutes` in whole seconds, so it inherits the same double rounding, which is not modelled.
- `AuthorisationService.ValidatedClaims`: of the inbound claim map only the entry for `sub` is modelled, since the other claim types an issued token holds are not in the map. Token validation itself (signature, lifetime, issuer and audience checks) is left to the framework.
- `InputParser.GetQueryVar`: the query string is a map already grouped by folded name. Parsing the raw query string and its URL decoding are done by the framework.
- Culture: case-insensitive comparisons fold ASCII letters only. `Char.IsWhiteSpace` uses the
  fixed Unicode white-space set. `Int32.Parse` uses invariant-culture digits and signs.
- `Users.Add`: the generated salt comes from a random source that is a parameter. The database
  call is a function of the new user, so a store that answers differently for the same user
  over time is not modelled.
- `Users.FindUsernameErrors`: the `!sanitised` branch of GetByUsername is not modelled,
  because `TryParseString` always succeeds.
- The other Users endpoints (Get, GetSome, GetCount, GetAccountStatus, GetSomeFavourites) and
  the Venues and Admins endpoints only move data between the database and the response.
