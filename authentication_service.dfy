/**
 * AuthenticationService.AuthenticateUser: finds a user by email or username, checks the
 * password against the user's stored hash bundle and, when it matches, issues a token.
 * The user store is the part of the data access layer it calls: two read-only lookups.
 */
module AuthenticationService {
  import opened Wrappers
  import opened Numeric
  import opened HashingService
  import opened JwtHelper
  import opened TokenService
  import Dto

  /** The two store lookups, IDal.GetUserByEmail and IDal.GetUserByUsername. */
  datatype Lookup = ByEmail | ByUsername

  /** The users the store holds, keyed by email and by username. */
  class UserStore {
    var byEmail: map<string, Dto.DalUser>
    var byUsername: map<string, Dto.DalUser>

    constructor(byEmail: map<string, Dto.DalUser>, byUsername: map<string, Dto.DalUser>)
      ensures this.byEmail == byEmail && this.byUsername == byUsername
    {
      this.byEmail := byEmail;
      this.byUsername := byUsername;
    }

    /** The user with that email, or null. */
    method GetUserByEmail(email: string) returns (user: Option<Dto.DalUser>)
      ensures user == Find(byEmail, email)
    {
      user := if email in byEmail then Some(byEmail[email]) else None;
    }

    /** The user with that username, or null. */
    method GetUserByUsername(username: string) returns (user: Option<Dto.DalUser>)
      ensures user == Find(byUsername, username)
    {
      user := if username in byUsername then Some(byUsername[username]) else None;
    }
  }

  function Find(m: map<string, Dto.DalUser>, key: string): (r: Option<Dto.DalUser>)
    ensures r.Some? <==> key in m
    ensures r.Some? ==> r.value == m[key]
  {
    if key in m then Some(m[key]) else None
  }

  function Run(lookup: Lookup, byEmail: map<string, Dto.DalUser>, byUsername: map<string, Dto.DalUser>,
               key: string): Option<Dto.DalUser>
  {
    match lookup
    case ByEmail => Find(byEmail, key)
    case ByUsername => Find(byUsername, key)
  }

  /** The order of the lookups: an identifier with '@' is most likely an email. */
  function LookupOrder(usernameOrEmail: string): (r: seq<Lookup>)
    ensures |r| == 2 && r[0] != r[1]
    ensures r[0] == ByEmail <==> '@' in usernameOrEmail
  {
    if '@' in usernameOrEmail then [ByEmail, ByUsername] else [ByUsername, ByEmail]
  }

  /** Running lookups in order until one finds a user (the `??` fallback): the user found
      and the lookups that were made. */
  function FirstHit(order: seq<Lookup>, byEmail: map<string, Dto.DalUser>, byUsername: map<string, Dto.DalUser>,
                    key: string): (r: (Option<Dto.DalUser>, seq<Lookup>))
    ensures |r.1| <= |order| && r.1 == order[..|r.1|]
    ensures order != [] ==> |r.1| >= 1
    ensures r.0.None? <==> forall k :: 0 <= k < |order| ==> Run(order[k], byEmail, byUsername, key).None?
    ensures r.0.Some? ==> r.0 == Run(order[|r.1| - 1], byEmail, byUsername, key)
    ensures forall k :: 0 <= k < |r.1| - 1 ==> Run(order[k], byEmail, byUsername, key).None?
    ensures r.0.None? ==> r.1 == order
  {
    if order == [] then (None, [])
    else
      var u := Run(order[0], byEmail, byUsername, key);
      if u.Some? then (u, [order[0]])
      else
        var rest := FirstHit(order[1..], byEmail, byUsername, key);
        var made := [order[0]] + rest.1;
        assert made == order[..|made|];
        assert rest.0.Some? ==> order[|made| - 1] == order[1..][|rest.1| - 1];
        assert forall k :: 0 <= k < |made| - 1 ==> Run(order[k], byEmail, byUsername, key).None? by {
          forall k | 1 <= k < |made| - 1
            ensures Run(order[k], byEmail, byUsername, key).None?
          {
            assert order[k] == order[1..][k - 1];
          }
        }
        assert rest.0.None? ==> forall k :: 0 <= k < |order| ==> Run(order[k], byEmail, byUsername, key).None? by {
          if rest.0.None? {
            forall k | 1 <= k < |order|
              ensures Run(order[k], byEmail, byUsername, key).None?
            {
              assert order[k] == order[1..][k - 1];
            }
          }
        }
        (rest.0, made)
  }

  /** The user AuthenticateUser works with, and the lookups it makes to find it. */
  function FindUser(byEmail: map<string, Dto.DalUser>, byUsername: map<string, Dto.DalUser>, usernameOrEmail: string)
    : Option<Dto.DalUser>
  {
    FirstHit(LookupOrder(usernameOrEmail), byEmail, byUsername, usernameOrEmail).0
  }

  function LookupsMade(byEmail: map<string, Dto.DalUser>, byUsername: map<string, Dto.DalUser>, usernameOrEmail: string)
    : seq<Lookup>
  {
    FirstHit(LookupOrder(usernameOrEmail), byEmail, byUsername, usernameOrEmail).1
  }

  /** What can stop AuthenticateUser with an exception instead of an answer. */
  datatype AuthenticationError =
    | UnreadableHashBundle(bundleError: HashBundleError)
    | TokenNotCreated(tokenError: CreateTokenError)

  /**
   * The answer of AuthenticateUser: no token when no user is found or the password does not
   * match; otherwise the token CreateToken makes for that same user.
   */
  function Authenticate(kdf: Kdf, settings: TokenValidationSettings, writeToken: JwtSecurityToken -> string,
                        byEmail: map<string, Dto.DalUser>, byUsername: map<string, Dto.DalUser>,
                        usernameOrEmail: string, password: string, now: DateTimeTicks, jti: string)
    : Result<Option<Dto.ApiSecurityToken>, AuthenticationError>
    requires IsParsed(settings)
  {
    var user := FindUser(byEmail, byUsername, usernameOrEmail);
    if user.None? then Success(None)
    else
      match VerifyHashBundle(kdf, password, user.value.passwordHash)
      case Failure(e) => Failure(UnreadableHashBundle(e))
      case Success(matches) =>
        if !matches then Success(None)
        else
          match CreateToken(settings, user.value, now, jti, writeToken)
          case Failure(e) => Failure(TokenNotCreated(e))
          case Success(token) => Success(Some(token))
  }

  /** The service: a user store, the key derivation of its hashing service and the parsed
      token settings of its token service. The clock and the GUID are passed per call. */
  class Authenticator {
    const store: UserStore
    const kdf: Kdf
    const tokenSettings: TokenValidationSettings
    const writeToken: JwtSecurityToken -> string

    constructor(store: UserStore, kdf: Kdf, tokenSettings: TokenValidationSettings,
                writeToken: JwtSecurityToken -> string)
      requires IsParsed(tokenSettings)
      ensures this.store == store && this.kdf == kdf && this.tokenSettings == tokenSettings
      ensures this.writeToken == writeToken
    {
      this.store := store;
      this.kdf := kdf;
      this.tokenSettings := tokenSettings;
      this.writeToken := writeToken;
    }

    /**
     * AuthenticateUser: looks the identifier up (email first when it contains '@', username
     * first otherwise, the second lookup only when the first finds nobody), then verifies the
     * password and creates the token. It changes nothing: the store is only read.
     */
    method AuthenticateUser(usernameOrEmail: string, password: string, now: DateTimeTicks, jti: string)
      returns (r: Result<Option<Dto.ApiSecurityToken>, AuthenticationError>, ghost lookups: seq<Lookup>)
      requires IsParsed(tokenSettings)
      ensures r == Authenticate(kdf, tokenSettings, writeToken, store.byEmail, store.byUsername,
                                usernameOrEmail, password, now, jti)
      ensures lookups == LookupsMade(store.byEmail, store.byUsername, usernameOrEmail)
    {
      var user: Option<Dto.DalUser>;
      if '@' in usernameOrEmail {
        user := store.GetUserByEmail(usernameOrEmail);
        lookups := [ByEmail];
        if user.None? {
          user := store.GetUserByUsername(usernameOrEmail);
          lookups := lookups + [ByUsername];
        }
      } else {
        user := store.GetUserByUsername(usernameOrEmail);
        lookups := [ByUsername];
        if user.None? {
          user := store.GetUserByEmail(usernameOrEmail);
          lookups := lookups + [ByEmail];
        }
      }
      FindUserOrder(store.byEmail, store.byUsername, usernameOrEmail);
      assert user == FindUser(store.byEmail, store.byUsername, usernameOrEmail);
      r := Success(None);
      if user.Some? {
        var valid := IsValueInHashBundle(kdf, password, user.value.passwordHash);
        if valid.Failure? {
          return Failure(UnreadableHashBundle(valid.error)), lookups;
        }
        if valid.value {
          var token := CreateToken(tokenSettings, user.value, now, jti, writeToken);
          if token.Failure? {
            return Failure(TokenNotCreated(token.error)), lookups;
          }
          r := Success(Some(token.value));
        }
      }
    }
  }

  /** The lookups in both orders: the identifier's preferred lookup decides when it finds a
      user, and the other one is consulted only when it does not. */
  lemma FindUserOrder(byEmail: map<string, Dto.DalUser>, byUsername: map<string, Dto.DalUser>, id: string)
    ensures '@' in id ==>
      FindUser(byEmail, byUsername, id) == (if id in byEmail then Some(byEmail[id]) else Find(byUsername, id))
    ensures '@' !in id ==>
      FindUser(byEmail, byUsername, id) == (if id in byUsername then Some(byUsername[id]) else Find(byEmail, id))
    ensures '@' in id ==>
      LookupsMade(byEmail, byUsername, id) == (if id in byEmail then [ByEmail] else [ByEmail, ByUsername])
    ensures '@' !in id ==>
      LookupsMade(byEmail, byUsername, id) == (if id in byUsername then [ByUsername] else [ByUsername, ByEmail])
  {
    var order := LookupOrder(id);
    assert order[1..][1..] == [];
  }

  /** The user found is stored under the identifier as an email or as a username, and there
      is none exactly when the identifier is neither. */
  lemma FindUserSound(byEmail: map<string, Dto.DalUser>, byUsername: map<string, Dto.DalUser>, id: string)
    ensures FindUser(byEmail, byUsername, id).None? <==> id !in byEmail && id !in byUsername
    ensures FindUser(byEmail, byUsername, id).Some? ==>
      var u := FindUser(byEmail, byUsername, id).value;
      (id in byEmail && byEmail[id] == u) || (id in byUsername && byUsername[id] == u)
  {
    FindUserOrder(byEmail, byUsername, id);
  }

  /** A token is issued exactly when a user is found under the identifier, the password
      verifies against that user's bundle and the token for that user can be created; the
      token is then the one created for that user. */
  lemma TokenOnlyForVerifiedPassword(kdf: Kdf, settings: TokenValidationSettings, writeToken: JwtSecurityToken -> string,
                                     byEmail: map<string, Dto.DalUser>, byUsername: map<string, Dto.DalUser>,
                                     id: string, password: string, now: DateTimeTicks, jti: string)
    requires IsParsed(settings)
    ensures var r := Authenticate(kdf, settings, writeToken, byEmail, byUsername, id, password, now, jti);
      var u := FindUser(byEmail, byUsername, id);
      && ((r.Success? && r.value.Some?) <==>
            && u.Some?
            && VerifyHashBundle(kdf, password, u.value.passwordHash) == Success(true)
            && CreateToken(settings, u.value, now, jti, writeToken).Success?)
      && (r.Success? && r.value.Some? ==> r.value.value == CreateToken(settings, u.value, now, jti, writeToken).value)
  {
    var r := Authenticate(kdf, settings, writeToken, byEmail, byUsername, id, password, now, jti);
    var u := FindUser(byEmail, byUsername, id);
    if u.None? {
      assert r == Success(None);
    } else {
      var v := VerifyHashBundle(kdf, password, u.value.passwordHash);
      if v.Failure? {
        assert r == Failure(UnreadableHashBundle(v.error));
      } else if !v.value {
        assert r == Success(None);
      } else {
        var t := CreateToken(settings, u.value, now, jti, writeToken);
        if t.Failure? {
          assert r == Failure(TokenNotCreated(t.error));
        } else {
          assert r == Success(Some(t.value));
        }
      }
    }
  }

  /** An unknown identifier and a wrong password get the same answer: no token. */
  lemma UnknownUserAndWrongPasswordLookAlike(kdf: Kdf, settings: TokenValidationSettings,
                                             writeToken: JwtSecurityToken -> string,
                                             byEmail: map<string, Dto.DalUser>, byUsername: map<string, Dto.DalUser>,
                                             id: string, password: string, now: DateTimeTicks, jti: string)
    requires IsParsed(settings)
    ensures id !in byEmail && id !in byUsername ==>
      Authenticate(kdf, settings, writeToken, byEmail, byUsername, id, password, now, jti) == Success(None)
    ensures (FindUser(byEmail, byUsername, id).Some? &&
             VerifyHashBundle(kdf, password, FindUser(byEmail, byUsername, id).value.passwordHash) == Success(false)) ==>
      Authenticate(kdf, settings, writeToken, byEmail, byUsername, id, password, now, jti) == Success(None)
  {
    FindUserOrder(byEmail, byUsername, id);
  }

  /** A user registered with a generated bundle for a password, stored padded in its column,
      logs in with that password under either identifier. */
  lemma RegisteredUserAuthenticates(kdf: Kdf, settings: TokenValidationSettings, writeToken: JwtSecurityToken -> string,
                                    byEmail: map<string, Dto.DalUser>, byUsername: map<string, Dto.DalUser>,
                                    id: string, password: string, rng: nat -> byte, pad: string,
                                    now: DateTimeTicks, jti: string)
    requires IsParsed(settings)
    requires FindUser(byEmail, byUsername, id).Some?
    requires FindUser(byEmail, byUsername, id).value.passwordHash
          == Text.Join([HashingDelimiter], GeneratedFields(kdf, password, rng)) + pad
    requires forall i :: 0 <= i < |pad| ==> Text.IsWhiteSpace(pad[i])
    requires CreateToken(settings, FindUser(byEmail, byUsername, id).value, now, jti, writeToken).Success?
    ensures Authenticate(kdf, settings, writeToken, byEmail, byUsername, id, password, now, jti)
         == Success(Some(CreateToken(settings, FindUser(byEmail, byUsername, id).value, now, jti, writeToken).value))
  {
    PaddedBundleVerifies(kdf, password, rng, pad);
  }
}
