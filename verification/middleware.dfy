/** The authentication middleware: `authenticate` (a bearer token is required,
    banned users are refused), `optionalAuth` (an identity when a valid token is
    present, never a refusal) and `requireAdmin`.

    Token verification is abstracted as a keyring: the map from every token that
    verifies under the server secret (signed by it and not expired) to the claims
    it carries. */
module AuthMiddleware {
  import opened Common
  import opened Types
  import opened Text
  import opened Store

  /** The claims a signed token carries: `{ userId, role }`. */
  datatype Claims = Claims(userId: Id, role: Role)

  /** What a gate decides: go on with this identity, or reply with an error. */
  datatype Gate = Pass(userId: Id, role: Role) | Reject(status: int, message: string)

  const BearerPrefix: string := "Bearer "

  /** `req.headers.authorization?.replace('Bearer ', '')`; an absent header gives the
      empty string, which is falsy like the `undefined` of the source. */
  function BearerToken(authorization: Option<string>): string {
    match authorization
    case None => ""
    case Some(h) => ReplaceFirst(h, BearerPrefix, "")
  }

  /** A well-formed header yields exactly the token after the prefix. */
  lemma BearerHeaderYieldsToken(token: string)
    ensures BearerToken(Some(BearerPrefix + token)) == token
  {
    ReplaceFirstAtStart(BearerPrefix, token, "");
  }

  /** A header without the prefix is taken whole as the token. */
  lemma HeaderWithoutPrefixIsTheToken(header: string)
    requires !Includes(header, BearerPrefix)
    ensures BearerToken(Some(header)) == header
  {
    ReplaceFirstAbsent(header, BearerPrefix, "");
  }

  /** `user?.isBanned` for the user a token names: a user missing from the table
      is not banned. */
  predicate IsBanned(users: seq<UserRow>, id: Id) {
    match FindUser(users, id)
    case Some(i) => users[i].isBanned
    case None => false
  }

  /** The decision of `authenticate`. */
  function Authenticate(authorization: Option<string>, keyring: map<string, Claims>, users: seq<UserRow>): (g: Gate)
    ensures BearerToken(authorization) == "" ==> g == Reject(401, "Authentication required")
    ensures BearerToken(authorization) != "" && BearerToken(authorization) !in keyring ==> g == Reject(401, "Invalid token")
    ensures g.Pass? <==>
      && BearerToken(authorization) != ""
      && BearerToken(authorization) in keyring
      && !IsBanned(users, keyring[BearerToken(authorization)].userId)
    ensures g.Pass? ==> keyring[BearerToken(authorization)] == Claims(g.userId, g.role)
    ensures g.Reject? && g.status == 403 <==>
      && BearerToken(authorization) in keyring
      && BearerToken(authorization) != ""
      && IsBanned(users, keyring[BearerToken(authorization)].userId)
    ensures g.Reject? ==> g.status in {401, 403}
  {
    var token := BearerToken(authorization);
    if token == "" then Reject(401, "Authentication required")
    else if token !in keyring then Reject(401, "Invalid token")
    else
      var decoded := keyring[token];
      if IsBanned(users, decoded.userId) then Reject(403, "Account has been banned")
      else Pass(decoded.userId, decoded.role)
  }

  /** The identity `optionalAuth` attaches, if any. */
  function OptionalAuth(authorization: Option<string>, keyring: map<string, Claims>): (c: Option<Claims>)
    ensures c.Some? <==> BearerToken(authorization) != "" && BearerToken(authorization) in keyring
    ensures c.Some? ==> c.value == keyring[BearerToken(authorization)]
  {
    var token := BearerToken(authorization);
    if token != "" && token in keyring then Some(keyring[token]) else None
  }

  /** The decision of `requireAdmin`: `None` lets the request through. */
  function RequireAdmin(userRole: Option<Role>): (r: Option<Gate>)
    ensures r.None? <==> userRole == Some(Admin)
    ensures r.Some? ==> r.value == Reject(403, "Admin access required")
  {
    if userRole == Some(Admin) then None else Some(Reject(403, "Admin access required"))
  }

  /** `authenticate` followed by `requireAdmin`, as the admin routes chain them. */
  function AuthenticateAdmin(authorization: Option<string>, keyring: map<string, Claims>, users: seq<UserRow>): (g: Gate)
    ensures g.Pass? ==> g.role == Admin && Authenticate(authorization, keyring, users) == g
    ensures g.Pass? <==> Authenticate(authorization, keyring, users).Pass? && Authenticate(authorization, keyring, users).role == Admin
  {
    match Authenticate(authorization, keyring, users)
    case Reject(status, message) => Reject(status, message)
    case Pass(id, role) =>
      match RequireAdmin(Some(role))
      case Some(refusal) => refusal
      case None => Pass(id, role)
  }

  /** The role that counts is the one in the token, not the one in the user row: a
      token issued while a user was an admin still passes the admin gate after the
      row has been changed to CITIZEN. */
  lemma TokenRoleOutlivesRoleChange(token: string, u: UserRow)
    requires token != "" && !u.isBanned && u.role == Citizen
    ensures AuthenticateAdmin(Some(BearerPrefix + token), map[token := Claims(u.id, Admin)], [u]).Pass?
  {
    BearerHeaderYieldsToken(token);
  }

  /** A request object whose identity fields the middleware fills in. */
  class AuthRequest {
    const authorization: Option<string>
    var userId: Option<Id>
    var userRole: Option<Role>

    constructor (authorization: Option<string>)
      ensures this.authorization == authorization
      ensures userId == None && userRole == None
    {
      this.authorization := authorization;
      userId, userRole := None, None;
    }

    /** `authenticate`: on success the identity comes from the token's claims. */
    method ApplyAuthenticate(keyring: map<string, Claims>, users: seq<UserRow>) returns (g: Gate)
      modifies this
      ensures g == Authenticate(authorization, keyring, users)
      ensures g.Pass? ==> userId == Some(g.userId) && userRole == Some(g.role)
      ensures g.Reject? ==> userId == old(userId) && userRole == old(userRole)
    {
      var token := BearerToken(authorization);
      if token == "" {
        return Reject(401, "Authentication required");
      }
      if token !in keyring {
        return Reject(401, "Invalid token");
      }
      var decoded := keyring[token];
      var user := FindUser(users, decoded.userId);
      if user.Some? && users[user.value].isBanned {
        return Reject(403, "Account has been banned");
      }
      userId := Some(decoded.userId);
      userRole := Some(decoded.role);
      g := Pass(decoded.userId, decoded.role);
    }

    /** `optionalAuth`: never refuses; a missing or invalid token leaves the request
      as it was. */
    method ApplyOptionalAuth(keyring: map<string, Claims>)
      modifies this
      ensures OptionalAuth(authorization, keyring).Some? ==>
        userId == Some(OptionalAuth(authorization, keyring).value.userId) &&
        userRole == Some(OptionalAuth(authorization, keyring).value.role)
      ensures OptionalAuth(authorization, keyring).None? ==> userId == old(userId) && userRole == old(userRole)
    {
      var token := BearerToken(authorization);
      if token != "" && token in keyring {
        var decoded := keyring[token];
        userId := Some(decoded.userId);
        userRole := Some(decoded.role);
      }
    }
  }
}
