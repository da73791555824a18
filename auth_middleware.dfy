/** The backend's request guards (backend/src/middleware/auth.ts):
    `authenticate` resolves a bearer token to a user, and
    `requirePermission` checks that user's role against a fixed table. Token
    verification and user lookup belong to the authentication service and
    are taken as parameters. */
module AuthMiddleware {
  import opened Wrappers
  import opened Text
  import opened Seqs

  /** A user as the authentication service returns it; the role is free text. */
  datatype User = User(id: string, name: string, email: string, role: string)

  /** The claims a verified token carries. */
  datatype TokenPayload = TokenPayload(userId: string, email: string, role: string)

  /** An error response: status code and message. */
  datatype Reply = Reply(status: int, error: string)

  /** `authenticate`'s outcome: `req.user` set and `next()` called, or an
      error response sent. */
  datatype AuthResult = Authenticated(user: User) | Rejected(reply: Reply)

  /** `requirePermission`'s outcome: `next()` called, or an error response sent. */
  datatype GuardResult = Allow | Deny(reply: Reply)

  const BearerPrefix: string := "Bearer "
  const NoTokenReply := Reply(401, "Access denied. No token provided.")
  const InvalidTokenReply := Reply(401, "Invalid token.")
  const UnknownUserReply := Reply(401, "User not found.")
  const NotAuthenticatedReply := Reply(401, "Authentication required.")
  const ForbiddenReply := Reply(403, "Access denied. Insufficient permissions.")

  /** `authHeader?.replace("Bearer ", "")`: the header with the first
      occurrence of "Bearer " removed, wherever it is, or the whole header
      when it has none. */
  function ExtractToken(header: Option<string>): (token: Option<string>)
    ensures header.None? <==> token.None?
    ensures header.Some? && !Contains(header.value, BearerPrefix) ==> token == header
    ensures header.Some? && BearerPrefix <= header.value ==> token == Some(header.value[|BearerPrefix|..])
    ensures header.Some? && Contains(header.value, BearerPrefix) ==>
      |token.value| == |header.value| - |BearerPrefix|
    ensures header.Some? && FindSub(header.value, BearerPrefix).Some? ==>
      var i := FindSub(header.value, BearerPrefix).value;
      token == Some(header.value[..i] + header.value[i + |BearerPrefix|..])
  {
    match header
    case None => None
    case Some(h) =>
      assert BearerPrefix <= h ==> "" + h[|BearerPrefix|..] == h[|BearerPrefix|..];
      assert forall a: string, b: string :: a + "" + b == a + b;
      Some(ReplaceFirst(h, BearerPrefix, ""))
  }

  /** A header holding "Bearer " after other text loses that occurrence only:
      "X Bearer abc" yields "X abc". */
  lemma MidHeaderToken()
    ensures ExtractToken(Some("X Bearer abc")) == Some("X abc")
  {
    var h := "X Bearer abc";
    // No match at index 0 or 1: the windows there start with 'X' and ' ', not 'B'.
    assert h[0..7][0] != BearerPrefix[0] && h[1..8][0] != BearerPrefix[0];
    assert !OccursAt(h, BearerPrefix, 0) && !OccursAt(h, BearerPrefix, 1);
    assert OccursAt(h, BearerPrefix, 2);
    assert FindSub(h, BearerPrefix) == Some(2);
    assert h[..2] + h[9..] == "X abc";
  }

  /** A "Bearer <t>" header yields the token t. */
  lemma BearerHeaderToken(t: string)
    ensures ExtractToken(Some(BearerPrefix + t)) == Some(t)
  {
    assert BearerPrefix <= BearerPrefix + t;
    assert (BearerPrefix + t)[|BearerPrefix|..] == t;
  }

  /** `authenticate` as a decision: every failure answers 401; success
      carries the user the token's `userId` names. */
  function Authentication(
    header: Option<string>,
    verify: string -> Option<TokenPayload>,
    lookup: string -> Option<User>): (r: AuthResult)
    ensures r.Rejected? ==> r.reply.status == 401
    ensures ExtractToken(header).None? || ExtractToken(header).value == "" ==> r == Rejected(NoTokenReply)
    ensures r.Authenticated? <==>
      && ExtractToken(header).Some? && ExtractToken(header).value != ""
      && verify(ExtractToken(header).value).Some?
      && lookup(verify(ExtractToken(header).value).value.userId).Some?
    ensures r.Authenticated? ==>
      Some(r.user) == lookup(verify(ExtractToken(header).value).value.userId)
  {
    var token := ExtractToken(header);
    if token.None? || token.value == "" then Rejected(NoTokenReply)
    else
      match verify(token.value)
      case None => Rejected(InvalidTokenReply)
      case Some(decoded) =>
        match lookup(decoded.userId)
        case None => Rejected(UnknownUserReply)
        case Some(user) => Authenticated(user)
  }

  /** Without a token the verifier and the user lookup are never consulted:
      the answer is the same 401 whatever they would say. */
  lemma NoTokenIgnoresVerifier(
    header: Option<string>,
    verify1: string -> Option<TokenPayload>, lookup1: string -> Option<User>,
    verify2: string -> Option<TokenPayload>, lookup2: string -> Option<User>)
    requires header.None? || ExtractToken(header) == Some("")
    ensures Authentication(header, verify1, lookup1) == Authentication(header, verify2, lookup2)
  {
  }

  /** The role table of `requirePermission`; a role absent from it has no
      permissions. */
  function RolePermissions(role: string): (r: seq<string>)
    ensures NoDuplicates(r)
    ensures r != [] <==> role == "admin" || role == "manager" || role == "viewer"
    ensures r != [] ==> "view" in r
    ensures "delete" in r <==> role == "admin"
  {
    if role == "admin" then ["view", "create", "edit", "delete"]
    else if role == "manager" then ["view", "create", "edit"]
    else if role == "viewer" then ["view"]
    else []
  }

  /** `requirePermission(permission)` as a decision over `req.user`. */
  function PermissionCheck(user: Option<User>, permission: string): (r: GuardResult)
    ensures user.None? ==> r == Deny(NotAuthenticatedReply)
    ensures user.Some? ==> (r.Allow? <==> permission in RolePermissions(user.value.role))
    ensures user.Some? && r.Deny? ==> r.reply == ForbiddenReply
  {
    if user.None? then Deny(NotAuthenticatedReply)
    else if permission !in RolePermissions(user.value.role) then Deny(ForbiddenReply)
    else Allow
  }

  /** Admin may view, create, edit and delete. */
  lemma AdminAllowed(u: User, permission: string)
    requires u.role == "admin"
    requires permission in {"view", "create", "edit", "delete"}
    ensures PermissionCheck(Some(u), permission) == Allow
  {
  }

  /** Manager is refused deletion with 403. */
  lemma ManagerCannotDelete(u: User)
    requires u.role == "manager"
    ensures PermissionCheck(Some(u), "delete") == Deny(ForbiddenReply)
  {
  }

  /** Viewer may only view. */
  lemma ViewerOnlyViews(u: User, permission: string)
    requires u.role == "viewer"
    ensures PermissionCheck(Some(u), permission).Allow? <==> permission == "view"
  {
  }

  /** A role outside the table is refused every permission with 403. */
  lemma UnknownRoleDenied(u: User, permission: string)
    requires u.role != "admin" && u.role != "manager" && u.role != "viewer"
    ensures PermissionCheck(Some(u), permission) == Deny(ForbiddenReply)
  {
  }

  /** Whatever viewer may do, manager may; whatever manager may do, admin may. */
  lemma RolesNested(permission: string)
    ensures permission in RolePermissions("viewer") ==> permission in RolePermissions("manager")
    ensures permission in RolePermissions("manager") ==> permission in RolePermissions("admin")
  {
  }

  /** One request passing through the middleware chain: the header it
      arrived with, the `req.user` it carries, the error response sent (if
      any) and how often `next()` was called. */
  class Exchange {
    const header: Option<string>
    var user: Option<User>
    var reply: Option<Reply>
    var nextCalls: nat

    constructor (header: Option<string>)
      ensures this.header == header && user == None && reply == None && nextCalls == 0
    {
      this.header := header;
      user := None;
      reply := None;
      nextCalls := 0;
    }

    /** `authenticate`: on success sets `req.user` and calls `next()` once;
        otherwise sends the error and does neither. */
    method Authenticate(verify: string -> Option<TokenPayload>, lookup: string -> Option<User>)
      modifies this
      ensures Authentication(header, verify, lookup).Authenticated? ==>
        && user == Some(Authentication(header, verify, lookup).user)
        && nextCalls == old(nextCalls) + 1 && reply == old(reply)
      ensures Authentication(header, verify, lookup).Rejected? ==>
        && reply == Some(Authentication(header, verify, lookup).reply)
        && user == old(user) && nextCalls == old(nextCalls)
    {
      match Authentication(header, verify, lookup)
      case Rejected(r) =>
        reply := Some(r);
      case Authenticated(u) =>
        user := Some(u);
        nextCalls := nextCalls + 1;
    }

    /** `requirePermission(permission)`: calls `next()` once when the role
        allows it, otherwise sends 401 or 403; `req.user` is left alone. */
    method RequirePermission(permission: string)
      modifies this`reply, this`nextCalls
      ensures PermissionCheck(old(user), permission).Allow? ==>
        nextCalls == old(nextCalls) + 1 && reply == old(reply)
      ensures PermissionCheck(old(user), permission).Deny? ==>
        reply == Some(PermissionCheck(old(user), permission).reply) && nextCalls == old(nextCalls)
    {
      match PermissionCheck(user, permission)
      case Deny(r) =>
        reply := Some(r);
      case Allow =>
        nextCalls := nextCalls + 1;
    }
  }
}
