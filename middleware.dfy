/**
 * Bearer-token authentication against a fixed table of two tokens, and the
 * role check that lets a request through when one of the user's roles is
 * allowed.
 */
module Middleware {
  import opened Wrappers
  import opened Http
  import Strings

  /** The user a token stands for. */
  datatype UserClaims = UserClaims(username: string, roles: seq<string>)

  const BearerPrefix := "Bearer "

  /** The token table: exactly two tokens are known. */
  function ValidateToken(token: string): (user: Option<UserClaims>)
    ensures user.Some? <==> token in {"admin-token", "viewer-token"}
    ensures user.Some? ==> |user.value.roles| == 1 && user.value.roles[0] == user.value.username
  {
    if token == "admin-token" then Some(UserClaims("admin", ["admin"]))
    else if token == "viewer-token" then Some(UserClaims("viewer", ["viewer"]))
    else None
  }

  /** The outcome of the authentication step: the user to hand on, or the response that ends the request. */
  datatype AuthOutcome = Authenticated(user: UserClaims) | Rejected(response: Response)

  /**
   * The decision of `AuthMiddleware`: a header without the `Bearer ` prefix is
   * 401 "Unauthorized"; otherwise one prefix is removed and an unknown token is
   * 401 "Invalid token".
   */
  function Authenticate(authorization: string): (outcome: AuthOutcome)
    ensures !Strings.HasPrefix(authorization, BearerPrefix) ==> outcome == Rejected(Error("Unauthorized", StatusUnauthorized))
    ensures Strings.HasPrefix(authorization, BearerPrefix) ==>
      var token := authorization[|BearerPrefix|..];
      outcome == if ValidateToken(token).Some? then Authenticated(ValidateToken(token).value)
                 else Rejected(Error("Invalid token", StatusUnauthorized))
  {
    if !Strings.HasPrefix(authorization, BearerPrefix) then Rejected(Error("Unauthorized", StatusUnauthorized))
    else
      var token := Strings.TrimPrefix(authorization, BearerPrefix);
      match ValidateToken(token)
      case None => Rejected(Error("Invalid token", StatusUnauthorized))
      case Some(user) => Authenticated(user)
  }

  /** Exactly two header values authenticate, each as its own user. */
  lemma AuthenticatedExactly(authorization: string)
    ensures Authenticate(authorization).Authenticated? <==>
      authorization in {"Bearer admin-token", "Bearer viewer-token"}
    ensures authorization == "Bearer admin-token" ==> Authenticate(authorization) == Authenticated(UserClaims("admin", ["admin"]))
    ensures authorization == "Bearer viewer-token" ==> Authenticate(authorization) == Authenticated(UserClaims("viewer", ["viewer"]))
  {
    if Strings.HasPrefix(authorization, BearerPrefix) {
      var token := Strings.TrimPrefix(authorization, BearerPrefix);
      assert authorization == BearerPrefix + token;
      if token == "admin-token" {
        assert authorization == "Bearer admin-token";
      } else if token == "viewer-token" {
        assert authorization == "Bearer viewer-token";
      }
    }
    if authorization == "Bearer admin-token" {
      assert Strings.HasPrefix(authorization, BearerPrefix);
      assert Strings.TrimPrefix(authorization, BearerPrefix) == "admin-token";
    }
    if authorization == "Bearer viewer-token" {
      assert Strings.HasPrefix(authorization, BearerPrefix);
      assert Strings.TrimPrefix(authorization, BearerPrefix) == "viewer-token";
    }
  }

  /** The set of allowed roles, built once when the role check is set up. */
  method NewRoleSet(allowedRoles: seq<string>) returns (roleSet: set<string>)
    ensures forall role :: role in roleSet <==> role in allowedRoles
  {
    roleSet := {};
    for i := 0 to |allowedRoles|
      invariant forall role :: role in roleSet <==> role in allowedRoles[..i]
    {
      roleSet := roleSet + {allowedRoles[i]};
    }
  }

  /** What the role check does with a request: hand it to the next handler once, or answer it. */
  datatype Gate = Forward | Deny(response: Response)

  /**
   * The per-request part of `RoleAuthorization`: no user is 403; otherwise the
   * first of the user's roles found in the set forwards the request.
   */
  method Authorize(roleSet: set<string>, user: Option<UserClaims>) returns (gate: Gate)
    ensures gate == Forward <==>
      user.Some? && exists i :: 0 <= i < |user.value.roles| && user.value.roles[i] in roleSet
    ensures gate != Forward ==> gate == Deny(Error("Forbidden", StatusForbidden))
  {
    if user.None? {
      return Deny(Error("Forbidden", StatusForbidden));
    }
    var roles := user.value.roles;
    var i := 0;
    while i < |roles|
      invariant 0 <= i <= |roles|
      invariant forall j :: 0 <= j < i ==> roles[j] !in roleSet
    {
      if roles[i] in roleSet {
        return Forward;
      }
      i := i + 1;
    }
    return Deny(Error("Forbidden", StatusForbidden));
  }

  /** `RoleAuthorization(allowedRoles...)` applied to one request. */
  method RoleAuthorization(allowedRoles: seq<string>, user: Option<UserClaims>) returns (gate: Gate)
    ensures gate == Forward <==>
      user.Some? && exists i :: 0 <= i < |user.value.roles| && user.value.roles[i] in allowedRoles
    ensures gate != Forward ==> gate == Deny(Error("Forbidden", StatusForbidden))
  {
    var roleSet := NewRoleSet(allowedRoles);
    gate := Authorize(roleSet, user);
  }
}
