/**
 * Regenerating a user's api key: who may do it, which users it applies to,
 * what it changes, and where it redirects.
 */
module AuthenticationController {
  import opened Php

  const RoleAdmin: string := "ROLE_ADMIN"
  const RoleSuperAdmin: string := "ROLE_SUPER_ADMIN"
  const EditRoute: string := "KunstmaanUserManagementBundle_settings_users_edit"
  const NoApiKeyMessage: string := "user needs to have api key implemented"

  /** A stored user: whether its class has an api key, and the key. */
  datatype StoredUser = StoredUser(username: string, hasApiKey: bool, apiKey: Option<string>)

  /** The redirect answer: a route name and its `id` parameter. */
  datatype Redirect = Redirect(route: string, id: int)

  /** Why a regeneration is refused. */
  datatype KeyError = AccessDenied(role: string) | BadRequest(message: string)

  /** Changing your own key needs `ROLE_ADMIN`; anyone else's needs `ROLE_SUPER_ADMIN`. */
  function RequiredRole(callerId: int, id: int): (role: string)
    ensures role == RoleAdmin <==> callerId == id
    ensures role == RoleSuperAdmin <==> callerId != id
  {
    if id == callerId then RoleAdmin else RoleSuperAdmin
  }

  /**
   * The decision `generateKeyAction` takes, given the caller's id, the
   * access decision for each role and the stored users: denied access
   * first, then a missing user or one without an api key, else a redirect
   * to the edit page for the same id.
   */
  function Regeneration(callerId: int, isGranted: string -> bool, users: map<int, StoredUser>, id: int)
    : (r: Result<Redirect, KeyError>)
    ensures !isGranted(RequiredRole(callerId, id)) ==> r == Failure(AccessDenied(RequiredRole(callerId, id)))
    ensures r.Success? <==> isGranted(RequiredRole(callerId, id)) && id in users && users[id].hasApiKey
    ensures r.Success? ==> r.value == Redirect(EditRoute, id)
    ensures isGranted(RequiredRole(callerId, id)) && (id !in users || !users[id].hasApiKey) ==>
      r == Failure(BadRequest(NoApiKeyMessage))
  {
    var role := RequiredRole(callerId, id);
    if !isGranted(role) then Failure(AccessDenied(role))
    else if id !in users || !users[id].hasApiKey then Failure(BadRequest(NoApiKeyMessage))
    else Success(Redirect(EditRoute, id))
  }

  /** The role check comes before any lookup: a denied caller gets the same answer whatever is stored. */
  lemma DeniedRegardlessOfStore(callerId: int, isGranted: string -> bool,
                                users1: map<int, StoredUser>, users2: map<int, StoredUser>, id: int)
    requires !isGranted(RequiredRole(callerId, id))
    ensures Regeneration(callerId, isGranted, users1, id) == Regeneration(callerId, isGranted, users2, id)
  {
  }

  /**
   * With the usual role hierarchy (a super admin is also an admin), anyone
   * allowed to change another user's key may change their own.
   */
  lemma SuperAdminMayChangeOwnKey(callerId: int, isGranted: string -> bool, users: map<int, StoredUser>, other: int)
    requires isGranted(RoleSuperAdmin) ==> isGranted(RoleAdmin)
    requires other != callerId
    requires Regeneration(callerId, isGranted, users, other).Success?
    requires callerId in users && users[callerId].hasApiKey
    ensures Regeneration(callerId, isGranted, users, callerId).Success?
  {
  }

  /** The user table of the configured user class. */
  class UserStore {
    var users: map<int, StoredUser>

    constructor (users: map<int, StoredUser>)
      ensures this.users == users
    {
      this.users := users;
    }

    /**
     * `generateKeyAction`. `freshKey` is the generated key. On success only
     * the target's api key changes, to `freshKey`; on any refusal nothing
     * changes.
     */
    method GenerateKeyAction(callerId: int, isGranted: string -> bool, id: int, freshKey: string)
      returns (r: Result<Redirect, KeyError>)
      modifies this
      ensures r == Regeneration(callerId, isGranted, old(users), id)
      ensures r.Failure? ==> users == old(users)
      ensures r.Success? ==> users == old(users)[id := old(users)[id].(apiKey := Some(freshKey))]
    {
      var requiredRole := RequiredRole(callerId, id);
      if !isGranted(requiredRole) {
        return Failure(AccessDenied(requiredRole));
      }
      if id !in users || !users[id].hasApiKey {
        return Failure(BadRequest(NoApiKeyMessage));
      }
      users := users[id := users[id].(apiKey := Some(freshKey))];
      r := Success(Redirect(EditRoute, id));
    }
  }
}
