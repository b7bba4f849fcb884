/**
 * The client's session store (`useAuthStore`): the current token and user
 * record, the actions that replace them, and the permission checks that
 * read them. The browser persistence layer is not part of this model.
 */
module AuthStore {
  import opened Wrappers
  import opened Strings
  import opened Permissions

  /**
   * The user record the backend returns at login. `AvatarOnly` is the record
   * that `updateAvatar` builds when there is no user yet: spreading `null`
   * contributes no fields, so only `avatarUrl` is present.
   */
  datatype UserInfo =
    | UserInfo(id: int, username: string, realName: Option<string>, avatarUrl: Option<string>,
               permissions: seq<string>, isSystem: bool)
    | AvatarOnly(avatarUrl: Option<string>)

  /** `userInfo?.permissions || []`: the granted codes, empty when there is no list. */
  function PermissionsOf(userInfo: Option<UserInfo>): (perms: seq<string>)
    ensures userInfo.Some? && userInfo.value.UserInfo? ==> perms == userInfo.value.permissions
    ensures userInfo.None? || userInfo.value.AvatarOnly? ==> perms == []
  {
    match userInfo
    case Some(UserInfo(_, _, _, _, permissions, _)) => permissions
    case _ => []
  }

  /** JavaScript truthiness of the token: both `null` and `''` mean "no token". */
  predicate HasToken(token: Option<string>)
  {
    TruthyString(token)
  }

  /** The record `{...userInfo, avatarUrl}` built by `updateAvatar`. */
  function WithAvatar(userInfo: Option<UserInfo>, avatarUrl: string): (u: UserInfo)
    ensures u.avatarUrl == Some(avatarUrl)
    ensures userInfo.Some? ==> u == userInfo.value.(avatarUrl := Some(avatarUrl))
    ensures userInfo.None? ==> u == AvatarOnly(Some(avatarUrl))
  {
    match userInfo
    case Some(v) => v.(avatarUrl := Some(avatarUrl))
    case None => AvatarOnly(Some(avatarUrl))
  }

  /** `updateAvatar` keeps every field of an existing record except the avatar. */
  lemma WithAvatarKeepsFields(v: UserInfo, avatarUrl: string)
    requires v.UserInfo?
    ensures WithAvatar(Some(v), avatarUrl).UserInfo?
    ensures var u := WithAvatar(Some(v), avatarUrl);
      u.id == v.id && u.username == v.username && u.realName == v.realName &&
      u.permissions == v.permissions && u.isSystem == v.isSystem
  {
  }

  /** The store: a process-wide holder of the token and the user record. */
  class AuthState {
    var token: Option<string>
    var userInfo: Option<UserInfo>

    /** The initial state: no token, no user. */
    constructor ()
      ensures token == None && userInfo == None
    {
      token := None;
      userInfo := None;
    }

    /** `handleLogin`: sets both fields. */
    method HandleLogin(newToken: string, newUserInfo: UserInfo)
      modifies this
      ensures token == Some(newToken) && userInfo == Some(newUserInfo)
    {
      token := Some(newToken);
      userInfo := Some(newUserInfo);
    }

    /** `updateToken`: replaces the token only. */
    method UpdateToken(newToken: string)
      modifies this
      ensures token == Some(newToken) && userInfo == old(userInfo)
    {
      token := Some(newToken);
    }

    /** `updateAvatar`: replaces the avatar of the user record only. */
    method UpdateAvatar(avatarUrl: string)
      modifies this
      ensures token == old(token)
      ensures userInfo == Some(WithAvatar(old(userInfo), avatarUrl))
    {
      userInfo := Some(WithAvatar(userInfo, avatarUrl));
    }

    /** `updateUserInfo`: replaces the user record only. */
    method UpdateUserInfo(newUserInfo: UserInfo)
      modifies this
      ensures token == old(token) && userInfo == Some(newUserInfo)
    {
      userInfo := Some(newUserInfo);
    }

    /** `clearAuth`: logout or forced invalidation. */
    method ClearAuth()
      modifies this
      ensures token == None && userInfo == None
    {
      token := None;
      userInfo := None;
    }

    /**
     * `checkPermissions`: the early returns of the source, then the loop that
     * tries `prefix:*` from the longest strict prefix down to one segment.
     */
    method CheckPermissions(code: string) returns (granted: bool)
      ensures granted == Granted(PermissionsOf(userInfo), code)
    {
      var permissions := PermissionsOf(userInfo);
      if |permissions| == 0 {
        return false;
      }
      if "*" in permissions {
        return true;
      }
      if code in permissions {
        return true;
      }
      var codeArr := Split(code, ':');
      var i := |codeArr| - 1;
      while i > 0
        invariant 0 <= i < |codeArr|
        invariant forall j :: i < j < |codeArr| ==> WildcardAt(codeArr, j) !in permissions
      {
        var prefix := Join(codeArr[..i], ':') + ":*";
        if prefix in permissions {
          assert WildcardAt(codeArr, i) in permissions;
          return true;
        }
        i := i - 1;
      }
      return false;
    }

    /** `checkMenuPermissions`: the permission check of a route path's code. */
    method CheckMenuPermissions(path: string) returns (granted: bool)
      ensures granted == Granted(PermissionsOf(userInfo), FormatPathCode(path))
    {
      var code := FormatPathCode(path);
      granted := CheckPermissions(code);
    }
  }

  /** After login the store grants exactly what the user's list grants. */
  method LoginThenCheck(token: string, user: UserInfo, code: string) returns (granted: bool)
    requires user.UserInfo?
    ensures granted == Granted(user.permissions, code)
  {
    var store := new AuthState();
    store.HandleLogin(token, user);
    granted := store.CheckPermissions(code);
  }

  /** After `clearAuth` the store denies every code. */
  method ClearThenCheck(store: AuthState, code: string) returns (granted: bool)
    modifies store
    ensures !granted
  {
    store.ClearAuth();
    granted := store.CheckPermissions(code);
  }
}
