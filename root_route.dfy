/**
 * The navigation guard of the root route (`beforeLoad`): a decision over the
 * session token, the granted codes and the target path.
 */
module RootRoute {
  import opened Wrappers
  import opened Strings
  import opened Permissions
  import AuthStore

  /** The guard either lets the navigation proceed or throws a redirect. */
  datatype Navigation = Proceed | Redirect(to: string)

  /**
   * `beforeLoad` as written: without a token only `/login` is reachable; with
   * one, `/login` goes home, `/` is let through, and every other path, the
   * error pages included, needs the permission of its path code.
   */
  function BeforeLoad(token: Option<string>, perms: seq<string>, path: string): Navigation
  {
    if !AuthStore.HasToken(token) then
      if path != "/login" then Redirect("/login") else Proceed
    else if path == "/login" then Redirect("/")
    else if path == "/" then Proceed
    else if !Granted(perms, FormatPathCode(path)) then Redirect("/403")
    else Proceed
  }

  /**
   * The decision table: which navigations proceed, and that each redirect
   * goes to `/login`, `/` or `/403` for the stated reason.
   */
  lemma BeforeLoadDecision(token: Option<string>, perms: seq<string>, path: string)
    ensures var nav := BeforeLoad(token, perms, path);
      && (nav == Proceed <==>
            (!AuthStore.HasToken(token) && path == "/login") ||
            (AuthStore.HasToken(token) && path == "/") ||
            (AuthStore.HasToken(token) && path != "/login" && path != "/" &&
             Granted(perms, FormatPathCode(path))))
      && (nav == Redirect("/login") <==> !AuthStore.HasToken(token) && path != "/login")
      && (nav == Redirect("/") <==> AuthStore.HasToken(token) && path == "/login")
      && (nav == Redirect("/403") <==>
            AuthStore.HasToken(token) && path != "/login" && path != "/" &&
            !Granted(perms, FormatPathCode(path)))
  {
  }

  /** The guard reads the session exactly through `checkMenuPermissions`. */
  method BeforeLoadOn(store: AuthStore.AuthState, path: string) returns (nav: Navigation)
    ensures nav == BeforeLoad(store.token, AuthStore.PermissionsOf(store.userInfo), path)
  {
    if !AuthStore.HasToken(store.token) {
      nav := if path != "/login" then Redirect("/login") else Proceed;
    } else if path == "/login" {
      nav := Redirect("/");
    } else if path == "/" {
      nav := Proceed;
    } else {
      var isPermission := store.CheckMenuPermissions(path);
      nav := if !isPermission then Redirect("/403") else Proceed;
    }
  }

  /**
   * As written, the forbidden page is itself guarded by the code `403:list`:
   * a signed-in user whose list grants neither that code nor `403:*` nor `*`
   * is redirected from `/403` to `/403` again.
   */
  lemma ForbiddenPageRedirectsToItself(token: Option<string>, perms: seq<string>, path: string)
    requires AuthStore.HasToken(token) && path == "/403"
    requires "*" !in perms && "403:list" !in perms && "403:*" !in perms
    ensures BeforeLoad(token, perms, path) == Redirect(path)
  {
    FormatTopLevelPage("403");
    SingleSegmentListGrantedIff(perms, "403");
    assert "403" + ":list" == "403:list" && "403" + ":*" == "403:*";
  }

  /** The redirect loop happens for a user holding every code of the user pages. */
  lemma ForbiddenPageLoopExample(token: Option<string>)
    requires AuthStore.HasToken(token)
    ensures BeforeLoad(token, ["system:user:*"], "/403") == Redirect("/403")
  {
    ForbiddenPageRedirectsToItself(token, ["system:user:*"], "/403");
  }

  /** The error pages that must stay reachable for every signed-in user. */
  predicate IsErrorPage(path: string)
  {
    path == "/403" || path == "/404"
  }

  /** The guard with the error pages exempt from the permission check, like `/`. */
  function BeforeLoadFixed(token: Option<string>, perms: seq<string>, path: string): Navigation
  {
    if !AuthStore.HasToken(token) then
      if path != "/login" then Redirect("/login") else Proceed
    else if path == "/login" then Redirect("/")
    else if path == "/" || IsErrorPage(path) then Proceed
    else if !Granted(perms, FormatPathCode(path)) then Redirect("/403")
    else Proceed
  }

  /** With the exemption every redirect lands on a page the guard then lets through. */
  lemma FixedRedirectsSettle(token: Option<string>, perms: seq<string>, path: string)
    ensures BeforeLoadFixed(token, perms, path).Redirect? ==>
      BeforeLoadFixed(token, perms, BeforeLoadFixed(token, perms, path).to) == Proceed
  {
  }

  /** The exemption changes only the error pages: everywhere else the two guards agree. */
  lemma FixedAgreesOffErrorPages(token: Option<string>, perms: seq<string>, path: string)
    requires !IsErrorPage(path)
    ensures BeforeLoadFixed(token, perms, path) == BeforeLoad(token, perms, path)
  {
  }
}
