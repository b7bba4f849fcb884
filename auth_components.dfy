/**
 * The permission gate components (`AuthWrap`, and `AuthPopconfirm` and
 * `AuthConfirm`, which wrap their own element in it). A rendered result is
 * `None` for React's `null`; `perms` is the session's granted list, which the
 * gate reads through `checkPermissions`.
 */
module AuthComponents {
  import opened Wrappers
  import opened Permissions

  /** `AuthWrap`: the children when the code is granted and `hidden` is off, else `fallback`. */
  function AuthWrap<T>(perms: seq<string>, code: string, children: T,
                       hidden: bool := false, fallback: Option<T> := None): Option<T>
  {
    var isPermission := Granted(perms, code);
    if isPermission && !hidden then Some(children) else fallback
  }

  /** The gate renders the children exactly when it passes, and otherwise the fallback, `null` by default. */
  lemma AuthWrapIff<T>(perms: seq<string>, code: string, children: T, hidden: bool, fallback: Option<T>)
    ensures Granted(perms, code) && !hidden ==> AuthWrap(perms, code, children, hidden, fallback) == Some(children)
    ensures !(Granted(perms, code) && !hidden) ==> AuthWrap(perms, code, children, hidden, fallback) == fallback
    ensures AuthWrap(perms, code, children) == (if Granted(perms, code) then Some(children) else None)
  {
  }

  /** A gate with `hidden` set renders only the fallback, whatever the permissions. */
  lemma HiddenRendersFallback<T>(perms: seq<string>, code: string, children: T, fallback: Option<T>)
    ensures AuthWrap(perms, code, children, true, fallback) == fallback
  {
  }

  /** The elements the two wrappers place inside the gate. */
  datatype Gated<T> =
    | Popconfirm(title: string, description: Option<string>, child: T)
    | ConfirmTrigger(className: Option<string>, child: T)

  /** `AuthPopconfirm`: a popconfirm around the children, gated by `code` and `hidden`. */
  function AuthPopconfirm<T>(perms: seq<string>, code: string, children: T, title: string,
                             description: Option<string>, hidden: bool := false): Option<Gated<T>>
  {
    AuthWrap(perms, code, Popconfirm(title, description, children), hidden)
  }

  /**
   * `AuthConfirm`: a clickable span that opens the confirmation dialog, gated
   * by `props.code` and `props.hidden`; an absent `hidden` takes the gate's default.
   */
  function AuthConfirm<T>(perms: seq<string>, code: string, children: T, hidden: Option<bool>,
                          className: Option<string>): Option<Gated<T>>
  {
    if hidden.None? then AuthWrap(perms, code, ConfirmTrigger(className, children))
    else AuthWrap(perms, code, ConfirmTrigger(className, children), hidden.value)
  }

  /** Both wrappers are visible exactly when the plain gate on the same code and flag is. */
  lemma WrappersForwardGate<T>(perms: seq<string>, code: string, children: T, title: string,
                               description: Option<string>, hidden: bool, className: Option<string>)
    ensures AuthPopconfirm(perms, code, children, title, description, hidden).Some? <==>
      AuthWrap(perms, code, children, hidden).Some?
    ensures AuthConfirm(perms, code, children, Some(hidden), className).Some? <==>
      AuthWrap(perms, code, children, hidden).Some?
    ensures AuthConfirm(perms, code, children, None, className).Some? <==>
      AuthWrap(perms, code, children).Some?
    ensures AuthPopconfirm(perms, code, children, title, description, hidden).Some? ==>
      AuthPopconfirm(perms, code, children, title, description, hidden).value.child == children
    ensures AuthConfirm(perms, code, children, Some(hidden), className).Some? ==>
      AuthConfirm(perms, code, children, Some(hidden), className).value.child == children
  {
  }

  /** The wrappers pass no fallback: a denied wrapper renders nothing. */
  lemma WrappersRenderNullWhenDenied<T>(perms: seq<string>, code: string, children: T, title: string,
                                        description: Option<string>, className: Option<string>)
    requires !Granted(perms, code)
    ensures AuthPopconfirm(perms, code, children, title, description) == None
    ensures AuthConfirm(perms, code, children, None, className) == None
  {
  }
}
