/**
 * The route guard (src/components/ProtectedRoute.tsx): what it renders and where it navigates,
 * given whether the session is still loading, whether a user is signed in, and its two props.
 */
module ProtectedRoute {
  import opened Wrappers

  /** What the guard renders; the access-denied card's button leads to `loginTarget`. */
  datatype View = Loading | AccessDenied(loginTarget: string) | Nothing | Children

  /** The rendered view and the navigation the guard starts by itself, if any. */
  datatype Decision = Decision(view: View, redirect: Option<string>)

  /** The prop defaults: authentication required, redirect to `/login`. */
  const DefaultRequireAuth := true
  const DefaultRedirectTo := "/login"

  /**
   * One render of the guard together with its effect. `requireAuth` and `redirectTo` are the
   * props as passed (`None` when omitted).
   */
  function Decide(isLoading: bool, hasUser: bool, requireAuthProp: Option<bool>, redirectToProp: Option<string>): (d: Decision)
    ensures var requireAuth, redirectTo := requireAuthProp.GetOr(DefaultRequireAuth), redirectToProp.GetOr(DefaultRedirectTo);
      && (isLoading ==> d.view == Loading)
      && (d.view == AccessDenied(redirectTo) <==> !isLoading && requireAuth && !hasUser)
      && (d.view == Nothing <==> !isLoading && !requireAuth && hasUser && redirectTo == "/login")
      && (d.view == Children <==> !isLoading && (hasUser || !requireAuth) && !(!requireAuth && hasUser && redirectTo == "/login"))
      && (!isLoading && requireAuth && !hasUser ==> d.redirect == Some(redirectTo))
      && (d.view == Nothing ==> d.redirect == Some("/"))
      && (d.redirect.Some? <==> d.view.AccessDenied? || d.view == Nothing)
  {
    var requireAuth := requireAuthProp.GetOr(DefaultRequireAuth);
    var redirectTo := redirectToProp.GetOr(DefaultRedirectTo);
    var effect := if !isLoading && requireAuth && !hasUser then Some(redirectTo) else None;
    if isLoading then Decision(Loading, effect)
    else if requireAuth && !hasUser then Decision(AccessDenied(redirectTo), effect)
    else if !requireAuth && hasUser && redirectTo == "/login" then Decision(Nothing, Some("/"))
    else Decision(Children, effect)
  }

  /** With the defaults, a visitor without a session is denied and sent to `/login`. */
  lemma DefaultsGuardPages(hasUser: bool)
    ensures Decide(false, hasUser, None, None) ==
      if hasUser then Decision(Children, None) else Decision(AccessDenied("/login"), Some("/login"))
  {
  }

  /**
   * The login page uses the guard with `requireAuth={false}` and `redirectTo="/"`; once loaded it
   * always shows its form and never navigates, signed in or not: the branch that sends a
   * signed-in user home only fires for `redirectTo == "/login"`.
   */
  lemma LoginPageNeverRedirects(hasUser: bool)
    ensures Decide(false, hasUser, Some(false), Some("/")) == Decision(Children, None)
  {
  }

  /** A page that does not require a session but keeps the default target sends a signed-in user home. */
  lemma SignedInUserLeavesLoginTarget()
    ensures Decide(false, true, Some(false), None) == Decision(Nothing, Some("/"))
  {
  }
}
