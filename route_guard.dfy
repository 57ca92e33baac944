/**
 * The global navigation guard installed before every route transition: a
 * logged-out user is sent to the login view, a logged-in user is sent away
 * from it, and every other transition proceeds.
 */
module RouteGuard {
  import opened Wrappers

  const LOGIN: string := "Login"

  /** A redirect target, `{ name: ... }`. */
  datatype Redirect = Redirect(name: string)

  /**
   * The guard's decision for a target route name (`None` for an unnamed
   * route); `None` as result means navigation proceeds.
   */
  function BeforeEach(isLoggedIn: bool, toName: Option<string>): (r: Option<Redirect>)
    ensures r == Some(Redirect(LOGIN)) <==> !isLoggedIn && toName != Some(LOGIN)
    ensures r == Some(Redirect("")) <==> isLoggedIn && toName == Some(LOGIN)
    ensures r == None <==> (isLoggedIn <==> toName != Some(LOGIN))
  {
    if !isLoggedIn && toName != Some(LOGIN) then Some(Redirect(LOGIN))
    else if isLoggedIn && toName == Some(LOGIN) then Some(Redirect(""))
    else None
  }

  /** A redirect never names the route that was requested. */
  lemma NeverRedirectsToRequested(isLoggedIn: bool, toName: Option<string>)
    ensures BeforeEach(isLoggedIn, toName).Some? ==>
              Some(BeforeEach(isLoggedIn, toName).value.name) != toName
  {
  }

  /** Following a redirect with the same login state is let through. */
  lemma SettlesAfterOneRedirect(isLoggedIn: bool, toName: Option<string>)
    ensures BeforeEach(isLoggedIn, toName).Some? ==>
              BeforeEach(isLoggedIn, Some(BeforeEach(isLoggedIn, toName).value.name)) == None
  {
  }
}
