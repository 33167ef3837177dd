/**
 * The sign-in / sign-up page: the length rules of its two forms, the active
 * tab, and the redirect taken when a user is already signed in
 * (src/pages/Auth.tsx).
 */
module Auth {
  import opened Wrappers

  datatype SignInValues = SignInValues(email: string, password: string)
  datatype SignUpValues = SignUpValues(fullName: string, email: string, password: string)

  datatype AuthTab = SignInTab | SignUpTab

  /** What the page renders. */
  datatype AuthView = RedirectHome | Forms(tab: AuthTab)

  /** `signInSchema` without its e-mail format rule: the fields whose length rule fails. */
  function SignInIssues(v: SignInValues): (r: seq<string>)
    ensures "password" in r <==> |v.password| < 6
    ensures r == [] <==> |v.password| >= 6
  {
    if |v.password| < 6 then ["password"] else []
  }

  /** `signUpSchema` without its e-mail format rule: the fields whose length rule fails, in form order. */
  function SignUpIssues(v: SignUpValues): (r: seq<string>)
    ensures "fullName" in r <==> |v.fullName| < 2
    ensures "password" in r <==> |v.password| < 6
    ensures r == [] <==> |v.fullName| >= 2 && |v.password| >= 6
  {
    (if |v.fullName| < 2 then ["fullName"] else [])
    + (if |v.password| < 6 then ["password"] else [])
  }

  /** The two forms share the password rule: a sign-up password passes exactly when it would pass at sign-in. */
  lemma PasswordRuleShared(up: SignUpValues)
    requires |up.fullName| >= 2
    ensures SignUpIssues(up) == SignInIssues(SignInValues(up.email, up.password))
  {
  }

  /** The page's local state. */
  class AuthPage {
    var activeTab: AuthTab

    constructor ()
      ensures activeTab == SignInTab
    {
      activeTab := SignInTab;
    }

    /** A signed-in user is sent home; otherwise the forms are shown on the active tab. */
    function View(user: Option<string>): (r: AuthView)
      reads this
      ensures r == RedirectHome <==> user.Some?
      ensures user.None? ==> r.tab == activeTab
    {
      if user.Some? then RedirectHome else Forms(activeTab)
    }

    /** The tab triggers. */
    method OnTabChange(tab: AuthTab)
      modifies this
      ensures activeTab == tab
    {
      activeTab := tab;
    }

    /**
     * `handleSignUp`: after a successful sign-up the page returns to the
     * sign-in tab; a failed one (reported by the auth context) leaves it as
     * it was. `succeeded` is the outcome of the remote call.
     */
    method HandleSignUp(values: SignUpValues, succeeded: bool)
      requires SignUpIssues(values) == []
      modifies this
      ensures succeeded ==> activeTab == SignInTab
      ensures !succeeded ==> activeTab == old(activeTab)
    {
      if succeeded {
        activeTab := SignInTab;
      }
    }

    /** `handleSignIn`: a successful sign-in navigates home; a failed one stays on the page. */
    method HandleSignIn(values: SignInValues, succeeded: bool) returns (navigateHome: bool)
      requires SignInIssues(values) == []
      ensures navigateHome <==> succeeded
    {
      navigateHome := succeeded;
    }
  }
}
