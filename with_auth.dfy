/** The authentication wrapper (src/components/withAuth.tsx): render the wrapped page for a
    signed-in user, otherwise render nothing and, once the session has settled, go to sign-in. */
module WithAuth {
  import opened Base

  datatype View = WrappedPage | Nothing

  /** What one render shows and where its effect redirects. */
  datatype Decision = Decision(view: View, redirect: Option<string>)

  function Decide(status: SessionStatus, session: Option<Session>): (d: Decision)
    ensures d.view == WrappedPage <==> SessionUserId(session).Some?
    ensures d.redirect.Some? <==> status != Loading && !SessionUserId(session).Some?
    ensures d.redirect.Some? ==> d.redirect.value == SignInPath
  {
    Decision(if SessionUserId(session).Some? then WrappedPage else Nothing,
             if status == Loading || SessionUserId(session).Some? then None else Some(SignInPath))
  }

  /** The wrapped page is never shown to a visitor who is being sent to sign-in, and a settled
      visitor always gets one of the two. */
  lemma ShowOrRedirect(status: SessionStatus, session: Option<Session>)
    ensures Decide(status, session).view == WrappedPage ==> Decide(status, session).redirect.None?
    ensures status != Loading ==> Decide(status, session).view == WrappedPage || Decide(status, session).redirect.Some?
  {
  }

  /** A static member `getInitialProps` of the wrapped component: missing, a function, or some other value. */
  datatype StaticMember = Missing | FunctionValue(fn: nat) | OtherValue

  /** The wrapper's `getInitialProps`: copied only when the wrapped one is a function. */
  function CopiedInitialProps(wrapped: StaticMember): (copied: Option<nat>)
    ensures copied.Some? <==> wrapped.FunctionValue?
    ensures copied.Some? ==> copied.value == wrapped.fn
  {
    if wrapped.FunctionValue? then Some(wrapped.fn) else None
  }
}
