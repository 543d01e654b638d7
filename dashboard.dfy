/** The dashboard's routing effect (src/pages/dashboard.tsx): after the session settles, either
    to the sign-in page, or, by the user's onboarding flag, to the form or the builder. */
module Dashboard {
  import opened Base
  import Http

  /** What one run of the effect does first. `Throws` is a session without a user: reading
      `session.user.id` throws and the effect stops. */
  datatype Effect = Wait | Push(path: string) | FetchStatus(userId: string) | Throws

  function FirstEffect(status: SessionStatus, session: Option<Session>): (e: Effect)
    ensures status == Loading ==> e == Wait
    ensures status != Loading && session.None? ==> e == Push(SignInPath)
    ensures e.FetchStatus? <==> status != Loading && SessionUserId(session).Some?
    ensures e.FetchStatus? ==> e.userId == SessionUserId(session).value
    ensures e == Throws <==> status != Loading && session.Some? && session.value.user.None?
  {
    if status == Loading then Wait
    else match session
      case None => Push(SignInPath)
      case Some(s) => if s.user.Some? then FetchStatus(s.user.value.id) else Throws
  }

  /** `data.hasFilledForm ? '/portfolio-builder' : '/form'` on the parsed status body; an error body
      has no `hasFilledForm` and sends to the form. */
  function RouteForStatus(body: Http.Body): (path: string)
    ensures path == BuilderPath <==> body.FilledFormJson? && body.hasFilledForm
    ensures path == FormPath <==> !(body.FilledFormJson? && body.hasFilledForm)
  {
    if body.FilledFormJson? && body.hasFilledForm then BuilderPath else FormPath
  }

  /** How the status request ends: a parsed JSON body, or a rejected fetch / unparsable body. */
  datatype StatusReply = Parsed(body: Http.Body) | Rejected

  /** The navigation one run of the effect performs, if any. */
  function Navigation(status: SessionStatus, session: Option<Session>, reply: StatusReply): (nav: Option<string>)
    ensures status == Loading ==> nav.None?
    ensures status != Loading && session.None? ==> nav == Some(SignInPath)
    ensures nav.Some? ==> nav.value in {SignInPath, FormPath, BuilderPath}
    ensures status != Loading && SessionUserId(session).Some? && reply.Parsed? ==>
              nav == Some(RouteForStatus(reply.body))
    ensures nav.None? <==>
              status == Loading || (session.Some? && (SessionUserId(session).None? || reply.Rejected?))
  {
    match FirstEffect(status, session)
    case Wait => None
    case Push(p) => Some(p)
    case Throws => None
    case FetchStatus(_) => if reply.Parsed? then Some(RouteForStatus(reply.body)) else None
  }
}
