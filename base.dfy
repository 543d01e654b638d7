/** Values shared by the server handlers and the client pages: optional values,
    Next.js query values, next-auth sessions, and injected store failures. */
module Base {

  datatype Option<+T> = None | Some(value: T)

  /** The application's routes that the pages navigate to. */
  const SignInPath := "/auth/signin"
  const FormPath := "/form"
  const BuilderPath := "/portfolio-builder"

  /** A value of `req.query` / `router.query`: the key is absent, given once, or repeated (an array). */
  datatype QueryValue = Absent | Single(text: string) | Repeated(texts: seq<string>)

  /** JavaScript truthiness of a query value: `undefined` and `""` are falsy, every array is truthy. */
  predicate Truthy(q: QueryValue)
    ensures Truthy(q) <==> q != Absent && q != Single("")
  {
    match q
    case Absent => false
    case Single(t) => t != ""
    case Repeated(_) => true
  }

  /** `session.user` as next-auth exposes it, with the `id` this application adds. */
  datatype SessionUser = SessionUser(id: string, name: Option<string>, email: Option<string>, image: Option<string>)

  /** A resolved session; `user` may be missing. */
  datatype Session = Session(user: Option<SessionUser>)

  /** The `status` reported by `useSession`. */
  datatype SessionStatus = Loading | Authenticated | Unauthenticated

  /** `session?.user?.id` */
  function SessionUserId(session: Option<Session>): (id: Option<string>)
    ensures id.Some? <==> session.Some? && session.value.user.Some?
    ensures id.Some? ==> id.value == session.value.user.value.id
  {
    match session
    case None => None
    case Some(s) => if s.user.Some? then Some(s.user.value.id) else None
  }

  /** Which store call of one request throws (a lost connection, a timeout): none, or the call with
      the given 0-based index in the order the handler issues them. */
  datatype Outage = Healthy | FailsAt(call: nat)

  predicate Fails(o: Outage, call: nat)
  {
    o.FailsAt? && o.call == call
  }
}
