/** The landing page's account logic (src/pages/index.tsx): when to load the user named in the
    URL, and which user the page shows after an email confirmation or with a session. */
module Landing {
  import opened Base
  import UserRouter

  /** `enabled: !!router.query.userId` */
  function UserQueryEnabled(userId: QueryValue): (enabled: bool)
    ensures enabled <==> userId.Repeated? || (userId.Single? && userId.text != "")
  {
    Truthy(userId)
  }

  /** The user the page shows. */
  datatype Shown = NoUser | VerifiedUser(profile: UserRouter.PublicUser) | SignedInUser(sessionUser: SessionUser)

  /** The page's state: the shown user and the emails of the credentials sign-ins it started. */
  class LandingPage {
    var shown: Shown
    var signIns: seq<string>

    constructor ()
      ensures shown == NoUser && signIns == []
    {
      shown, signIns := NoUser, [];
    }

    /** One run of the effect: `verified` exactly "true" with the user loaded shows that user and
        starts a sign-in with its email; otherwise a session shows its user; otherwise nothing changes. */
    method Effect(verified: QueryValue, userData: Option<UserRouter.PublicUser>, session: Option<Session>)
      modifies this
      ensures verified == Single("true") && userData.Some? ==>
                shown == VerifiedUser(userData.value) && signIns == old(signIns) + [userData.value.email]
      ensures !(verified == Single("true") && userData.Some?) && session.Some? ==>
                shown == (if session.value.user.Some? then SignedInUser(session.value.user.value) else NoUser)
                && signIns == old(signIns)
      ensures !(verified == Single("true") && userData.Some?) && session.None? ==>
                shown == old(shown) && signIns == old(signIns)
    {
      if verified == Single("true") && userData.Some? {
        shown := VerifiedUser(userData.value);
        signIns := signIns + [userData.value.email];
      } else if session.Some? {
        shown := if session.value.user.Some? then SignedInUser(session.value.user.value) else NoUser;
      }
    }

    /** The sign-in's completion: an error is only logged. */
    method SignInSettled(error: Option<string>)
      modifies this
      ensures shown == old(shown) && signIns == old(signIns)
    {
    }
  }
}
