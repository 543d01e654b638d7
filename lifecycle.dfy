/** Properties of the account lifecycle that span several routes and pages: signup, then email
    confirmation, then the dashboard's routing. */
module Lifecycle {
  import opened Base
  import opened Prisma
  import opened Http
  import UserRouter
  import ConfirmEmail
  import UserStatus
  import PortfolioCreate
  import Dashboard

  /** Signup, then confirmation with the issued token within 24 hours: the new user is verified at
      the confirmation time, the browser is sent to the landing page with that user's id, and the
      same link used again is refused. */
  lemma SignupConfirmReplay(db: Db, input: UserRouter.CreateInput, isEmail: string -> bool,
                            hash: (string, nat) -> string, newUserId: string, token: string,
                            now: int, later: int)
    requires Valid(db)
    requires UserRouter.Create(db, input, isEmail, hash, newUserId, token, now, Healthy).result.Created?
    requires token != "" && now <= later <= now + UserRouter.TokenLifetimeMs
    ensures var signedUp := UserRouter.Create(db, input, isEmail, hash, newUserId, token, now, Healthy).after;
            var req := ConfirmEmail.ConfirmRequest("GET", Single(token));
            var confirmed := ConfirmEmail.Confirm(signedUp, req, later, Healthy);
            && confirmed.response == Redirect(302, ConfirmEmail.LandingLocation(newUserId))
            && confirmed.after.users[newUserId].emailVerified == Some(later)
            && token !in confirmed.after.tokens
            && ConfirmEmail.Confirm(confirmed.after, req, later, Healthy).response == ConfirmEmail.InvalidToken
  {
    var signedUp := UserRouter.Create(db, input, isEmail, hash, newUserId, token, now, Healthy).after;
    assert UserByEmail(signedUp, input.email) == Some(signedUp.users[newUserId]);
    var req := ConfirmEmail.ConfirmRequest("GET", Single(token));
    ConfirmEmail.ReplayIsInvalid(signedUp, req, later, Healthy, later, Healthy);
  }

  /** Signup, then confirmation after the 24 hours: "Token has expired", the token is gone, no user
      is verified, and the same link then gives "Invalid token". */
  lemma SignupExpireReplay(db: Db, input: UserRouter.CreateInput, isEmail: string -> bool,
                           hash: (string, nat) -> string, newUserId: string, token: string,
                           now: int, later: int)
    requires Valid(db)
    requires UserRouter.Create(db, input, isEmail, hash, newUserId, token, now, Healthy).result.Created?
    requires token != "" && later > now + UserRouter.TokenLifetimeMs
    ensures var signedUp := UserRouter.Create(db, input, isEmail, hash, newUserId, token, now, Healthy).after;
            var req := ConfirmEmail.ConfirmRequest("GET", Single(token));
            var expired := ConfirmEmail.Confirm(signedUp, req, later, Healthy);
            && expired.response == ConfirmEmail.TokenExpired
            && expired.after.users == signedUp.users
            && ConfirmEmail.Confirm(expired.after, req, later, Healthy).response == ConfirmEmail.InvalidToken
  {
    var signedUp := UserRouter.Create(db, input, isEmail, hash, newUserId, token, now, Healthy).after;
    var req := ConfirmEmail.ConfirmRequest("GET", Single(token));
    ConfirmEmail.ReplayIsInvalid(signedUp, req, later, Healthy, later, Healthy);
  }

  /** No user's onboarding flag is set in `after` unless it already was in `before`. */
  ghost predicate FlagNotRaised(before: Db, after: Db)
  {
    forall u :: u in after.users && after.users[u].hasFilledForm ==> u in before.users && before.users[u].hasFilledForm
  }

  /** No route of the model sets the onboarding flag: not a signup, ... */
  lemma SignupLeavesFlags(db: Db, input: UserRouter.CreateInput, isEmail: string -> bool, hash: (string, nat) -> string,
                          newUserId: string, token: string, now: int, outage: Outage)
    requires Valid(db)
    ensures FlagNotRaised(db, UserRouter.Create(db, input, isEmail, hash, newUserId, token, now, outage).after)
  {
  }

  /** ... not a confirmation, ... */
  lemma ConfirmLeavesFlags(db: Db, req: ConfirmEmail.ConfirmRequest, now: int, outage: Outage)
    requires Valid(db)
    ensures FlagNotRaised(db, ConfirmEmail.Confirm(db, req, now, outage).after)
  {
  }

  /** ... and not a portfolio creation. */
  lemma PortfolioLeavesFlags(db: Db, session: Option<Session>, httpMethod: string,
                             fields: PortfolioCreate.PortfolioFields, portfolioId: string, insertFails: bool)
    requires Valid(db)
    ensures FlagNotRaised(db, PortfolioCreate.CreatePortfolio(db, session, httpMethod, fields, portfolioId, insertFails).after)
  {
  }

  /** The dashboard, fed the status route's answer for the session's own user, goes to the builder
      exactly when that user exists and has filled the form, and to the form otherwise. */
  lemma DashboardFollowsOnboardingFlag(db: Db, status: SessionStatus, user: SessionUser, lookupFails: bool)
    requires status != Loading && user.id != ""
    ensures var session := Some(Session(Some(user)));
            var reply := UserStatus.Status(db, Single(user.id), lookupFails);
            Dashboard.Navigation(status, session, Dashboard.Parsed(reply.body))
            == Some(if !lookupFails && user.id in db.users && db.users[user.id].hasFilledForm
                    then BuilderPath else FormPath)
  {
  }

  /** A user who has just signed up is sent to the onboarding form by the dashboard. */
  lemma NewUserGoesToForm(db: Db, input: UserRouter.CreateInput, isEmail: string -> bool,
                          hash: (string, nat) -> string, newUserId: string, token: string, now: int,
                          status: SessionStatus, user: SessionUser)
    requires Valid(db)
    requires UserRouter.Create(db, input, isEmail, hash, newUserId, token, now, Healthy).result.Created?
    requires status != Loading && user.id == newUserId && newUserId != ""
    ensures var signedUp := UserRouter.Create(db, input, isEmail, hash, newUserId, token, now, Healthy).after;
            var reply := UserStatus.Status(signedUp, Single(newUserId), false);
            Dashboard.Navigation(status, Some(Session(Some(user))), Dashboard.Parsed(reply.body)) == Some(FormPath)
  {
    DashboardFollowsOnboardingFlag(UserRouter.Create(db, input, isEmail, hash, newUserId, token, now, Healthy).after,
                                   status, user, false);
  }
}
