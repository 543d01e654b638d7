/** The email-confirmation route (src/pages/api/confirm-email.ts): a GET carrying a single-use
    token, checked for existence and expiry, then the user update and the token deletion. */
module ConfirmEmail {
  import opened Base
  import opened Prisma
  import opened Http

  datatype ConfirmRequest = ConfirmRequest(httpMethod: string, token: QueryValue)

  const MethodNotAllowed := Json(405, ErrorJson("Method not allowed"))
  const InvalidToken := Json(400, ErrorJson("Invalid token"))
  const TokenExpired := Json(400, ErrorJson("Token has expired"))
  const ServerError := Json(500, ErrorJson("An error occurred while confirming the email"))

  function LandingLocation(userId: string): string
  {
    "/landing?verified=true&userId=" + userId
  }

  /** `!token || typeof token !== 'string'` is false: one non-empty token string. */
  predicate TokenGiven(q: QueryValue)
  {
    q.Single? && q.text != ""
  }

  /** The handler. Store calls, in order: 0 the token lookup; 1 the delete of an expired token, or
      the user update; 2 the delete of a consumed token. `now` is the request-time clock. */
  function Confirm(db: Db, req: ConfirmRequest, now: int, outage: Outage): (out: Handled)
    requires Valid(db)
    ensures Valid(out.after)
    ensures req.httpMethod != "GET" ==> out == Handled(MethodNotAllowed, db)
    ensures out.response == MethodNotAllowed <==> req.httpMethod != "GET"
    ensures req.httpMethod == "GET" && !TokenGiven(req.token) ==> out == Handled(InvalidToken, db)
    ensures out.response == InvalidToken ==> out.after == db
    ensures out.response == InvalidToken <==>
              req.httpMethod == "GET" && (!TokenGiven(req.token) || (!Fails(outage, 0) && req.token.text !in db.tokens))
    ensures out.response == TokenExpired <==>
              && req.httpMethod == "GET" && TokenGiven(req.token) && !Fails(outage, 0) && !Fails(outage, 1)
              && req.token.text in db.tokens && db.tokens[req.token.text].expires < now
    ensures out.response == TokenExpired ==>
              out.after == db.(tokens := db.tokens - {req.token.text})
    ensures out.response.Redirect? <==>
              && req.httpMethod == "GET" && TokenGiven(req.token)
              && !Fails(outage, 0) && !Fails(outage, 1) && !Fails(outage, 2)
              && req.token.text in db.tokens && now <= db.tokens[req.token.text].expires
              && UserByEmail(db, db.tokens[req.token.text].identifier).Some?
    ensures out.response.Redirect? ==>
              && req.httpMethod == "GET" && TokenGiven(req.token) && req.token.text in db.tokens
              && var t := db.tokens[req.token.text];
              && now <= t.expires
              && UserByEmail(db, t.identifier).Some?
              && var u := UserByEmail(db, t.identifier).value;
              && out.response == Redirect(302, LandingLocation(u.id))
              && out.after == db.(users := db.users[u.id := u.(emailVerified := Some(now))],
                                  tokens := db.tokens - {req.token.text})
    ensures out.response == ServerError ==>
              out.after == db || out.after.tokens == db.tokens
    ensures out.response == ServerError && out.after != db ==>
              && Fails(outage, 2) && req.token.Single? && req.token.text in db.tokens
              && UserByEmail(db, db.tokens[req.token.text].identifier).Some?
              && var u := UserByEmail(db, db.tokens[req.token.text].identifier).value;
              && out.after == db.(users := db.users[u.id := u.(emailVerified := Some(now))])
    ensures out.response in {MethodNotAllowed, InvalidToken, TokenExpired, ServerError} || out.response.Redirect?
  {
    if req.httpMethod != "GET" then Handled(MethodNotAllowed, db)
    else if !TokenGiven(req.token) then Handled(InvalidToken, db)
    else
      var key := req.token.text;
      if Fails(outage, 0) then Handled(ServerError, db)
      else if key !in db.tokens then Handled(InvalidToken, db)
      else
        var vt := db.tokens[key];
        if vt.expires < now then
          if Fails(outage, 1) then Handled(ServerError, db)
          else Handled(TokenExpired, db.(tokens := db.tokens - {key}))
        else
          match UserByEmail(db, vt.identifier)
          case None => Handled(ServerError, db)  // user.update finds no row and throws
          case Some(u) =>
            if Fails(outage, 1) then Handled(ServerError, db)
            else
              var verified := db.(users := db.users[u.id := u.(emailVerified := Some(now))]);
              if Fails(outage, 2) then Handled(ServerError, verified)
              else Handled(Redirect(302, LandingLocation(u.id)), verified.(tokens := db.tokens - {key}))
  }

  /** The handler as it runs against the store: guards with early returns, then the awaited
      store calls in the source's order. */
  method HandleConfirm(store: Store, req: ConfirmRequest, now: int, outage: Outage) returns (response: Response)
    requires Valid(store.State())
    modifies store
    ensures Handled(response, store.State()) == Confirm(old(store.State()), req, now, outage)
  {
    if req.httpMethod != "GET" {
      return MethodNotAllowed;
    }
    if !TokenGiven(req.token) {
      return InvalidToken;
    }
    var key := req.token.text;
    // verificationToken.findUnique({ where: { token } })
    if Fails(outage, 0) {
      return ServerError;
    }
    if key !in store.tokens {
      return InvalidToken;
    }
    var vt := store.tokens[key];
    if vt.expires < now {
      // verificationToken.delete({ where: { token } })
      if Fails(outage, 1) {
        return ServerError;
      }
      store.tokens := store.tokens - {key};
      return TokenExpired;
    }
    // user.update({ where: { email: identifier }, data: { emailVerified: now } })
    if Fails(outage, 1) || vt.identifier !in store.emailIndex {
      return ServerError;
    }
    var user := store.users[store.emailIndex[vt.identifier]];
    store.users := store.users[user.id := user.(emailVerified := Some(now))];
    // verificationToken.delete({ where: { token } })
    if Fails(outage, 2) {
      return ServerError;
    }
    store.tokens := store.tokens - {key};
    response := Redirect(302, LandingLocation(user.id));
  }

  /** A token is single-use: once a confirmation has consumed it or found it expired, the same
      request is answered "Invalid token", whatever the clock says. */
  lemma ReplayIsInvalid(db: Db, req: ConfirmRequest, now: int, outage: Outage, later: int, outage2: Outage)
    requires Valid(db)
    requires Confirm(db, req, now, outage).response.Redirect? || Confirm(db, req, now, outage).response == TokenExpired
    requires !Fails(outage2, 0)
    ensures Confirm(Confirm(db, req, now, outage).after, req, later, outage2).response == InvalidToken
  {
  }

  /** The expiry check is strict: a token whose expiry equals the request time is still accepted. */
  lemma ExpiryInstantIsAccepted(db: Db, token: string, outage: Outage)
    requires Valid(db)
    requires token != "" && token in db.tokens && UserByEmail(db, db.tokens[token].identifier).Some?
    requires outage == Healthy
    ensures var now := db.tokens[token].expires;
            Confirm(db, ConfirmRequest("GET", Single(token)), now, outage).response.Redirect?
  {
  }

  /** The user update comes before the token delete: if the update fails (no user has the token's
      email, or the store throws) the token survives for a later attempt. */
  lemma FailedUpdateKeepsToken(db: Db, token: string, now: int, outage: Outage)
    requires Valid(db)
    requires token != "" && token in db.tokens && now <= db.tokens[token].expires
    requires !Fails(outage, 0)
    requires UserByEmail(db, db.tokens[token].identifier).None? || Fails(outage, 1)
    ensures Confirm(db, ConfirmRequest("GET", Single(token)), now, outage) == Handled(ServerError, db)
  {
  }

  /** If the final delete fails, the user is already verified but the token survives, so a retry
      verifies again and moves `emailVerified` to the retry's time. */
  lemma FailedDeleteVerifiesAndKeepsToken(db: Db, token: string, now: int)
    requires Valid(db)
    requires token != "" && token in db.tokens && now <= db.tokens[token].expires
    requires UserByEmail(db, db.tokens[token].identifier).Some?
    ensures var u := UserByEmail(db, db.tokens[token].identifier).value;
            Confirm(db, ConfirmRequest("GET", Single(token)), now, FailsAt(2))
            == Handled(ServerError, db.(users := db.users[u.id := u.(emailVerified := Some(now))]))
  {
  }
}
