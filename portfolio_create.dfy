/** The portfolio-creation route (src/pages/api/portfolio/create.ts): a session check, then a
    POST-only insert of a portfolio owned by the session's user. */
module PortfolioCreate {
  import opened Base
  import opened Prisma
  import opened Http

  /** The fields read from `req.body`. */
  datatype PortfolioFields = PortfolioFields(title: string, description: string)

  const InsertFailed := Json(500, ErrorJson("Failed to create portfolio"))

  function NotAllowed(httpMethod: string): Response
  {
    Text(405, ["POST"], "Method " + httpMethod + " Not Allowed")
  }

  /** The handler. `newId` is the id the store generates. The insert throws when `insertFails`, when
      the session has no user (`session.user.id` is read inside the `try`), when the owner already
      has a portfolio (the owner is unique) or when the owner is not a user. */
  function CreatePortfolio(db: Db, session: Option<Session>, httpMethod: string, fields: PortfolioFields,
                           newId: string, insertFails: bool): (out: Handled)
    requires Valid(db)
    ensures Valid(out.after)
    ensures session.None? ==> out == Handled(Unauthorized, db)
    ensures session.Some? && httpMethod != "POST" ==> out == Handled(NotAllowed(httpMethod), db)
    ensures out.response.status == 201 <==>
              && httpMethod == "POST" && SessionUserId(session).Some? && !insertFails
              && SessionUserId(session).value !in db.portfolios && SessionUserId(session).value in db.users
    ensures out.response.status == 201 ==>
              var owner := SessionUserId(session).value;
              var p := Portfolio(newId, fields.title, fields.description, owner);
              && out.response == Json(201, PortfolioJson(Some(p)))
              && out.after == db.(portfolios := db.portfolios[owner := p])
    ensures out.response.status != 201 ==> out.after == db
    ensures session.Some? && httpMethod == "POST" && out.response.status != 201 ==> out.response == InsertFailed
  {
    if session.None? then Handled(Unauthorized, db)
    else if httpMethod == "POST" then
      match SessionUserId(session)
      case None => Handled(InsertFailed, db)
      case Some(owner) =>
        if insertFails || owner in db.portfolios || owner !in db.users then Handled(InsertFailed, db)
        else
          var p := Portfolio(newId, fields.title, fields.description, owner);
          Handled(Json(201, PortfolioJson(Some(p))), db.(portfolios := db.portfolios[owner := p]))
    else Handled(NotAllowed(httpMethod), db)
  }

  /** The handler as it runs against the store. */
  method HandleCreatePortfolio(store: Store, session: Option<Session>, httpMethod: string, fields: PortfolioFields,
                               newId: string, insertFails: bool) returns (response: Response)
    requires Valid(store.State())
    modifies store
    ensures Handled(response, store.State()) == CreatePortfolio(old(store.State()), session, httpMethod, fields, newId, insertFails)
  {
    if session.None? {
      return Unauthorized;
    }
    if httpMethod == "POST" {
      var owner := SessionUserId(session);
      // portfolio.create({ data: { title, description, userId: session.user.id } })
      if owner.None? || insertFails || owner.value in store.portfolios || owner.value !in store.users {
        return InsertFailed;
      }
      var p := Portfolio(newId, fields.title, fields.description, owner.value);
      store.portfolios := store.portfolios[owner.value := p];
      response := Json(201, PortfolioJson(Some(p)));
    } else {
      response := NotAllowed(httpMethod);
    }
  }
}
