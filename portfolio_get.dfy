/** The portfolio-fetch route (src/pages/api/portfolio/get.ts): a session check, then a GET-only
    lookup of the session user's portfolio. */
module PortfolioGet {
  import opened Base
  import opened Prisma
  import opened Http

  const FetchFailed := Json(500, ErrorJson("Failed to fetch portfolio"))

  function NotAllowed(httpMethod: string): Response
  {
    Text(405, ["GET"], "Method " + httpMethod + " Not Allowed")
  }

  /** The handler: a response only, the store is never written. The lookup throws when
      `lookupFails` or when the session has no user. */
  function GetPortfolio(db: Db, session: Option<Session>, httpMethod: string, lookupFails: bool): (r: Response)
    ensures session.None? ==> r == Unauthorized
    ensures session.Some? && httpMethod != "GET" ==> r == NotAllowed(httpMethod)
    ensures r.status == 200 <==> session.Some? && httpMethod == "GET" && SessionUserId(session).Some? && !lookupFails
    ensures r.status == 200 ==>
              var owner := SessionUserId(session).value;
              r == Json(200, PortfolioJson(if owner in db.portfolios then Some(db.portfolios[owner]) else None))
    ensures session.Some? && httpMethod == "GET" && r.status != 200 ==> r == FetchFailed
  {
    if session.None? then Unauthorized
    else if httpMethod == "GET" then
      match SessionUserId(session)
      case None => FetchFailed
      case Some(owner) =>
        if lookupFails then FetchFailed
        else Json(200, PortfolioJson(if owner in db.portfolios then Some(db.portfolios[owner]) else None))
    else NotAllowed(httpMethod)
  }

  /** Only the session's own portfolio is ever returned. */
  lemma ReturnsOwnPortfolioOnly(db: Db, session: Option<Session>, httpMethod: string, lookupFails: bool)
    requires Valid(db)
    requires GetPortfolio(db, session, httpMethod, lookupFails).status == 200
    ensures var p := GetPortfolio(db, session, httpMethod, lookupFails).body.portfolio;
            p.Some? ==> p.value.userId == SessionUserId(session).value
  {
  }
}
