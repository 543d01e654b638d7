/** What an API route handler sends back. */
module Http {
  import opened Base
  import Prisma

  /** The JSON bodies the handlers write. */
  datatype Body =
    | ErrorJson(error: string)
    | FilledFormJson(hasFilledForm: bool)
    | PortfolioJson(portfolio: Option<Prisma.Portfolio>)

  /** The 401 answer of the portfolio routes when there is no session. */
  const Unauthorized := Json(401, ErrorJson("Unauthorized"))

  datatype Response =
    | Json(status: int, body: Body)                         // res.status(s).json(body)
    | Redirect(status: int, location: string)               // res.redirect(s, location)
    | Text(status: int, allow: seq<string>, text: string)   // res.setHeader('Allow', ...); res.status(s).end(text)

  /** The response, and the store as the handler left it. */
  datatype Handled = Handled(response: Response, after: Prisma.Db)
}
