/** The onboarding-status route (src/pages/api/user-status.ts): one read-only lookup by id. */
module UserStatus {
  import opened Base
  import opened Prisma
  import opened Http

  const MissingId := Json(400, ErrorJson("User ID is required"))
  const NotFound := Json(404, ErrorJson("User not found"))
  const ServerError := Json(500, ErrorJson("An error occurred while fetching user status"))

  /** The handler for `?userId=...`. A repeated `userId` reaches the store as an array, which the
      store rejects, so it ends like a failing lookup. */
  function Status(db: Db, userId: QueryValue, lookupFails: bool): (r: Response)
    ensures r.Json?
    ensures !Truthy(userId) ==> r == MissingId
    ensures r.status == 200 <==> userId.Single? && userId.text != "" && !lookupFails && userId.text in db.users
    ensures r.status == 200 ==> r == Json(200, FilledFormJson(db.users[userId.text].hasFilledForm))
    ensures r == NotFound <==> userId.Single? && userId.text != "" && !lookupFails && userId.text !in db.users
    ensures r == ServerError <==> Truthy(userId) && (lookupFails || userId.Repeated?)
  {
    if !Truthy(userId) then MissingId
    else if lookupFails || userId.Repeated? then ServerError
    else if userId.text !in db.users then NotFound
    else Json(200, FilledFormJson(db.users[userId.text].hasFilledForm))
  }
}
