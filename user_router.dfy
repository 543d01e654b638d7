/** The tRPC user router (src/server/api/routers/user.ts): account creation with its
    verification token, the public user projection, and the subscription status. */
module UserRouter {
  import opened Base
  import opened Prisma
  import Strings

  datatype CreateInput = CreateInput(name: string, email: string, password: string)

  /** The tRPC errors `create` can end with. */
  datatype TrpcError = BadRequest | Conflict(message: string) | InternalServerError

  datatype CreateResult = Created(user: User, confirmationLink: string) | Failed(error: TrpcError)

  /** The outcome of a `create` call and the store it leaves behind. */
  datatype CreateOutcome = CreateOutcome(result: CreateResult, after: Db)

  const ConflictMessage := "An account with this email already exists."
  const BcryptRounds := 12
  /** 24 hours in milliseconds. */
  const TokenLifetimeMs := 24 * 60 * 60 * 1000
  const ConfirmLinkPrefix := "http://localhost:3000/api/confirm-email?token="

  /** The input schema: a non-empty name, an email the schema library accepts (`isEmail`), and a
      password of at least 8 UTF-16 code units. */
  predicate InputAccepted(input: CreateInput, isEmail: string -> bool)
    ensures InputAccepted(input, isEmail) ==> input.name != "" && |input.password| >= 4
    ensures InputAccepted(input, isEmail) ==> isEmail(input.email)
  {
    Strings.Utf16Length(input.name) >= 1 && isEmail(input.email) && Strings.Utf16Length(input.password) >= 8
  }

  /** The row `user.create` inserts: name, email and the hashed password; every other column at its default. */
  function NewUser(id: string, input: CreateInput, hashed: string): User
  {
    User(id, Some(input.name), input.email, Some(hashed), None, false, None, None)
  }

  /** `create`, step by step: input validation, the email lookup (store call 0), the user insert
      (call 1), the token insert (call 2). `hash` stands for bcrypt, `newUserId` for the id the store
      generates, `token` for `uuidv4()`, `now` for `Date.now()`. A store call throws when `outage`
      says so, or when the row it inserts collides with a unique key. */
  function Create(db: Db, input: CreateInput, isEmail: string -> bool, hash: (string, nat) -> string,
                  newUserId: string, token: string, now: int, outage: Outage): (out: CreateOutcome)
    requires Valid(db)
    ensures Valid(out.after)
    ensures out.result == Failed(BadRequest) <==> !InputAccepted(input, isEmail)
    ensures out.result.Failed? && out.result.error != InternalServerError ==> out.after == db
    ensures out.result.Failed? && out.result.error.Conflict? <==>
              InputAccepted(input, isEmail) && !Fails(outage, 0) && input.email in db.emailIndex
    ensures out.result.Failed? && out.result.error.Conflict? ==> out.result.error.message == ConflictMessage
    ensures InputAccepted(input, isEmail) && Fails(outage, 0) ==> out == CreateOutcome(Failed(InternalServerError), db)
    ensures InputAccepted(input, isEmail) && !Fails(outage, 0) && input.email in db.emailIndex ==>
              out == CreateOutcome(Failed(Conflict(ConflictMessage)), db)
    ensures out.result.Created? <==>
              && InputAccepted(input, isEmail) && !Fails(outage, 0) && !Fails(outage, 1) && !Fails(outage, 2)
              && UserByEmail(db, input.email).None? && newUserId !in db.users && token !in db.tokens
    ensures out.result.Created? ==>
              && out.result.user == NewUser(newUserId, input, hash(input.password, BcryptRounds))
              && out.after.users == db.users[newUserId := out.result.user]
              && out.after.tokens == db.tokens[token := VerificationToken(input.email, token, now + TokenLifetimeMs)]
              && out.after.portfolios == db.portfolios
              && out.result.confirmationLink == ConfirmLinkPrefix + token
    ensures out.result.Failed? ==> out.after.tokens == db.tokens && out.after.portfolios == db.portfolios
    ensures out.result.Failed? ==>
              out.after.users == db.users || out.after.users == db.users[newUserId := NewUser(newUserId, input, hash(input.password, BcryptRounds))]
    ensures out.result.Failed? && out.after != db ==>
              && InputAccepted(input, isEmail) && !Fails(outage, 0) && !Fails(outage, 1)
              && UserByEmail(db, input.email).None? && newUserId !in db.users
              && (Fails(outage, 2) || token in db.tokens)
              && out.after.users == db.users[newUserId := NewUser(newUserId, input, hash(input.password, BcryptRounds))]
    ensures && InputAccepted(input, isEmail) && !Fails(outage, 0) && !Fails(outage, 1)
            && UserByEmail(db, input.email).None? && newUserId !in db.users
            && (Fails(outage, 2) || token in db.tokens) ==>
              && out.result == Failed(InternalServerError)
              && out.after.users == db.users[newUserId := NewUser(newUserId, input, hash(input.password, BcryptRounds))]
  {
    if !InputAccepted(input, isEmail) then CreateOutcome(Failed(BadRequest), db)
    else if Fails(outage, 0) then CreateOutcome(Failed(InternalServerError), db)
    else if input.email in db.emailIndex then CreateOutcome(Failed(Conflict(ConflictMessage)), db)
    else
      var user := NewUser(newUserId, input, hash(input.password, BcryptRounds));
      if Fails(outage, 1) || newUserId in db.users then CreateOutcome(Failed(InternalServerError), db)
      else
        var withUser := db.(users := db.users[newUserId := user],
                            emailIndex := db.emailIndex[input.email := newUserId]);
        if Fails(outage, 2) || token in db.tokens then CreateOutcome(Failed(InternalServerError), withUser)
        else
          CreateOutcome(Created(user, ConfirmLinkPrefix + token),
                        withUser.(tokens := db.tokens[token := VerificationToken(input.email, token, now + TokenLifetimeMs)]))
  }

  /** The `create` mutation as the handler runs it against the store. */
  method HandleCreate(store: Store, input: CreateInput, isEmail: string -> bool, hash: (string, nat) -> string,
                      newUserId: string, token: string, now: int, outage: Outage) returns (result: CreateResult)
    requires Valid(store.State())
    modifies store
    ensures CreateOutcome(result, store.State()) == Create(old(store.State()), input, isEmail, hash, newUserId, token, now, outage)
  {
    if !InputAccepted(input, isEmail) {
      return Failed(BadRequest);
    }
    // user.findUnique({ where: { email } })
    if Fails(outage, 0) {
      return Failed(InternalServerError);
    }
    if input.email in store.emailIndex {
      return Failed(Conflict(ConflictMessage));
    }
    var hashed := hash(input.password, BcryptRounds);
    // user.create
    if Fails(outage, 1) || newUserId in store.users {
      return Failed(InternalServerError);
    }
    var user := NewUser(newUserId, input, hashed);
    store.users := store.users[newUserId := user];
    store.emailIndex := store.emailIndex[input.email := newUserId];
    // verificationToken.create
    if Fails(outage, 2) || token in store.tokens {
      return Failed(InternalServerError);
    }
    store.tokens := store.tokens[token := VerificationToken(input.email, token, now + TokenLifetimeMs)];
    result := Created(user, ConfirmLinkPrefix + token);
  }

  /** A failure of the token insert leaves the new user behind without any token: the account can
      never be confirmed, and a second signup with the same email is refused as a conflict. */
  lemma TokenFailureStrandsUser(db: Db, input: CreateInput, isEmail: string -> bool, hash: (string, nat) -> string,
                                newUserId: string, token: string, now: int, isEmail2: string -> bool,
                                newUserId2: string, token2: string, now2: int)
    requires Valid(db)
    requires InputAccepted(input, isEmail) && UserByEmail(db, input.email).None? && newUserId !in db.users
    requires isEmail2(input.email)
    ensures var out := Create(db, input, isEmail, hash, newUserId, token, now, FailsAt(2));
            && out.result == Failed(InternalServerError)
            && newUserId in out.after.users && out.after.users[newUserId].emailVerified.None?
            && (forall t :: t in out.after.tokens ==> out.after.tokens[t].identifier != input.email || t in db.tokens)
            && Create(out.after, input, isEmail2, hash, newUserId2, token2, now2, Healthy).result
               == Failed(Conflict(ConflictMessage))
  {
  }

  /** What a query procedure answers: its value, or the error tRPC reports when the awaited store
      call throws. */
  datatype QueryOutcome<T> = Answered(value: T) | QueryFailed(error: TrpcError)

  /** The fields `getUser` selects. */
  datatype PublicUser = PublicUser(id: string, name: Option<string>, email: string, image: Option<string>)

  /** `getUser`: the public projection of the user with this id, or null. */
  function GetUser(db: Db, id: string, lookupFails: bool): (r: QueryOutcome<Option<PublicUser>>)
    ensures r.QueryFailed? <==> lookupFails
    ensures r.QueryFailed? ==> r.error == InternalServerError
    ensures r.Answered? ==> (r.value.Some? <==> id in db.users)
    ensures r.Answered? && r.value.Some? ==>
              var u := db.users[id];
              r.value.value.id == u.id && r.value.value.name == u.name
              && r.value.value.email == u.email && r.value.value.image == u.image
  {
    if lookupFails then QueryFailed(InternalServerError)
    else if id in db.users then
      var u := db.users[id];
      Answered(Some(PublicUser(u.id, u.name, u.email, u.image)))
    else Answered(None)
  }

  /** `subscriptionStatus` for the signed-in user: `user?.stripeSubscriptionStatus || null`, so a
      missing user, a missing status and the empty string all give null. */
  function SubscriptionStatus(db: Db, sessionUserId: string, lookupFails: bool): (r: QueryOutcome<Option<string>>)
    ensures r.QueryFailed? <==> lookupFails
    ensures r.QueryFailed? ==> r.error == InternalServerError
    ensures r.Answered? ==>
              (r.value.Some? <==>
                 sessionUserId in db.users && db.users[sessionUserId].stripeSubscriptionStatus.Some?
                 && db.users[sessionUserId].stripeSubscriptionStatus.value != "")
    ensures r.Answered? && r.value.Some? ==> r.value == db.users[sessionUserId].stripeSubscriptionStatus
  {
    if lookupFails then QueryFailed(InternalServerError)
    else if sessionUserId in db.users then
      match db.users[sessionUserId].stripeSubscriptionStatus
      case Some(s) => Answered(if s == "" then None else Some(s))
      case None => Answered(None)
    else Answered(None)
  }
}
