/** The identity store the handlers reach through the ORM: the `user`, `verificationToken` and
    `portfolio` tables as maps, with the unique indexes the handlers' `findUnique` calls rely on. */
module Prisma {
  import opened Base

  /** A `user` row. Times are milliseconds since the epoch. */
  datatype User = User(
    id: string,
    name: Option<string>,
    email: string,
    password: Option<string>,
    emailVerified: Option<int>,
    hasFilledForm: bool,
    stripeSubscriptionStatus: Option<string>,
    image: Option<string>)

  /** A `verificationToken` row; `identifier` is the email it verifies. */
  datatype VerificationToken = VerificationToken(identifier: string, token: string, expires: int)

  /** A `portfolio` row, owned by one user. */
  datatype Portfolio = Portfolio(id: string, title: string, description: string, userId: string)

  /** The tables: users by id, the unique email index (email to user id), tokens by token string,
      and portfolios by owning user id (the owner is unique). */
  datatype Db = Db(
    users: map<string, User>,
    emailIndex: map<string, string>,
    tokens: map<string, VerificationToken>,
    portfolios: map<string, Portfolio>)

  /** The integrity the storage engine keeps: keys agree with the rows, the email index lists every
      user under its own email and nothing else (so emails are unique), and every portfolio belongs
      to an existing user. */
  ghost predicate Valid(db: Db)
  {
    && (forall id :: id in db.users ==> db.users[id].id == id)
    && (forall id :: id in db.users ==>
          db.users[id].email in db.emailIndex && db.emailIndex[db.users[id].email] == id)
    && (forall e :: e in db.emailIndex ==>
          db.emailIndex[e] in db.users && db.users[db.emailIndex[e]].email == e)
    && (forall t :: t in db.tokens ==> db.tokens[t].token == t)
    && (forall u :: u in db.portfolios ==> db.portfolios[u].userId == u && u in db.users)
  }

  const Empty := Db(map[], map[], map[], map[])

  /** No two users share an email. */
  lemma EmailsUnique(db: Db, a: string, b: string)
    requires Valid(db)
    requires a in db.users && b in db.users && db.users[a].email == db.users[b].email
    ensures a == b
  {
    assert db.emailIndex[db.users[a].email] == a;
  }

  /** `user.findUnique({ where: { email } })` */
  function UserByEmail(db: Db, email: string): (r: Option<User>)
    requires Valid(db)
    ensures r.Some? <==> exists id :: id in db.users && db.users[id].email == email
    ensures r.Some? ==> r.value.id in db.users && db.users[r.value.id] == r.value && r.value.email == email
  {
    if email in db.emailIndex then Some(db.users[db.emailIndex[email]]) else None
  }

  /** The store as the handlers see it: one object whose tables they replace step by step. */
  class Store {
    var users: map<string, User>
    var emailIndex: map<string, string>
    var tokens: map<string, VerificationToken>
    var portfolios: map<string, Portfolio>

    function State(): Db
      reads this
    {
      Db(users, emailIndex, tokens, portfolios)
    }

    constructor ()
      ensures State() == Empty && Valid(State())
    {
      users, emailIndex, tokens, portfolios := map[], map[], map[], map[];
    }
  }
}
