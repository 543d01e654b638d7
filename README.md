# PortfolioMaker account lifecycle, in Dafny

A model of the account lifecycle of PortfolioMaker, a Next.js application. It covers signup with
an emailed confirmation token, email confirmation, the onboarding-status lookup, and the
portfolio routes. It also covers the client-side validators and routing decisions around these
routes: the signup page, the login page, the dashboard, the authentication wrapper, the
onboarding form and the landing page.

The store is modelled as maps. `Prisma.Db` holds users by id, the unique email index, tokens by
token string, and portfolios by owner. `Prisma.Store` is the object whose tables the imperative
handlers replace step by step. `Prisma.Valid` is the store's integrity: keys agree with their rows,
emails are unique, and every portfolio belongs to an existing user.

Each imperative handler has two parts:

- a method that runs against a `Store` in the source's order (`HandleCreate`, `HandleConfirm`,
  `HandleCreatePortfolio`);
- a function over `Db` that the method is proved equal to (`Create`, `Confirm`, `CreatePortfolio`).

The properties are stated as that function's postconditions and as lemmas about it. The read-only
handlers (`UserStatus.Status`, `PortfolioGet.GetPortfolio`, `UserRouter.GetUser`,
`UserRouter.SubscriptionStatus`) are functions of the store.

Some inputs come from outside the model and are parameters:

- the clock is an integer `now`, in milliseconds;
- bcrypt is a function parameter `hash`;
- `uuidv4()` and the ids the store generates are value parameters.

A store call that throws is chosen by `Base.Outage`, which names the failing call by its index in
the handler's order. A single-call handler takes a boolean instead. An insert whose key collides
with a unique key also throws, as the store would.

The client pages are classes whose fields are the React state: the error text, the loading flag,
the form record, and the routes pushed to the router. Their handlers are methods. The pure
decisions are functions: the validators, the message mapping, the URL extraction, the dashboard
route and the wrapper's decision.

`EmailPattern` models the client's email check twice. `MatchesEmailPattern` is the language of
`^[^\s@]+@[^\s@]+\.[^\s@]+$`. `EmailTest` is a left-to-right scan that decides it. The lemma
`ScanDecidesPattern` proves the two agree, and `EmailTest` states it as its postcondition. `\s` is
ECMAScript's full list of white-space and line-terminator code points. String lengths are counted in UTF-16 code units, as JavaScript's
`length` counts them (`Strings.Utf16Length`).

Signup and confirmation are not atomic, and the model keeps their intermediate states:

- A failing token insert leaves the new user in place with no token
  (`UserRouter.TokenFailureStrandsUser`).
- A failing token delete after the user update leaves the user verified and the token in place
  (`ConfirmEmail.FailedDeleteVerifiesAndKeepsToken`).

## Model

| member | source | states |
|---|---|---|
| `Strings.IndexOf` | src/pages/signup.tsx:31-33 | the first occurrence of a substring, with no occurrence before it; None iff it occurs nowhere (the `includes` test) |
| `Strings.Utf16Length` | src/pages/signup.tsx:53 | JavaScript `length` in UTF-16 code units: at least the number of characters and at most twice it |
| `Strings.Split` | src/pages/login.tsx:37 | JavaScript `split` with a non-empty separator: always at least one piece |
| `Strings.SplitWhole` | src/pages/login.tsx:37 | a string splits into itself alone iff it does not contain the separator, and into two or more pieces otherwise; so `split(...)[1]` exists iff the marker occurs |
| `Strings.JoinSplit` | src/pages/login.tsx:37 | `split` with a non-empty separator loses nothing: joining the pieces with the separator gives the string back |
| `Strings.SplitPiecesFree` | src/pages/login.tsx:37 | no piece produced by `split` contains the separator |
| `EmailPattern.EmailTest` | src/pages/signup.tsx:60-61 | `emailRegex.test(email)`: true iff the string is in the language of `^[^\s@]+@[^\s@]+\.[^\s@]+$` |
| `EmailPattern.ScanDecidesPattern` | src/pages/signup.tsx:60-61 | the scan ends in its accepting phase iff the string is in the language of the email pattern (both directions) |
| `EmailPattern.AcceptedMatchesPattern` | src/pages/signup.tsx:60-61 | every accepted string splits as a@x.y with a, x and y non-empty runs of `[^\s@]` |
| `EmailPattern.PatternIsAccepted` | src/pages/signup.tsx:60-61 | every string of that shape is accepted |
| `EmailPattern.AcceptsPlainAddress` | src/pages/signup.tsx:60-61 | "ada@x.com" passes the check |
| `EmailPattern.AcceptedShape` | src/pages/signup.tsx:60-61 | an accepted address has exactly one `@`, not first; every other character is neither white space nor `@`; some `.` lies after the `@`, neither right after it nor last |
| `EmailPattern.RejectsSpaceOrSecondAt` | src/pages/signup.tsx:60-61 | two characters that are white space or `@` make the check fail |
| `EmailPattern.RejectsDotlessDomain` | src/pages/signup.tsx:60-61 | an address with no `.` after its `@` fails the check |
| `Base.SessionUserId` | src/pages/form.tsx:24 | `session?.user?.id`: present iff there is a session with a user, and then it is that user's id |
| `Base.Truthy` | src/pages/api/user-status.ts:7 | JavaScript truthiness of a query value: false exactly for an absent key and for the empty string; any array is truthy |
| `Prisma.EmailsUnique` | src/server/api/routers/user.ts:36-38 | in a valid store no two users share an email |
| `Prisma.UserByEmail` | src/server/api/routers/user.ts:36-38 | the lookup by email finds a user iff some user has that email, and returns that stored row |
| `UserRouter.InputAccepted` | src/server/api/routers/user.ts:27-31 | the input schema: accepted input has a non-empty name, a password of at least 8 code units (so at least 4 characters) and an email the schema's email rule accepts |
| `UserRouter.Create` | src/server/api/routers/user.ts:26-74 | BAD_REQUEST iff the input schema rejects; valid input whose lookup throws gets INTERNAL_SERVER_ERROR and changes nothing; a CONFLICT with "An account with this email already exists." iff the input is valid, the lookup succeeds and the email is taken, and it changes nothing; success iff the input is valid, no store call throws, and the email, user id and token are all new; on success exactly one user (the hash of the password with 12 rounds, unverified) and one token (identifier = email, expiry = now + 86 400 000 ms) are added and the link is the confirm-email prefix followed by the token; no error adds a token; an error leaves the store unchanged unless the lookup and the user insert succeeded and the token insert threw (an outage or a token collision); exactly in that case the answer is INTERNAL_SERVER_ERROR and the new user is added; store validity is kept |
| `UserRouter.HandleCreate` | src/server/api/routers/user.ts:32-74 | the mutation run step by step against the store returns the result and leaves the store that `Create` describes |
| `UserRouter.TokenFailureStrandsUser` | src/server/api/routers/user.ts:49-66 | when the token insert throws, the new user stays, unverified, and no new token names its email; and a second signup with that email is refused as a conflict |
| `UserRouter.GetUser` | src/server/api/routers/user.ts:10-24 | INTERNAL_SERVER_ERROR iff the lookup throws; otherwise exactly the id, name, email and image of the user with that id, or null when there is none |
| `UserRouter.SubscriptionStatus` | src/server/api/routers/user.ts:77-85 | INTERNAL_SERVER_ERROR iff the lookup throws; otherwise the stored status when the user exists and the status is a non-empty string, null otherwise |
| `ConfirmEmail.Confirm` | src/pages/api/confirm-email.ts:6-45 | 405 iff the method is not GET, and a missing, empty or repeated token gets 400 "Invalid token", both before any store access; "Invalid token" iff the token is unknown, and then the store is unchanged; "Token has expired" iff expires < now, and exactly that token is deleted; a redirect to /landing?verified=true&userId=id iff the token is known, not expired, names an existing user's email and no store call throws, and then only that user's emailVerified becomes now and the token is deleted; a 500 leaves the store unchanged, except when only the final delete threw, and then exactly the token's user is verified at now and the token is kept; validity is kept |
| `ConfirmEmail.HandleConfirm` | src/pages/api/confirm-email.ts:6-45 | the handler run step by step against the store returns the response and leaves the store that `Confirm` describes |
| `ConfirmEmail.ReplayIsInvalid` | src/pages/api/confirm-email.ts:22-36 | after a success or an expiry, the same request is answered "Invalid token" at any later time |
| `ConfirmEmail.ExpiryInstantIsAccepted` | src/pages/api/confirm-email.ts:26 | a token whose expiry equals the request time is accepted |
| `ConfirmEmail.FailedUpdateKeepsToken` | src/pages/api/confirm-email.ts:31-44 | when the user update fails (no user has the email, or the store throws) the answer is 500 and the store, token included, is unchanged |
| `ConfirmEmail.FailedDeleteVerifiesAndKeepsToken` | src/pages/api/confirm-email.ts:31-44 | when the final delete throws, the answer is 500 and the store differs from before only in that user's emailVerified, now set: the token survives |
| `UserStatus.Status` | src/pages/api/user-status.ts:4-25 | 400 "User ID is required" for a missing or empty id; 200 iff a single id names a user and the lookup succeeds, with exactly that user's `hasFilledForm`; 404 iff the id names no user; 500 iff the lookup throws or the id is repeated; the store is only read |
| `PortfolioCreate.CreatePortfolio` | src/pages/api/portfolio/create.ts:5-30 | no session gets 401 whatever the method; an authenticated non-POST gets 405 with Allow [POST]; 201 iff POST, a session user, no throw, and the user exists without a portfolio; then exactly one portfolio is added (body's title and description, owned by the session user) and returned; every other answer leaves the store unchanged, and an authenticated POST that fails gets 500 "Failed to create portfolio" |
| `PortfolioCreate.HandleCreatePortfolio` | src/pages/api/portfolio/create.ts:5-30 | the handler run against the store returns the response and leaves the store that `CreatePortfolio` describes |
| `PortfolioGet.GetPortfolio` | src/pages/api/portfolio/get.ts:5-25 | no session gets 401 before the method check; an authenticated non-GET gets 405 with Allow [GET]; 200 iff GET with a session user and no throw, with the session user's portfolio or null; otherwise 500 "Failed to fetch portfolio" |
| `PortfolioGet.ReturnsOwnPortfolioOnly` | src/pages/api/portfolio/get.ts:14-17 | a returned portfolio is always owned by the session's user |
| `Signup.FirstFailedCheck` | src/pages/signup.tsx:47-67 | checks run in the fixed order required, then length, then email, and exactly the first failing message is reported; no message iff every check passes |
| `Signup.SubmittedInputPassesServerLengths` | src/pages/signup.tsx:47-67 | input the page submits always has a non-empty name, a password of at least 8 code units, and an email in the pattern's language |
| `Signup.ServerErrorMessage` | src/pages/signup.tsx:28-38 | "already exists" wins, then "expired", else the generic message, each as an iff |
| `Signup.ConflictShownAsDuplicate` | src/pages/signup.tsx:31-32 | the server's conflict message is shown as the duplicate-account message |
| `Signup.SignupPage.constructor` | src/pages/signup.tsx:14-19 | empty error, not loading, no modal, no mutation issued |
| `Signup.SignupPage.HandleSubmit` | src/pages/signup.tsx:41-68 | on a failed check the error is that check's message, loading is off and no mutation is issued; otherwise the error is cleared, loading is on and exactly one mutation with the form's fields is issued |
| `Signup.SignupPage.OnSuccess` | src/pages/signup.tsx:23-27 | loading off and the modal shown; nothing else changes |
| `Signup.SignupPage.OnError` | src/pages/signup.tsx:28-38 | loading off and the error set to the mapped message |
| `Login.UserIdFromUrl` | src/pages/login.tsx:37 | undefined iff there is no URL or no `userId=` in it; the extracted id never contains `userId=` |
| `Login.UserIdFromUrlLocated` | src/pages/login.tsx:37 | the URL is a prefix without the marker, the marker, the id, then the end or the next marker |
| `Login.LoginPage.constructor` | src/pages/login.tsx:15 | the error starts empty; nothing pushed or refetched yet |
| `Login.LoginPage.HandleSubmit` | src/pages/login.tsx:24-48 | the error is cleared first; a result error shows "Invalid email or password" without navigating; an ok result with a non-empty extracted id refetches with it, then pushes '/' or, if the refetch throws, shows "Error fetching user data"; every other result changes nothing else |
| `Login.LoginPage.Render` | src/pages/login.tsx:55-59 | with a session the page pushes '/' and renders nothing; without one it renders the form |
| `Dashboard.FirstEffect` | src/pages/dashboard.tsx:9-16 | nothing while loading; sign-in without a session; otherwise a status query for exactly the session user's id, or a throw when the session has no user |
| `Dashboard.RouteForStatus` | src/pages/dashboard.tsx:17-23 | the builder iff the body carries a true `hasFilledForm`, the form otherwise (error bodies included) |
| `Dashboard.Navigation` | src/pages/dashboard.tsx:9-25 | at most one navigation, always to sign-in, form or builder; none exactly while loading, for a session without a user, or when the status request fails |
| `WithAuth.Decide` | src/components/withAuth.tsx:16-33 | the wrapped page is rendered iff the session has a user; a redirect to /auth/signin iff the session has settled without a user |
| `WithAuth.ShowOrRedirect` | src/components/withAuth.tsx:21-32 | the page is never both rendered and redirected away from; a settled visitor gets one of the two |
| `WithAuth.CopiedInitialProps` | src/components/withAuth.tsx:35-38 | `getInitialProps` is copied iff the wrapped component's is a function, and it is that function |
| `OnboardingForm.SubmitBody` | src/pages/form.tsx:24 | `userId` is present iff the session has a user id and then overrides any field of that name; every other field is the form's |
| `OnboardingForm.FormPage.constructor` | src/pages/form.tsx:14 | the form starts as the empty record |
| `OnboardingForm.FormPage.HandleInputChange` | src/pages/form.tsx:32-35 | exactly the named field takes the value; nothing else changes |
| `OnboardingForm.FormPage.HandleSubmit` | src/pages/form.tsx:18-30 | posts the record with the session's user id, keeps the record, and pushes /portfolio-builder iff the response is ok |
| `Landing.UserQueryEnabled` | src/pages/index.tsx:15-18 | the user query runs iff the `userId` parameter is a non-empty string or an array |
| `Landing.LandingPage.constructor` | src/pages/index.tsx:13 | no user shown and no sign-in started |
| `Landing.LandingPage.Effect` | src/pages/index.tsx:20-35 | `verified` exactly "true" with loaded data shows that user and starts one sign-in with its email, taking precedence over a session; else a session shows its user; else nothing changes |
| `Landing.LandingPage.SignInSettled` | src/pages/index.tsx:27-31 | the sign-in's outcome, error or not, changes neither the shown user nor anything else |
| `Lifecycle.SignupConfirmReplay` | src/pages/api/confirm-email.ts:17-40 | signup then confirmation within 24 h redirects with the new user's id, verifies that user at the confirmation time and deletes the token; the same link again gets "Invalid token" |
| `Lifecycle.SignupExpireReplay` | src/pages/api/confirm-email.ts:26-29 | signup then confirmation after 24 h gets "Token has expired" and verifies no one; the same link again gets "Invalid token" |
| `Lifecycle.SignupLeavesFlags` | src/server/api/routers/user.ts:49-55 | signup never sets any user's onboarding flag |
| `Lifecycle.ConfirmLeavesFlags` | src/pages/api/confirm-email.ts:31-34 | confirmation never sets any user's onboarding flag |
| `Lifecycle.PortfolioLeavesFlags` | src/pages/api/portfolio/create.ts:15-21 | creating a portfolio never sets any user's onboarding flag |
| `Lifecycle.DashboardFollowsOnboardingFlag` | src/pages/dashboard.tsx:15-22 | for a session user whose id is non-empty (the lemma does not cover an empty id), fed the status route's answer for that user, the dashboard goes to the builder iff the lookup succeeds and that user exists with the flag set, and to the form otherwise |
| `Lifecycle.NewUserGoesToForm` | src/pages/dashboard.tsx:18-22 | a user who has just signed up is sent to the onboarding form |

## Left out

- The input schema's email rule is the schema library's own and is not part of this model; `UserRouter.Create` takes it as the predicate `isEmail`.
- The database schema is not part of this model. The model assumes these column defaults for a new user: `hasFilledForm` false, and no verification time, subscription status or image. It assumes these unique keys: user id, user email, token, and portfolio owner. It assumes each portfolio's owner must be an existing user. `email` is taken to be always present.
- The session check of the protected tRPC procedure is not part of this model: `UserRouter.SubscriptionStatus` takes the signed-in user's id.
- bcrypt, `uuidv4()`, the ids the store generates, and the clock are parameters. `ConfirmEmail.Confirm` uses one `now` for both clock reads of a request.
- The message of an unexpected store error is not modelled: it is `InternalServerError`, and `Signup.ServerErrorMessage` takes any message.
- Concurrency: requests run one at a time. Two simultaneous confirmations with the same token and store transactions are not modelled.
- Logging, including the logged confirmation link, has no behaviour in the model.
- next-auth (`signIn`, `getSession`, `useSession`), `fetch`, the tRPC query hooks and the user-status request are inputs of the page methods and functions: sign-in results, sessions, loaded user data, status replies and response flags.
- `Login.LoginPage.HandleSubmit` records the id it passes to the refetch. What the query library does with that id, and the data it returns, are not modelled.
- Query strings are not parsed or encoded. The model treats the ids in the redirect location and in the status request URL as the query values the receiving route sees.
- The `/api/submit-form` route the onboarding form posts to is not part of this model, so nothing sets `hasFilledForm` to true.
- `PortfolioCreate.CreatePortfolio` takes the title and description from the body as strings. A body missing them is not modelled.
- The Google and LinkedIn sign-in buttons, the modal's close button, the landing marketing sections, the layout and navigation bar, the sign-in provider page, the portfolio builder's status switch and the billing client are presentation or foreign calls.
- React's render scheduling and effect dependency tracking: each page method models one call of a handler, or one run of an effect.
