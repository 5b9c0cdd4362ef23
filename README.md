# express-auth2: session authentication helpers, modelled in Dafny

express-auth2 has two pieces of Express middleware:

- The **session augmenter** (`lib/init.js`) installs operations on each request and response: `authenticate`,
  `unauthenticate`, `isAuthenticated`, `isUnauthenticated`, `getLoginUrl`, `getBackUrl`, `rememberAsBackUrl`,
  `forgetBackUrl` and `res.redirectBackOr`.
- The **access guard** (`lib/authorize.js`) makes a three-way decision. It lets an authenticated request proceed.
  It sends an unauthenticated one to the login location and remembers where that request was going. With no login
  location, it answers 401 and passes an error to `next`.

The project models the state these operations share:

- an optional user on the request;
- an optional session holding the user's id, a back URL and an identity that `regenerate` replaces;
- the request path;
- the configured login location.

It proves what each operation does to that state, and what holds after any sequence of operations.

Files:

- `request.dfy`, module `Auth`: the data model and every operation of `lib/init.js` as a function on values. A
  value is the request plus a log of effects: regenerations, completion callbacks, redirects, status codes and
  `next` calls. The module also holds lemmas that relate several operations.
- `guard.dfy`, module `Guard`: the guard's decision (`Decide`) and its effect on the exchange (`Authorize`).
- `traces.dfy`, module `Traces`: runs of any sequence of operations on one request/session pair, with inductive
  lemmas:
  - a session identity is never linked to a user id without a regeneration;
  - the identity advances exactly once per logged regeneration;
  - the attached user is the one from the last login unless a logout came after it;
  - the login round trip returns to the page first requested when the back URL survives the login, else to the
    fallback.
- `context.dfy`, module `Middleware`: class `Context`, the request/response pair updated in place. Each operation
  that `lib/init.js` installs is a member of it: each update is a method, each read a function. Each update
  operation installed by `lib/init.js` is proved to take the pair from `old(Model())` to the same value the
  matching `Auth` function gives. `RegenerateSession`, `SendRedirect`, `SetStatus` and `CallNext` stand for the
  session store, the response and `next`; they append to a ghost effect log and state their own effect.
- `authorize.dfy`, module `AccessGuard`: the guard middleware as a method on a `Context`. It follows the source's
  branches in order and is proved equal to `Guard.Authorize`.

Modelling choices:

- JavaScript truthiness: the model's optional strings count as falsy when absent or `""`. This covers
  `url || req.originalUrl`, `backUrl || null`, `getBackUrl() || url` and `if (loginUrl)`. Users are restricted to
  records, which are always truthy; a falsy user value is not modelled (see "## Left out").
- `regenerate` gives the session identity `gen` a new value, `gen + 1`. The source does not fix whether the
  session's data survives a regeneration, because that is up to the session store. The model therefore takes it as
  a parameter, `RegenMode` (`KeepData` or `DropData`), and proves every property for both values. One consequence,
  shown by `Traces.LoginRoundTrip`: with a store that drops data, a login that regenerates the session loses the
  back URL the guard remembered, so `redirectBackOr` goes to its fallback.
- A regeneration is asynchronous in the source. In the model it completes before the operation goes on, and the
  completion callback is logged as `Callback` after it.
- A `loginUrl` resolver is a total function from the request to an optional string. It sees the request as it is
  when `getLoginUrl` is called. A missing options object is `Static(None)`.

On empty strings the model follows the code's JavaScript truthiness:

- `rememberAsBackUrl("")` stores the request path, not `""`.
- `redirectBackOr` treats a stored `""` back URL as absent.
- `getBackUrl` returns null for a stored `""`.

## Model

| member | source | states |
|---|---|---|
| `Auth.IsAuthenticated` | lib/init.js:29-31 | holds iff a user is attached to the request |
| `Auth.IsUnauthenticated` | lib/init.js:33-35 | holds iff no user is attached, the negation of `isAuthenticated` |
| `Auth.GetLoginUrl` | lib/init.js:37-41 | a static login location is returned as configured, absent included; a resolver's result on the given request is returned |
| `Auth.Regenerate` | lib/init.js:9 | the session gets a new identity; with a store that keeps data, user id and back URL survive, with one that drops data, both are gone |
| `Middleware.Context.IsAuthenticated` | lib/init.js:29-31 | on the pair in place: holds iff the request's `user` field holds a user |
| `Middleware.Context.IsUnauthenticated` | lib/init.js:33-35 | on the pair in place: holds iff the request's `user` field is empty |
| `Middleware.Context.GetLoginUrl` | lib/init.js:37-41 | on the pair in place: the configured static location, or the resolver applied to the current request |
| `Middleware.Context.GetBackUrl` | lib/init.js:43-47 | on the pair in place: a value iff the session exists with a non-empty back URL, and then that stored value; otherwise null |
| `Auth.AuthenticationStatus` | lib/init.js:29-35 | `isUnauthenticated` is exactly the negation of `isAuthenticated`, which holds iff a user is attached; both are pure reads |
| `Auth.LoginUrlResolution` | lib/init.js:37-41 | a static login location is returned unchanged (absent included) whatever the request; a resolver is applied to the current request |
| `Auth.GetBackUrl` | lib/init.js:43-47 | a value is returned iff a session exists and its back URL is truthy, and it is then the stored value and never `""`; otherwise null |
| `Auth.Authenticate` | lib/init.js:5-16 | the user is attached and the request is authenticated; if a session exists it ends up linked to the user's id; a session not yet linked to that id is regenerated exactly once, before the callback runs; otherwise session and identity are unchanged and only the callback runs |
| `Auth.Unauthenticate` | lib/init.js:18-27 | no user is attached and the request is unauthenticated; a session loses its user id and is regenerated exactly once before the callback; without a session only the callback runs |
| `Auth.RememberAsBackUrl` | lib/init.js:49-53 | with a session, the back URL becomes `url` when truthy, else the request path; identity, user id, user and log are unchanged; without a session nothing changes |
| `Auth.ForgetBackUrl` | lib/init.js:55-59 | with a session, the back URL is removed and nothing else changes; afterwards `getBackUrl` is null; without a session nothing changes |
| `Auth.RedirectBackOr` | lib/init.js:61-66 | with a session, one redirect to the truthy back URL or else to the fallback, after which the back URL is absent; without a session no redirect and no change |
| `Auth.AuthenticateIdempotent` | lib/init.js:8-15 | authenticating the same user a second time regenerates nothing and leaves the request unchanged; only the callback runs |
| `Auth.BackUrlConsumedOnce` | lib/init.js:61-66 | a remembered back URL is used by exactly one `redirectBackOr`; the following one redirects to its own fallback |
| `Auth.RememberThenGet` | lib/init.js:43-53 | `getBackUrl` after `rememberAsBackUrl(url)` gives `url` when truthy, else the request path, or null if that path is `""` |
| `Auth.AuthenticateThenUnauthenticate` | lib/init.js:5-27 | for a session not linked to the user, login then logout leaves no user and no user id; the identity is regenerated twice and the log shows two regenerate-then-callback pairs |
| `Guard.Decide` | lib/authorize.js:4-15 | proceed iff authenticated; redirect iff unauthenticated with a truthy login location, which is then the target; reject iff unauthenticated without one |
| `Guard.Authorize` | lib/authorize.js:4-15 | the guard never changes the user, the session's user id, its identity or the path; authenticated: `next()` only, request unchanged; redirect case: back URL set to the path when a session exists, one redirect to the login location; reject case: request unchanged, status 401 then `next(error)` |
| `Guard.ExactlyOneOutcome` | lib/authorize.js:4-15 | the guard only appends to the log, and what it appends is exactly one of `next()` alone, a redirect without `next`, or status 401 then `next(error)` without a redirect |
| `Guard.RedirectsToLogin` | lib/authorize.js:8-11 | with login location `/login`, an unauthenticated request with a session is redirected there and its path becomes the back URL |
| `Traces.StepLinksOnlyAfterRegeneration` | lib/init.js:8-12 | one operation that links a session to an id it was not linked to also gives the session a new identity; no operation removes a session or lowers its identity |
| `Traces.NoSessionFixation` | lib/init.js:8-12 | after any sequence of operations, a session that was not linked to an id is linked to it only under a newer identity, so a pre-login session identity is never reused after login |
| `Traces.RegenerationsCounted` | lib/init.js:8-27 | over any sequence of operations, the session identity advances by exactly the number of regenerations logged, and a session never appears or disappears |
| `Traces.UserAfterRun` | lib/init.js:5-27 | after any sequence of operations, the attached user is the one from the last `authenticate`, none if an `unauthenticate` came after it, else the initial one; authenticated iff that user exists |
| `Traces.LoginRoundTrip` | lib/authorize.js:8-11 | guard, then login, then `redirectBackOr(home)`: redirects to the originally requested path when the back URL survives the login, else to `home`; the back URL is then consumed |
| `Middleware.Context.Authenticate` | lib/init.js:5-16 | in place: the pair moves exactly as `Auth.Authenticate` says; user attached, session linked to its id, regenerated once iff it was not already linked |
| `Middleware.Context.Unauthenticate` | lib/init.js:18-27 | in place: moves as `Auth.Unauthenticate`; user removed; an existing session loses its user id and is regenerated once |
| `Middleware.Context.RememberAsBackUrl` | lib/init.js:49-53 | in place: moves as `Auth.RememberAsBackUrl`; only the session's back URL changes |
| `Middleware.Context.ForgetBackUrl` | lib/init.js:55-59 | in place: moves as `Auth.ForgetBackUrl`; only the session's back URL is removed |
| `Middleware.Context.RedirectBackOr` | lib/init.js:61-66 | in place: moves as `Auth.RedirectBackOr`; one redirect to `backUrl || url`, then the back URL is removed; nothing happens without a session |
| `Middleware.Context.RegenerateSession` | lib/init.js:9 | the session gets a new identity and the regeneration is logged; the user is untouched |
| `AccessGuard.Authorize` | lib/authorize.js:2-16 | in place: moves as `Guard.Authorize`; the user and user id are unchanged; one of the three outcomes, as in `Guard.Authorize` |

## Left out

- Express wiring: the middleware factories, the `options || {}` default (modelled as `Static(None)`) and the
  outer `next()` of the augmenter (lib/init.js:1-3, lib/init.js:68). These are framework plumbing.
- The session store. `regenerate` is modelled only as a new identity, with the fate of the data as a parameter.
  Its asynchronous completion, its failures and the session object being replaced are not modelled.
- Asynchronous scheduling and concurrency across requests. Every callback completes synchronously.
- Side effects or failures of a user-supplied `loginUrl` resolver. Only its return value is modelled.
- The HTTP response itself and the text of the `Access restricted.` error. `res.redirect`, `res.status` and
  `next` are only entries in the effect log.
- JavaScript's loose `!=` and truthiness of arbitrary values. Ids are integers, the login location and URLs are
  optional strings, and a user is a record with an id and an opaque profile.
- The return value of the guard's `return next()`. The guard is modelled as returning nothing.
- Falsy user values. `authenticate(0, cb)` or `authenticate("", cb)` stores a falsy user that `isAuthenticated`
  reports as false, and compares `undefined` with the session's id; the model's users are records only.
- Traces are one request/session pair. In the source a guard redirect ends its request, and the login happens on
  a later request with its own `req.user` and `originalUrl` that shares the session. `Traces.LoginRoundTrip` stands
  for those two requests; its conclusion carries over because `authenticate` and `redirectBackOr` read neither
  field. `Traces.UserAfterRun` holds within one request only.
- Auth.RedirectBackOr: the fallback is always a string. The source's `res.redirectBackOr()` without an argument
  and without a truthy back URL calls `res.redirect(undefined)`; that call is not modelled.
