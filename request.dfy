/**
 * The per-request authentication state that the session augmenter installs
 * (lib/init.js), modelled on values: a request with an optional user, an
 * optional session and its path, plus the log of effects the operations emit.
 * Each operation of the augmenter is a function from the old exchange to the
 * new one; the imperative class in module Middleware is proved against them.
 */
module Auth {

  datatype Option<T> = None | Some(value: T)

  /** Ids are restricted to a single type, so JavaScript's loose `!=` is plain inequality. */
  type UserId = int

  /** A user value; only its id is inspected, the rest is carried along as is. */
  datatype User = User(id: UserId, profile: string)

  /**
   * The two session fields this module reads and writes, plus `gen`, an
   * abstract identity that each regeneration replaces by a new one.
   */
  datatype Session = Session(gen: nat, userId: Option<UserId>, backUrl: Option<string>)

  /** What the operations see of the request: `req.user`, `req.session`, `req.originalUrl`. */
  datatype Request = Request(user: Option<User>, session: Option<Session>, originalUrl: string)

  /**
   * The `loginUrl` option: a fixed, possibly absent, value, or a resolver
   * called with the request. A missing options object is `Static(None)`.
   */
  datatype LoginUrl = Static(location: Option<string>) | Dynamic(resolve: Request -> Option<string>)

  /**
   * What the session store's `regenerate` does with the session data besides
   * giving it a new identity. The model does not decide which: every property
   * is proved for both.
   */
  datatype RegenMode = KeepData | DropData

  datatype Config = Config(loginUrl: LoginUrl, regen: RegenMode)

  /**
   * Observable effects, in the order they happen: a session regeneration, the
   * completion callback of `authenticate`/`unauthenticate`, `res.redirect`,
   * `res.status`, and `next()` without or with an error.
   */
  datatype Effect = Regenerated | Callback | Redirect(location: string) | Status(code: int) | Next | NextError

  /** A request/response pair: the request state and everything emitted so far. */
  datatype Exchange = Exchange(req: Request, effects: seq<Effect>)

  /** JavaScript truthiness of an optional string: absent and "" are falsy. */
  predicate Truthy(s: Option<string>) {
    s.Some? && s.value != ""
  }

  /** JavaScript `a || b` for an optional string and a string. */
  function Or(a: Option<string>, b: string): string {
    if Truthy(a) then a.value else b
  }

  /** JavaScript `v || null` for an optional string. */
  function OrNull(v: Option<string>): Option<string> {
    if Truthy(v) then v else None
  }

  function UserIdOf(r: Request): Option<UserId> {
    if r.session.Some? then r.session.value.userId else None
  }

  /** The session's identity, 0 when there is no session. */
  function Gen(r: Request): nat {
    if r.session.Some? then r.session.value.gen else 0
  }

  /** `session.regenerate`: a new identity; the data kept or dropped as the store does. */
  function Regenerate(mode: RegenMode, s: Session): (t: Session)
    ensures t.gen == s.gen + 1
    ensures mode == KeepData ==> t.userId == s.userId && t.backUrl == s.backUrl
    ensures mode == DropData ==> t.userId == None && t.backUrl == None
  {
    match mode
    case KeepData => s.(gen := s.gen + 1)
    case DropData => Session(s.gen + 1, None, None)
  }

  // ---------------------------------------------------------------------
  // Reads
  // ---------------------------------------------------------------------

  /** `req.isAuthenticated()`: `!!req.user`; users are modelled as records, which are truthy. */
  function IsAuthenticated(r: Request): (b: bool)
    ensures b <==> r.user != None
  {
    r.user.Some?
  }

  /** `req.isUnauthenticated()`: `!req.isAuthenticated()`. */
  function IsUnauthenticated(r: Request): (b: bool)
    ensures b <==> r.user == None
  {
    !IsAuthenticated(r)
  }

  /** `req.getLoginUrl()`. */
  function GetLoginUrl(l: LoginUrl, r: Request): (u: Option<string>)
    ensures l.Static? ==> u == l.location
    ensures l.Dynamic? ==> u == l.resolve(r)
  {
    match l
    case Static(v) => v
    case Dynamic(f) => f(r)
  }

  /** `req.getBackUrl()`: `req.session ? req.session.backUrl || null : null`. */
  function GetBackUrl(r: Request): (b: Option<string>)
    ensures b.Some? <==> r.session.Some? && Truthy(r.session.value.backUrl)
    ensures b.Some? ==> b == r.session.value.backUrl && b.value != ""
  {
    if r.session.Some? then OrNull(r.session.value.backUrl) else None
  }

  /** The two reads agree with each other and with the stored user. */
  lemma AuthenticationStatus(r: Request)
    ensures IsUnauthenticated(r) <==> !IsAuthenticated(r)
    ensures IsAuthenticated(r) <==> r.user != None
  {
  }

  /** A fixed login location ignores the request; a resolver sees the request as it is. */
  lemma LoginUrlResolution(l: LoginUrl, r1: Request, r2: Request)
    ensures l.Static? ==> GetLoginUrl(l, r1) == l.location == GetLoginUrl(l, r2)
    ensures l.Dynamic? ==> GetLoginUrl(l, r1) == l.resolve(r1)
  {
  }

  // ---------------------------------------------------------------------
  // Updates
  // ---------------------------------------------------------------------

  /** The session exists and is not already linked to this user's id. */
  predicate NeedsRegeneration(r: Request, u: User) {
    r.session.Some? && r.session.value.userId != Some(u.id)
  }

  /** `req.authenticate(user, callback)`. */
  function Authenticate(mode: RegenMode, x: Exchange, u: User): (y: Exchange)
    ensures y.req.user == Some(u) && IsAuthenticated(y.req)
    ensures y.req.originalUrl == x.req.originalUrl
    ensures y.req.session.Some? <==> x.req.session.Some?
    ensures y.req.session.Some? ==> y.req.session.value.userId == Some(u.id)
    ensures NeedsRegeneration(x.req, u) ==>
              Gen(y.req) == Gen(x.req) + 1 && y.effects == x.effects + [Regenerated, Callback]
    ensures !NeedsRegeneration(x.req, u) ==>
              y.req.session == x.req.session && y.effects == x.effects + [Callback]
  {
    var r := x.req.(user := Some(u));
    if NeedsRegeneration(x.req, u) then
      var s := Regenerate(mode, x.req.session.value);
      Exchange(r.(session := Some(s.(userId := Some(u.id)))), x.effects + [Regenerated, Callback])
    else
      Exchange(r, x.effects + [Callback])
  }

  /** `req.unauthenticate(callback)`. */
  function Unauthenticate(mode: RegenMode, x: Exchange): (y: Exchange)
    ensures y.req.user == None && !IsAuthenticated(y.req)
    ensures y.req.originalUrl == x.req.originalUrl
    ensures UserIdOf(y.req) == None
    ensures x.req.session.Some? ==>
              y.req.session.Some? && Gen(y.req) == Gen(x.req) + 1 &&
              y.effects == x.effects + [Regenerated, Callback]
    ensures x.req.session.None? ==>
              y.req.session == None && y.effects == x.effects + [Callback]
  {
    var r := x.req.(user := None);
    match x.req.session
    case None => Exchange(r, x.effects + [Callback])
    case Some(s) =>
      var t := Regenerate(mode, s.(userId := None));
      Exchange(r.(session := Some(t)), x.effects + [Regenerated, Callback])
  }

  /** `req.rememberAsBackUrl(url)`: stores `url || req.originalUrl`. */
  function RememberAsBackUrl(x: Exchange, url: Option<string>): (y: Exchange)
    ensures y.effects == x.effects
    ensures y.req.user == x.req.user && y.req.originalUrl == x.req.originalUrl
    ensures x.req.session.None? ==> y == x
    ensures x.req.session.Some? ==>
              y.req.session.Some? &&
              Gen(y.req) == Gen(x.req) && UserIdOf(y.req) == UserIdOf(x.req) &&
              y.req.session.value.backUrl == (if Truthy(url) then url else Some(x.req.originalUrl))
  {
    match x.req.session
    case None => x
    case Some(s) =>
      x.(req := x.req.(session := Some(s.(backUrl := Some(Or(url, x.req.originalUrl))))))
  }

  /** `req.forgetBackUrl()`. */
  function ForgetBackUrl(x: Exchange): (y: Exchange)
    ensures y.effects == x.effects
    ensures y.req.user == x.req.user && y.req.originalUrl == x.req.originalUrl
    ensures x.req.session.None? ==> y == x
    ensures x.req.session.Some? ==>
              y.req.session.Some? && y.req.session.value.backUrl == None &&
              Gen(y.req) == Gen(x.req) && UserIdOf(y.req) == UserIdOf(x.req)
    ensures GetBackUrl(y.req) == None
  {
    match x.req.session
    case None => x
    case Some(s) => x.(req := x.req.(session := Some(s.(backUrl := None))))
  }

  /** `res.redirectBackOr(url)`: redirects to `req.getBackUrl() || url`, then forgets the back URL. */
  function RedirectBackOr(x: Exchange, fallback: string): (y: Exchange)
    ensures y.req.user == x.req.user && y.req.originalUrl == x.req.originalUrl
    ensures x.req.session.None? ==> y == x
    ensures x.req.session.Some? ==>
              var b := x.req.session.value.backUrl;
              y.effects == x.effects + [Redirect(if Truthy(b) then b.value else fallback)] &&
              y.req.session.Some? && y.req.session.value.backUrl == None &&
              Gen(y.req) == Gen(x.req) && UserIdOf(y.req) == UserIdOf(x.req)
    ensures GetBackUrl(y.req) == None
  {
    if x.req.session.Some? then
      var target := Or(GetBackUrl(x.req), fallback);
      ForgetBackUrl(x.(effects := x.effects + [Redirect(target)]))
    else
      x
  }

  // ---------------------------------------------------------------------
  // Properties relating several operations
  // ---------------------------------------------------------------------

  /** A second `authenticate` with the same user regenerates nothing and changes no session data. */
  lemma AuthenticateIdempotent(mode: RegenMode, x: Exchange, u: User)
    ensures var y := Authenticate(mode, x, u);
            var z := Authenticate(mode, y, u);
            z.req == y.req && z.effects == y.effects + [Callback]
  {
  }

  /** A remembered back URL is used by exactly one `redirectBackOr`; the next one goes to its own fallback. */
  lemma BackUrlConsumedOnce(x: Exchange, first: string, second: string)
    requires x.req.session.Some? && Truthy(x.req.session.value.backUrl)
    ensures var y := RedirectBackOr(x, first);
            var z := RedirectBackOr(y, second);
            y.effects == x.effects + [Redirect(x.req.session.value.backUrl.value)] &&
            z.effects == y.effects + [Redirect(second)]
  {
  }

  /** Remembering and then reading back: `getBackUrl` returns what `rememberAsBackUrl` stored, unless it is "". */
  lemma RememberThenGet(x: Exchange, url: Option<string>)
    requires x.req.session.Some?
    ensures var y := RememberAsBackUrl(x, url);
            GetBackUrl(y.req) == (if Truthy(url) then url else OrNull(Some(x.req.originalUrl)))
  {
  }

  /** Logging out after logging in leaves no user and no linked id, and two fresh identities when a session exists. */
  lemma AuthenticateThenUnauthenticate(mode: RegenMode, x: Exchange, u: User)
    requires x.req.session.Some? && x.req.session.value.userId != Some(u.id)
    ensures var z := Unauthenticate(mode, Authenticate(mode, x, u));
            z.req.user == None && UserIdOf(z.req) == None && Gen(z.req) == Gen(x.req) + 2 &&
            z.effects == x.effects + [Regenerated, Callback, Regenerated, Callback]
  {
  }
}
