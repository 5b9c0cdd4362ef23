/**
 * The access guard (lib/authorize.js) on values: the three-way decision made
 * from `isAuthenticated()` and `getLoginUrl()`, and the effect of carrying it
 * out on the exchange.
 */
module Guard {
  import opened Auth

  datatype Outcome = Proceed | RedirectToLogin(location: string) | Reject

  /** The guard's decision: proceed, send to a truthy login location, or refuse. */
  function Decide(authenticated: bool, loginUrl: Option<string>): (o: Outcome)
    ensures o.Proceed? <==> authenticated
    ensures o.RedirectToLogin? <==> !authenticated && Truthy(loginUrl)
    ensures o.Reject? <==> !authenticated && !Truthy(loginUrl)
    ensures o.RedirectToLogin? ==> Some(o.location) == loginUrl && o.location != ""
  {
    if authenticated then Proceed
    else if Truthy(loginUrl) then RedirectToLogin(loginUrl.value)
    else Reject
  }

  /** The status code set when no login location can be resolved. */
  const Unauthorized := 401

  /** The guard middleware applied to one exchange. */
  function Authorize(c: Config, x: Exchange): (y: Exchange)
    ensures y.req.user == x.req.user && UserIdOf(y.req) == UserIdOf(x.req)
    ensures Gen(y.req) == Gen(x.req) && y.req.originalUrl == x.req.originalUrl
    ensures IsAuthenticated(x.req) ==>
              y.req == x.req && y.effects == x.effects + [Next]
    ensures !IsAuthenticated(x.req) && Truthy(GetLoginUrl(c.loginUrl, x.req)) ==>
              y.effects == x.effects + [Redirect(GetLoginUrl(c.loginUrl, x.req).value)] &&
              (x.req.session.Some? ==> y.req.session.Some? && y.req.session.value.backUrl == Some(x.req.originalUrl)) &&
              (x.req.session.None? ==> y.req.session == None)
    ensures !IsAuthenticated(x.req) && !Truthy(GetLoginUrl(c.loginUrl, x.req)) ==>
              y.req == x.req && y.effects == x.effects + [Status(Unauthorized), NextError]
  {
    match Decide(IsAuthenticated(x.req), GetLoginUrl(c.loginUrl, x.req))
    case Proceed => x.(effects := x.effects + [Next])
    case RedirectToLogin(location) =>
      var y := RememberAsBackUrl(x, None);
      y.(effects := y.effects + [Redirect(location)])
    case Reject => x.(effects := x.effects + [Status(Unauthorized), NextError])
  }

  /** Whether `next` is called, with or without an error, by the effects added in one step. */
  predicate CallsNext(added: seq<Effect>) {
    exists i :: 0 <= i < |added| && (added[i].Next? || added[i].NextError?)
  }

  predicate Redirects(added: seq<Effect>) {
    exists i :: 0 <= i < |added| && added[i].Redirect?
  }

  /**
   * Exactly one of the three outcomes happens: `next()` alone, a redirect
   * without `next`, or status 401 followed by `next(error)` without a redirect.
   */
  lemma ExactlyOneOutcome(c: Config, x: Exchange)
    ensures var y := Authorize(c, x);
            |y.effects| > |x.effects| && y.effects[..|x.effects|] == x.effects &&
            var added := y.effects[|x.effects|..];
            (added == [Next]) ||
            (Redirects(added) && !CallsNext(added)) ||
            (added == [Status(Unauthorized), NextError] && !Redirects(added))
  {
  }

  /** Guard scenario: an unauthenticated visitor is sent to "/login" and the visited path is remembered. */
  lemma RedirectsToLogin(x: Exchange)
    requires !IsAuthenticated(x.req) && x.req.session.Some? && x.req.originalUrl != ""
    ensures var y := Authorize(Config(Static(Some("/login")), KeepData), x);
            y.effects == x.effects + [Redirect("/login")] &&
            GetBackUrl(y.req) == Some(x.req.originalUrl)
  {
  }
}
