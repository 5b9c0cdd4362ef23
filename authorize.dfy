/**
 * The access guard (lib/authorize.js) carried out on a request/response
 * pair, step by step as the middleware does it.
 */
module AccessGuard {
  import opened Auth
  import Guard
  import Middleware

  method Authorize(ctx: Middleware.Context)
    modifies ctx
    ensures ctx.Model() == Guard.Authorize(ctx.config, old(ctx.Model()))
    ensures ctx.user == old(ctx.user) && UserIdOf(ctx.Snapshot()) == UserIdOf(old(ctx.Snapshot()))
    ensures old(ctx.IsAuthenticated()) ==>
              ctx.session == old(ctx.session) && ctx.effects == old(ctx.effects) + [Next]
    ensures old(ctx.IsUnauthenticated()) && Truthy(old(ctx.GetLoginUrl())) ==>
              ctx.effects == old(ctx.effects) + [Redirect(old(ctx.GetLoginUrl()).value)] &&
              (old(ctx.session).Some? ==> ctx.session.Some? && ctx.session.value.backUrl == Some(ctx.originalUrl))
    ensures old(ctx.IsUnauthenticated()) && !Truthy(old(ctx.GetLoginUrl())) ==>
              ctx.session == old(ctx.session) &&
              ctx.effects == old(ctx.effects) + [Status(Guard.Unauthorized), NextError]
  {
    if ctx.IsAuthenticated() {
      ctx.CallNext(false);
      return;
    }
    var loginUrl := ctx.GetLoginUrl();
    if Truthy(loginUrl) {
      ctx.RememberAsBackUrl(None);
      ctx.SendRedirect(loginUrl.value);
    } else {
      ctx.SetStatus(Guard.Unauthorized);
      ctx.CallNext(true);
    }
  }
}
