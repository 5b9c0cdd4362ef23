/**
 * The request/response pair as the session augmenter (lib/init.js) leaves
 * it: the operations it installs on `req` and `res` become methods that
 * update the request's fields in place. Redirects, status codes, `next` and
 * the completion callbacks are recorded in a ghost effect log. Every update
 * that lib/init.js installs is proved to move the pair exactly as the
 * corresponding function of module Auth says.
 */
module Middleware {
  import opened Auth

  class Context {
    var user: Option<User>
    var session: Option<Session>
    const originalUrl: string
    const config: Config
    ghost var effects: seq<Effect>

    constructor (config: Config, originalUrl: string, user: Option<User>, session: Option<Session>)
      ensures this.config == config && this.originalUrl == originalUrl
      ensures this.user == user && this.session == session && effects == []
    {
      this.config := config;
      this.originalUrl := originalUrl;
      this.user := user;
      this.session := session;
      effects := [];
    }

    /** The request as the login resolver and the read operations see it. */
    function Snapshot(): Request
      reads this
    {
      Request(user, session, originalUrl)
    }

    ghost function Model(): Exchange
      reads this
    {
      Exchange(Snapshot(), effects)
    }

    function IsAuthenticated(): (b: bool)
      reads this
      ensures b <==> user != None
    {
      Auth.IsAuthenticated(Snapshot())
    }

    function IsUnauthenticated(): (b: bool)
      reads this
      ensures b <==> user == None
    {
      Auth.IsUnauthenticated(Snapshot())
    }

    function GetLoginUrl(): (u: Option<string>)
      reads this
      ensures config.loginUrl.Static? ==> u == config.loginUrl.location
      ensures config.loginUrl.Dynamic? ==> u == config.loginUrl.resolve(Snapshot())
    {
      Auth.GetLoginUrl(config.loginUrl, Snapshot())
    }

    function GetBackUrl(): (b: Option<string>)
      reads this
      ensures b.Some? <==> session.Some? && session.value.backUrl.Some? && session.value.backUrl.value != ""
      ensures b.Some? ==> b == session.value.backUrl
    {
      Auth.GetBackUrl(Snapshot())
    }

    /** `req.session.regenerate`, completing synchronously. */
    method RegenerateSession()
      requires session.Some?
      modifies this
      ensures session == Some(Regenerate(config.regen, old(session.value)))
      ensures user == old(user) && effects == old(effects) + [Regenerated]
    {
      session := Some(Regenerate(config.regen, session.value));
      effects := effects + [Regenerated];
    }

    /** `req.authenticate(user, callback)`. */
    method Authenticate(u: User)
      modifies this
      ensures Model() == Auth.Authenticate(config.regen, old(Model()), u)
      ensures user == Some(u) && IsAuthenticated()
      ensures session.Some? ==> session.value.userId == Some(u.id)
      ensures NeedsRegeneration(old(Snapshot()), u) ==>
                session.Some? && session.value.gen == old(session.value.gen) + 1 &&
                effects == old(effects) + [Regenerated, Callback]
      ensures !NeedsRegeneration(old(Snapshot()), u) ==>
                session == old(session) && effects == old(effects) + [Callback]
    {
      user := Some(u);
      if session.Some? && session.value.userId != Some(u.id) {
        RegenerateSession();
        session := Some(session.value.(userId := Some(u.id)));
      }
      effects := effects + [Callback];
    }

    /** `req.unauthenticate(callback)`. */
    method Unauthenticate()
      modifies this
      ensures Model() == Auth.Unauthenticate(config.regen, old(Model()))
      ensures user == None && !IsAuthenticated()
      ensures old(session).Some? ==>
                session.Some? && session.value.userId == None &&
                session.value.gen == old(session.value.gen) + 1 &&
                effects == old(effects) + [Regenerated, Callback]
      ensures old(session).None? ==> session == None && effects == old(effects) + [Callback]
    {
      user := None;
      if session.Some? {
        session := Some(session.value.(userId := None));
        RegenerateSession();
      }
      effects := effects + [Callback];
    }

    /** `req.rememberAsBackUrl(url)`. */
    method RememberAsBackUrl(url: Option<string>)
      modifies this
      ensures Model() == Auth.RememberAsBackUrl(old(Model()), url)
      ensures user == old(user) && effects == old(effects)
      ensures old(session).None? ==> session == None
      ensures old(session).Some? ==>
                session == Some(old(session.value).(backUrl := Some(Or(url, originalUrl))))
    {
      if session.Some? {
        session := Some(session.value.(backUrl := Some(Or(url, originalUrl))));
      }
    }

    /** `req.forgetBackUrl()`. */
    method ForgetBackUrl()
      modifies this
      ensures Model() == Auth.ForgetBackUrl(old(Model()))
      ensures user == old(user) && effects == old(effects)
      ensures old(session).None? ==> session == None
      ensures old(session).Some? ==> session == Some(old(session.value).(backUrl := None))
      ensures GetBackUrl() == None
    {
      if session.Some? {
        session := Some(session.value.(backUrl := None));
      }
    }

    /** `res.redirect(location)`. */
    method SendRedirect(location: string)
      modifies this
      ensures user == old(user) && session == old(session)
      ensures effects == old(effects) + [Redirect(location)]
    {
      effects := effects + [Redirect(location)];
    }

    /** `res.status(code)`. */
    method SetStatus(code: int)
      modifies this
      ensures user == old(user) && session == old(session)
      ensures effects == old(effects) + [Status(code)]
    {
      effects := effects + [Status(code)];
    }

    /** `next()` and `next(error)` of the guard. */
    method CallNext(withError: bool)
      modifies this
      ensures user == old(user) && session == old(session)
      ensures effects == old(effects) + [if withError then NextError else Next]
    {
      effects := effects + [if withError then NextError else Next];
    }

    /** `res.redirectBackOr(url)`. */
    method RedirectBackOr(fallback: string)
      modifies this
      ensures Model() == Auth.RedirectBackOr(old(Model()), fallback)
      ensures user == old(user)
      ensures old(session).None? ==> session == None && effects == old(effects)
      ensures old(session).Some? ==>
                session == Some(old(session.value).(backUrl := None)) &&
                effects == old(effects) + [Redirect(Or(old(session.value.backUrl), fallback))]
    {
      if session.Some? {
        var target := Or(GetBackUrl(), fallback);
        SendRedirect(target);
        ForgetBackUrl();
      }
    }
  }
}
