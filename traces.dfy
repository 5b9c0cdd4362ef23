/**
 * Sequences of the augmenter's and the guard's operations applied to one
 * request/session pair, and what holds after any such sequence: a session
 * identity is never linked to a user without being regenerated first, every
 * regeneration in the effect log is one new identity, and the attached user
 * is the one of the last login unless a logout followed it.
 */
module Traces {
  import opened Auth
  import Guard

  datatype Op =
    | Login(user: User)
    | Logout
    | Remember(url: Option<string>)
    | Forget
    | RedirectBack(fallback: string)
    | Authorize

  function Step(c: Config, x: Exchange, op: Op): Exchange {
    match op
    case Login(u) => Authenticate(c.regen, x, u)
    case Logout => Unauthenticate(c.regen, x)
    case Remember(url) => RememberAsBackUrl(x, url)
    case Forget => ForgetBackUrl(x)
    case RedirectBack(f) => RedirectBackOr(x, f)
    case Authorize => Guard.Authorize(c, x)
  }

  function Run(c: Config, x: Exchange, ops: seq<Op>): Exchange
    decreases |ops|
  {
    if ops == [] then x else Run(c, Step(c, x, ops[0]), ops[1..])
  }

  lemma {:induction false} RunSnoc(c: Config, x: Exchange, ops: seq<Op>, op: Op)
    ensures Run(c, x, ops + [op]) == Step(c, Run(c, x, ops), op)
    decreases |ops|
  {
    if ops == [] {
      assert [op][1..] == [];
    } else {
      assert (ops + [op])[1..] == ops[1..] + [op];
      RunSnoc(c, Step(c, x, ops[0]), ops[1..], op);
    }
  }

  // ---------------------------------------------------------------------
  // Regenerations in the log and the session identity
  // ---------------------------------------------------------------------

  function Regenerations(effects: seq<Effect>): nat
    decreases |effects|
  {
    if effects == [] then 0
    else (if effects[0].Regenerated? then 1 else 0) + Regenerations(effects[1..])
  }

  lemma {:induction false} RegenerationsAppend(a: seq<Effect>, b: seq<Effect>)
    ensures Regenerations(a + b) == Regenerations(a) + Regenerations(b)
    decreases |a|
  {
    if a == [] {
      assert a + b == b;
    } else {
      assert (a + b)[1..] == a[1..] + b;
      RegenerationsAppend(a[1..], b);
    }
  }

  /** Each step only appends to the log, and the identity grows by the number of regenerations it appends. */
  lemma StepAppends(c: Config, x: Exchange, op: Op)
    ensures var y := Step(c, x, op);
            |y.effects| >= |x.effects| && y.effects[..|x.effects|] == x.effects &&
            (y.req.session.Some? <==> x.req.session.Some?) &&
            Gen(y.req) == Gen(x.req) + Regenerations(y.effects[|x.effects|..])
  {
    var y := Step(c, x, op);
    var added := y.effects[|x.effects|..];
    assert y.effects == x.effects + added;
    assert Regenerations([Regenerated, Callback]) == 1 by {
      assert [Regenerated, Callback][1..] == [Callback];
      assert [Callback][1..] == [];
    }
    match op {
      case Login(u) =>
        if NeedsRegeneration(x.req, u) {
          assert added == [Regenerated, Callback];
        } else {
          assert added == [Callback];
        }
      case Logout =>
        if x.req.session.Some? {
          assert added == [Regenerated, Callback];
        } else {
          assert added == [Callback];
        }
      case Remember(url) =>
        assert added == [];
      case Forget =>
        assert added == [];
      case RedirectBack(f) =>
        if x.req.session.Some? {
          assert added == [y.effects[|x.effects|]] && !added[0].Regenerated?;
        } else {
          assert added == [];
        }
      case Authorize =>
        if IsAuthenticated(x.req) {
          assert added == [Next];
        } else if Truthy(GetLoginUrl(c.loginUrl, x.req)) {
          assert added == [Redirect(GetLoginUrl(c.loginUrl, x.req).value)];
        } else {
          assert added == [Status(Guard.Unauthorized), NextError];
          assert added[1..] == [NextError] && added[1..][1..] == [];
        }
    }
  }

  /**
   * Over any run, the session identity grows by exactly the number of
   * regenerations the run logs (a request without a session logs none).
   */
  lemma {:induction false} RegenerationsCounted(c: Config, x: Exchange, ops: seq<Op>)
    ensures var y := Run(c, x, ops);
            Gen(y.req) + Regenerations(x.effects) == Gen(x.req) + Regenerations(y.effects)
    ensures (Run(c, x, ops).req.session.Some? <==> x.req.session.Some?)
    decreases |ops|
  {
    if ops != [] {
      var x1 := Step(c, x, ops[0]);
      StepAppends(c, x, ops[0]);
      assert x1.effects == x.effects + x1.effects[|x.effects|..];
      RegenerationsAppend(x.effects, x1.effects[|x.effects|..]);
      RegenerationsCounted(c, x1, ops[1..]);
    }
  }

  // ---------------------------------------------------------------------
  // Session fixation
  // ---------------------------------------------------------------------

  /** A step that links the session to an id it was not linked to gives the session a new identity. */
  lemma StepLinksOnlyAfterRegeneration(c: Config, x: Exchange, op: Op, id: UserId)
    requires x.req.session.Some? && UserIdOf(x.req) != Some(id)
    ensures var y := Step(c, x, op);
            y.req.session.Some? && Gen(y.req) >= Gen(x.req) &&
            (UserIdOf(y.req) == Some(id) ==> Gen(y.req) > Gen(x.req))
  {
  }

  lemma {:induction false} NoFixationFrom(c: Config, x: Exchange, ops: seq<Op>, id: UserId, g0: nat)
    requires x.req.session.Some? && Gen(x.req) >= g0
    requires UserIdOf(x.req) == Some(id) ==> Gen(x.req) > g0
    ensures var y := Run(c, x, ops);
            y.req.session.Some? && Gen(y.req) >= g0 &&
            (UserIdOf(y.req) == Some(id) ==> Gen(y.req) > g0)
    decreases |ops|
  {
    if ops != [] {
      var x1 := Step(c, x, ops[0]);
      if UserIdOf(x.req) == Some(id) {
        StepAppends(c, x, ops[0]);
      } else {
        StepLinksOnlyAfterRegeneration(c, x, ops[0], id);
      }
      NoFixationFrom(c, x1, ops[1..], id, g0);
    }
  }

  /**
   * The session-fixation guarantee: if a session is not linked to a user's
   * id, no sequence of operations links that same session identity to it;
   * by the time it is linked, the session has been regenerated.
   */
  lemma NoSessionFixation(c: Config, x: Exchange, ops: seq<Op>, id: UserId)
    requires x.req.session.Some? && x.req.session.value.userId != Some(id)
    ensures var y := Run(c, x, ops);
            y.req.session.Some? &&
            (y.req.session.value.userId == Some(id) ==> y.req.session.value.gen > x.req.session.value.gen)
  {
    NoFixationFrom(c, x, ops, id, Gen(x.req));
  }

  // ---------------------------------------------------------------------
  // The attached user
  // ---------------------------------------------------------------------

  /** Reference definition: the user of the last login, unless a logout came after it. */
  function LastUser(u0: Option<User>, ops: seq<Op>): Option<User>
    decreases |ops|
  {
    if ops == [] then u0
    else match ops[|ops| - 1]
      case Login(u) => Some(u)
      case Logout => None
      case _ => LastUser(u0, ops[..|ops| - 1])
  }

  /** After any run, the attached user is the one the reference definition names. */
  lemma {:induction false} UserAfterRun(c: Config, x: Exchange, ops: seq<Op>)
    ensures Run(c, x, ops).req.user == LastUser(x.req.user, ops)
    ensures IsAuthenticated(Run(c, x, ops).req) <==> LastUser(x.req.user, ops).Some?
    decreases |ops|
  {
    if ops != [] {
      var init, last := ops[..|ops| - 1], ops[|ops| - 1];
      assert ops == init + [last];
      RunSnoc(c, x, init, last);
      UserAfterRun(c, x, init);
    }
  }

  // ---------------------------------------------------------------------
  // The login round trip
  // ---------------------------------------------------------------------

  /**
   * A visitor stopped by the guard, then logged in, is sent back to the page
   * first asked for, provided the back URL survives the login. It does when
   * the store keeps session data over a regeneration or no regeneration is
   * needed; otherwise the fallback is used.
   */
  lemma LoginRoundTrip(c: Config, x: Exchange, u: User, home: string)
    requires !IsAuthenticated(x.req) && x.req.session.Some? && x.req.originalUrl != ""
    requires Truthy(GetLoginUrl(c.loginUrl, x.req))
    ensures var y := Run(c, x, [Authorize, Login(u), RedirectBack(home)]);
            var back := c.regen == KeepData || !NeedsRegeneration(x.req, u);
            |y.effects| > 0 && y.effects[|y.effects| - 1] == Redirect(if back then x.req.originalUrl else home) &&
            y.req.user == Some(u) && GetBackUrl(y.req) == None
  {
    var x1 := Step(c, x, Authorize);
    var x2 := Step(c, x1, Login(u));
    var x3 := Step(c, x2, RedirectBack(home));
    var ops := [Authorize, Login(u), RedirectBack(home)];
    assert ops[1..][1..][1..] == [];
    assert Run(c, x2, ops[1..][1..]) == x3;
    assert Run(c, x1, ops[1..]) == x3;
    assert Run(c, x, ops) == x3;
  }
}
