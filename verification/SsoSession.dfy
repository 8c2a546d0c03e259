/**
 Expiry of single sign-on sessions (`redeem`, `create_auth_tokens`, `create_auth_tokens_impl` and
 `exchange_refresh_token` in src/sso.rs, the SSO branches of `refresh_tokens` and the claims in
 src/auth.rs). Times are whole seconds, as in the claims.
 */
module SsoSession {
  import opened Common

  type Instant = int

  const BW_EXPIRATION: int := 300
  const LEEWAY: int := 30
  const DEFAULT_ACCESS_VALIDITY: int := 7200
  const DEFAULT_REFRESH_VALIDITY: int := 2_592_000
  const MOBILE_REFRESH_VALIDITY: int := 7_776_000

  /** Which provider token the refresh token carries. */
  datatype Wrapper = Access(token: string) | Refresh(token: string)

  datatype Claims = Claims(nbf: Instant, exp: Instant)

  datatype Pair = Pair(access: Claims, refresh: Claims, wrapper: Option<Wrapper>)

  /** A provider token as `decode_token_claims` reads it: its claims, or `None` if it is opaque,
      expired or from another issuer. */
  datatype ProviderToken = ProviderToken(token: string, claims: Option<Claims>)

  /** `AuthTokens::new`. */
  function Default(now: Instant, mobile: bool): Pair {
    Pair(Claims(now, now + DEFAULT_ACCESS_VALIDITY),
         Claims(now, now + if mobile then MOBILE_REFRESH_VALIDITY else DEFAULT_REFRESH_VALIDITY),
         None)
  }

  /** `create_auth_tokens_impl`. */
  function Wrapped(refresh: Option<ProviderToken>, access: Claims, accessToken: string, now: Instant): Pair {
    match refresh
    case Some(rt) =>
      var claims := if rt.claims.Some? then rt.claims.value else Claims(now, now + DEFAULT_REFRESH_VALIDITY);
      Pair(access, claims, Some(Refresh(rt.token)))
    case None => Pair(access, access, Some(Access(accessToken)))
  }

  /** `create_auth_tokens`, and `redeem` after it deleted the record: `None` is an error. */
  function Created(authOnly: bool, mobile: bool, refresh: Option<ProviderToken>, access: ProviderToken,
                   expiresIn: Option<int>, now: Instant): Option<Pair> {
    if authOnly then Some(Default(now, mobile))
    else if access.claims.Some? then Some(Wrapped(refresh, access.claims.value, access.token, now))
    else if expiresIn.Some? then Some(Wrapped(refresh, Claims(now, now + expiresIn.value), access.token, now))
    else None
  }

  /** What the provider says to a refresh: to the exchange of a refresh token, or to the check
      of an access token. */
  datatype Answer =
    | Denied
    | Renewed(newRefresh: Option<ProviderToken>, access: ProviderToken, expiresIn: Option<int>)
    | StillValid

  /** `exchange_refresh_token`; `old` is how the presented refresh token decodes now. */
  function Exchanged(p: Pair, old': Option<Claims>, answer: Answer, mobile: bool, now: Instant): Option<Pair> {
    match p.wrapper
    case Some(Refresh(rt)) =>
      if !answer.Renewed? then None
      else
        var kept := if answer.newRefresh.Some? then answer.newRefresh.value else ProviderToken(rt, old');
        Created(false, mobile, Some(kept), answer.access, answer.expiresIn, now)
    case Some(Access(at)) =>
      if p.refresh.exp < now + BW_EXPIRATION || !answer.StillValid? then None
      else Some(Wrapped(None, Claims(now, p.refresh.exp), at, now))
    case None => None
  }

  /** How the server is configured at a refresh. */
  datatype Mode = Disabled | SignInOnly | Session

  /** `decode_refresh`: the claims are in force, give or take the leeway. */
  predicate Decodes(c: Claims, now: Instant) {
    now - LEEWAY <= c.exp && c.nbf <= now + LEEWAY
  }

  /** The SSO branches of `refresh_tokens`. */
  function Refreshed(p: Pair, mode: Mode, old': Option<Claims>, answer: Answer, mobile: bool,
                     now: Instant): Option<Pair> {
    if !Decodes(p.refresh, now) then None
    else
      match mode
      case Disabled => None
      case SignInOnly => Some(Default(now, mobile))
      case Session => Exchanged(p, old', answer, mobile, now)
  }

  // ---------------------------------------------------------------- chains of refreshes

  /** A refresh of any pair issued so far: SSO refreshes do not rotate the device secret, so
      older pairs stay presentable. The mode can change between refreshes. */
  datatype Attempt =
    Attempt(index: nat, mode: Mode, old': Option<Claims>, answer: Answer, mobile: bool, now: Instant)

  function Next(pairs: seq<Pair>, a: Attempt): seq<Pair> {
    if a.index >= |pairs| then pairs
    else
      match Refreshed(pairs[a.index], a.mode, a.old', a.answer, a.mobile, a.now)
      case Some(p) => pairs + [p]
      case None => pairs
  }

  /** Every pair issued, the first ones in front. */
  function Issued(pairs: seq<Pair>, attempts: seq<Attempt>): (all: seq<Pair>)
    ensures pairs <= all
    decreases |attempts|
  {
    if attempts == [] then pairs else Issued(Next(pairs, attempts[0]), attempts[1..])
  }

  /** A pair of a session without provider refresh token: it ends at `exp`. */
  predicate Bounded(p: Pair, token: string, exp: Instant) {
    p.wrapper == Some(Access(token)) && p.access.exp == exp && p.refresh == p.access
  }

  /** One of the refreshes, in sign-in-only mode, gave the pair. */
  ghost predicate ForSignIn(p: Pair, attempts: seq<Attempt>) {
    exists j | 0 <= j < |attempts| ::
      attempts[j].mode.SignInOnly? && p == Default(attempts[j].now, attempts[j].mobile)
  }

  lemma ForSignInLater(p: Pair, attempts: seq<Attempt>)
    requires attempts != [] && ForSignIn(p, attempts[1..])
    ensures ForSignIn(p, attempts)
  {
    var j :| 0 <= j < |attempts[1..]| && attempts[1..][j].mode.SignInOnly?
             && p == Default(attempts[1..][j].now, attempts[1..][j].mobile);
    assert attempts[j + 1] == attempts[1..][j];
  }

  lemma {:induction false} ChainStaysBounded(pairs: seq<Pair>, attempts: seq<Attempt>, token: string, exp: Instant)
    requires forall k | 0 <= k < |pairs| :: Bounded(pairs[k], token, exp) || pairs[k].wrapper.None?
    ensures forall k | |pairs| <= k < |Issued(pairs, attempts)| ::
              var p := Issued(pairs, attempts)[k];
              (Bounded(p, token, exp) && p.access.nbf + BW_EXPIRATION <= exp) || ForSignIn(p, attempts)
    decreases |attempts|
  {
    if attempts != [] {
      var pairs' := Next(pairs, attempts[0]);
      var all := Issued(pairs', attempts[1..]);
      ChainStaysBounded(pairs', attempts[1..], token, exp);
      forall k | |pairs| <= k < |all|
        ensures (Bounded(all[k], token, exp) && all[k].access.nbf + BW_EXPIRATION <= exp) || ForSignIn(all[k], attempts)
      {
        if k < |pairs'| {
          assert all[k] == pairs'[k];
          if attempts[0].mode.SignInOnly? { assert ForSignIn(all[k], attempts); }
        } else if ForSignIn(all[k], attempts[1..]) {
          ForSignInLater(all[k], attempts);
        }
      }
    }
  }

  /** A session redeemed without a provider refresh token ends when it was first due: however
      it is refreshed and the mode changes, every pair has the access and refresh expiry of the
      first, with the refresh at least five minutes before it, unless it was given in
      sign-in-only mode. */
  lemma SessionWithoutRefreshTokenIsNotExtended(mobile: bool, access: ProviderToken, expiresIn: Option<int>,
                                                now: Instant, attempts: seq<Attempt>)
    requires Created(false, mobile, None, access, expiresIn, now).Some?
    ensures var first := Created(false, mobile, None, access, expiresIn, now).value;
            var all := Issued([first], attempts);
            && all[0] == first && Bounded(first, access.token, first.access.exp)
            && forall k | 1 <= k < |all| ::
                 || (Bounded(all[k], access.token, first.access.exp)
                     && all[k].access.nbf + BW_EXPIRATION <= first.access.exp)
                 || ForSignIn(all[k], attempts)
  {
    var first := Created(false, mobile, None, access, expiresIn, now).value;
    ChainStaysBounded([first], attempts, access.token, first.access.exp);
  }

  predicate NeverSignInOnly(attempts: seq<Attempt>) {
    forall j | 0 <= j < |attempts| :: !attempts[j].mode.SignInOnly?
  }

  /** What sign-in-only mode gave ends with it: once the mode is not used again, every further
      pair has the expiry of the first, whichever pair is presented. */
  lemma SignInOnlyPairsEndWithTheMode(first: Pair, token: string, before: seq<Attempt>, after: seq<Attempt>)
    requires Bounded(first, token, first.access.exp) && NeverSignInOnly(after)
    ensures var some := Issued([first], before);
            forall k | |some| <= k < |Issued(some, after)| ::
              Bounded(Issued(some, after)[k], token, first.access.exp)
  {
    var some := Issued([first], before);
    ChainStaysBounded([first], before, token, first.access.exp);
    ChainStaysBounded(some, after, token, first.access.exp);
  }

  /** The starting times of all pairs, from answers and times alone: an attempt in session mode
      adds one if and only if it names a pair that has started, the provider still accepts the
      access token, and five minutes remain. */
  function Starts(times: seq<Instant>, exp: Instant, attempts: seq<Attempt>): seq<Instant>
    decreases |attempts|
  {
    if attempts == [] then times
    else
      var a := attempts[0];
      var granted := a.mode.Session? && a.index < |times| && times[a.index] <= a.now + 30
                     && a.answer.StillValid? && a.now + 300 <= exp;
      Starts(if granted then times + [a.now] else times, exp, attempts[1..])
  }

  /** Until it is due such a session can be refreshed: exactly the pairs of `Starts` are issued,
      all for the same provider token and expiry. */
  lemma {:induction false} SessionIsRefreshedExactly(pairs: seq<Pair>, times: seq<Instant>, token: string, exp: Instant,
                                                     attempts: seq<Attempt>)
    requires NeverSignInOnly(attempts) && |times| == |pairs|
    requires forall k | 0 <= k < |pairs| :: Bounded(pairs[k], token, exp) && pairs[k].access.nbf == times[k]
    ensures var all, starts := Issued(pairs, attempts), Starts(times, exp, attempts);
            && |all| == |starts|
            && forall k | 0 <= k < |all| :: Bounded(all[k], token, exp) && all[k].access.nbf == starts[k]
    decreases |attempts|
  {
    if attempts != [] {
      var a := attempts[0];
      var granted := a.mode.Session? && a.index < |times| && times[a.index] <= a.now + 30
                     && a.answer.StillValid? && a.now + 300 <= exp;
      assert |Next(pairs, a)| > |pairs| <==> granted;
      SessionIsRefreshedExactly(Next(pairs, a), if granted then times + [a.now] else times, token, exp, attempts[1..]);
    }
  }

  predicate HasRefreshToken(p: Pair) {
    p.wrapper.Some? && p.wrapper.value.Refresh?
  }

  /** A session keeps the kind of provider token it started with: one that has a provider refresh
      token never loses it, but for the pairs that sign-in-only mode gives. */
  lemma {:induction false} KindOfSessionIsKept(pairs: seq<Pair>, attempts: seq<Attempt>)
    requires forall k | 0 <= k < |pairs| :: HasRefreshToken(pairs[k]) || pairs[k].wrapper.None?
    ensures forall k | |pairs| <= k < |Issued(pairs, attempts)| ::
              HasRefreshToken(Issued(pairs, attempts)[k]) || ForSignIn(Issued(pairs, attempts)[k], attempts)
    decreases |attempts|
  {
    if attempts != [] {
      var pairs' := Next(pairs, attempts[0]);
      var all := Issued(pairs', attempts[1..]);
      KindOfSessionIsKept(pairs', attempts[1..]);
      forall k | |pairs| <= k < |all| ensures HasRefreshToken(all[k]) || ForSignIn(all[k], attempts) {
        if k < |pairs'| {
          assert all[k] == pairs'[k];
          if attempts[0].mode.SignInOnly? { assert ForSignIn(all[k], attempts); }
        } else if ForSignIn(all[k], attempts[1..]) {
          ForSignInLater(all[k], attempts);
        }
      }
    }
  }

  lemma {:induction false} ExpiredPairsGiveNothing(pairs: seq<Pair>, attempts: seq<Attempt>)
    requires forall k, j | 0 <= k < |pairs| && 0 <= j < |attempts| :: pairs[k].refresh.exp + LEEWAY < attempts[j].now
    ensures Issued(pairs, attempts) == pairs
    decreases |attempts|
  {
    if attempts != [] {
      assert Next(pairs, attempts[0]) == pairs;
      ExpiredPairsGiveNothing(pairs, attempts[1..]);
    }
  }

  lemma {:induction false} IssuedConcat(pairs: seq<Pair>, before: seq<Attempt>, after: seq<Attempt>)
    ensures Issued(pairs, before + after) == Issued(Issued(pairs, before), after)
    decreases |before|
  {
    if before == [] {
      assert before + after == after;
    } else {
      assert (before + after)[1..] == before[1..] + after;
      IssuedConcat(Next(pairs, before[0]), before[1..], after);
    }
  }

  /** A pair without provider token, given by the time `last`. */
  predicate GivenBy(p: Pair, last: Instant) {
    p.wrapper.None? && p.refresh.exp <= last + MOBILE_REFRESH_VALIDITY
  }

  lemma {:induction false} SignInPairsAreGivenBy(pairs: seq<Pair>, attempts: seq<Attempt>, last: Instant)
    requires forall k | 0 <= k < |pairs| :: GivenBy(pairs[k], last)
    requires forall j | 0 <= j < |attempts| :: attempts[j].now <= last
    ensures forall k | 0 <= k < |Issued(pairs, attempts)| :: GivenBy(Issued(pairs, attempts)[k], last)
    decreases |attempts|
  {
    if attempts != [] {
      var pairs' := Next(pairs, attempts[0]);
      forall k | 0 <= k < |pairs'| ensures GivenBy(pairs'[k], last) {
        if k < |pairs| { assert pairs'[k] == pairs[k] && GivenBy(pairs[k], last); }
      }
      SignInPairsAreGivenBy(pairs', attempts[1..], last);
    }
  }

  /** An idle sign-in-only session ends: after a pause of 90 days and the leeway, however the
      session was refreshed before and whatever the mode is then, nothing more is issued. */
  lemma {:induction false} IdleSessionsEnd(start: Instant, mobile: bool, before: seq<Attempt>, after: seq<Attempt>,
                                           last: Instant)
    requires start <= last && forall j | 0 <= j < |before| :: before[j].now <= last
    requires forall j | 0 <= j < |after| :: last + 90 * 86_400 + 30 < after[j].now
    ensures var first := [Default(start, mobile)];
            Issued(first, before + after) == Issued(first, before)
  {
    var first := [Default(start, mobile)];
    IssuedConcat(first, before, after);
    SignInPairsAreGivenBy(first, before, last);
    var all := Issued(first, before);
    forall k, j | 0 <= k < |all| && 0 <= j < |after| ensures all[k].refresh.exp + LEEWAY < after[j].now {
      assert GivenBy(all[k], last);
    }
    ExpiredPairsGiveNothing(all, after);
  }

  // ---------------------------------------------------------------- opening a session

  /** What a redeemed login opens. In sign-in-only mode: two hours of access and 30 days of refresh,
      90 on mobile devices. Otherwise access as long as the provider's token says, or else its
      `expires_in`, and an error if neither says; with a provider refresh token the session can be
      refreshed as long as that token says, or else 30 days; without one, as long as access. */
  lemma SessionOpens(authOnly: bool, mobile: bool, refresh: Option<ProviderToken>, access: ProviderToken,
                     expiresIn: Option<int>, now: Instant)
    ensures var p := Created(authOnly, mobile, refresh, access, expiresIn, now);
            && (p.None? <==> !authOnly && access.claims.None? && expiresIn.None?)
            && (p.Some? ==>
                  && (p.value.wrapper.None? <==> authOnly)
                  && (authOnly || access.claims.None? ==>
                        && p.value.access.nbf == now
                        && p.value.access.exp == now + if authOnly then 2 * 3600 else expiresIn.value)
                  && (!authOnly && access.claims.Some? ==> Some(p.value.access) == access.claims)
                  && (authOnly ==> p.value.refresh == Claims(now, now + (if mobile then 90 else 30) * 86_400))
                  && (!authOnly && refresh.None? ==>
                        p.value.wrapper == Some(Access(access.token)) && p.value.refresh == p.value.access)
                  && (!authOnly && refresh.Some? ==>
                        && p.value.wrapper == Some(Refresh(refresh.value.token))
                        && p.value.refresh == if refresh.value.claims.Some? then refresh.value.claims.value
                                              else Claims(now, now + 30 * 86_400)))
  {
  }

  /** A sign-in-only session opened at `now` is refreshed at `t` exactly within its 30 or 90 days,
      give or take half a minute, and then starts anew. */
  lemma SignInSessionWindow(now: Instant, mobile: bool, a: Attempt)
    requires a.index == 0 && a.mode.SignInOnly?
    ensures Issued([Default(now, mobile)], [a]) ==
            if now - 30 <= a.now <= now + (if mobile then 90 else 30) * 86_400 + 30
            then [Default(now, mobile), Default(a.now, a.mobile)] else [Default(now, mobile)]
  {
    assert [a][1..] == [];
  }

  // ---------------------------------------------------------------- sessions with a provider refresh token

  /** The answer renews: it comes with a new access token whose end is known. */
  predicate Renews(a: Answer) {
    a.Renewed? && (a.access.claims.Some? || a.expiresIn.Some?)
  }

  /** The provider's refresh token from the answer on. */
  function TokenFrom(token: string, a: Attempt): ProviderToken {
    if a.answer.Renewed? && a.answer.newRefresh.Some? then a.answer.newRefresh.value else ProviderToken(token, a.old')
  }

  /** The pair is of a session whose provider refresh token is now `rt`, by the answer to `a`. */
  predicate RenewedBy(p: Pair, rt: ProviderToken, a: Attempt)
    requires Renews(a.answer)
  {
    && p.wrapper == Some(Refresh(rt.token))
    && p.refresh == (if rt.claims.Some? then rt.claims.value else Claims(a.now, a.now + 30 * 86_400))
    && p.access == if a.answer.access.claims.Some? then a.answer.access.claims.value
                   else Claims(a.now, a.now + a.answer.expiresIn.value)
  }

  /** Session-mode refreshes, each of the pair that is then the newest. */
  predicate Follows(pairs: seq<Pair>, attempts: seq<Attempt>)
    decreases |attempts|
  {
    attempts == [] || (attempts[0].index + 1 == |pairs| && attempts[0].mode.Session?
                       && Follows(Next(pairs, attempts[0]), attempts[1..]))
  }

  predicate Presentable(p: Pair, now: Instant) {
    p.refresh.nbf - 30 <= now <= p.refresh.exp + 30
  }

  /** The answers that were granted, by the newest pair at each attempt. */
  function Granted(pairs: seq<Pair>, attempts: seq<Attempt>): seq<Attempt>
    requires pairs != []
    decreases |attempts|
  {
    if attempts == [] then []
    else
      var a := attempts[0];
      (if Presentable(pairs[|pairs| - 1], a.now) && Renews(a.answer) then [a] else [])
      + Granted(Next(pairs, a), attempts[1..])
  }

  /** The last token among the answers, or `token` if none brought one. */
  function LastToken(token: string, granted: seq<Attempt>): string
    decreases |granted|
  {
    if granted == [] then token
    else TokenFrom(LastToken(token, granted[..|granted| - 1]), granted[|granted| - 1]).token
  }

  /** What the granted refreshes make of a session whose newest pair was `p`. */
  predicate LedTo(p: Pair, granted: seq<Attempt>, newest: Pair)
    requires HasRefreshToken(p)
  {
    if granted == [] then newest == p
    else
      var before, last := granted[..|granted| - 1], granted[|granted| - 1];
      Renews(last.answer) && RenewedBy(newest, TokenFrom(LastToken(p.wrapper.value.token, before), last), last)
  }

  lemma {:induction false} LastTokenCons(token: string, a: Attempt, rest: seq<Attempt>)
    ensures LastToken(token, [a] + rest) == LastToken(TokenFrom(token, a).token, rest)
    decreases |rest|
  {
    var all := [a] + rest;
    if rest == [] {
      assert all[..|all| - 1] == [];
    } else {
      assert all[..|all| - 1] == [a] + rest[..|rest| - 1];
      LastTokenCons(token, a, rest[..|rest| - 1]);
    }
  }

  lemma LedToCons(p: Pair, a: Attempt, p': Pair, rest: seq<Attempt>, newest: Pair)
    requires HasRefreshToken(p) && Renews(a.answer) && RenewedBy(p', TokenFrom(p.wrapper.value.token, a), a)
    requires LedTo(p', rest, newest)
    ensures LedTo(p, [a] + rest, newest)
  {
    var all := [a] + rest;
    if rest == [] {
      assert all[..|all| - 1] == [];
    } else {
      assert all[..|all| - 1] == [a] + rest[..|rest| - 1];
      LastTokenCons(p.wrapper.value.token, a, rest[..|rest| - 1]);
    }
  }

  /** One refresh of the newest pair. */
  lemma RefreshOutcome(pairs: seq<Pair>, a: Attempt)
    requires pairs != [] && HasRefreshToken(pairs[|pairs| - 1])
    requires a.index + 1 == |pairs| && a.mode.Session?
    ensures var p := pairs[|pairs| - 1];
            if Presentable(p, a.now) && Renews(a.answer) then
              && |Next(pairs, a)| == |pairs| + 1
              && RenewedBy(Next(pairs, a)[|pairs|], TokenFrom(p.wrapper.value.token, a), a)
            else Next(pairs, a) == pairs
  {
  }

  /** The attempts add one pair for each that is granted, and the granted ones led to the last. */
  predicate Carried(pairs: seq<Pair>, attempts: seq<Attempt>)
    requires pairs != [] && HasRefreshToken(pairs[|pairs| - 1])
  {
    var all, granted := Issued(pairs, attempts), Granted(pairs, attempts);
    |all| == |pairs| + |granted| && LedTo(pairs[|pairs| - 1], granted, all[|all| - 1])
  }

  lemma GrantedStep(pairs: seq<Pair>, a: Attempt, rest: seq<Attempt>)
    requires pairs != [] && HasRefreshToken(pairs[|pairs| - 1]) && |Next(pairs, a)| == |pairs| + 1
    requires Presentable(pairs[|pairs| - 1], a.now) && Renews(a.answer)
    requires RenewedBy(Next(pairs, a)[|pairs|], TokenFrom(pairs[|pairs| - 1].wrapper.value.token, a), a)
    requires Carried(Next(pairs, a), rest)
    ensures Carried(pairs, [a] + rest)
  {
    var pairs' := Next(pairs, a);
    var all := Issued(pairs', rest);
    assert ([a] + rest)[1..] == rest;
    LedToCons(pairs[|pairs| - 1], a, pairs'[|pairs|], Granted(pairs', rest), all[|all| - 1]);
  }

  lemma RefusedStep(pairs: seq<Pair>, a: Attempt, rest: seq<Attempt>)
    requires pairs != [] && HasRefreshToken(pairs[|pairs| - 1]) && Next(pairs, a) == pairs
    requires !(Presentable(pairs[|pairs| - 1], a.now) && Renews(a.answer)) && Carried(pairs, rest)
    ensures Carried(pairs, [a] + rest)
  {
    assert ([a] + rest)[1..] == rest;
    assert [] + Granted(pairs, rest) == Granted(pairs, rest);
  }

  /** One refresh and what follows it. */
  lemma CarriedStep(pairs: seq<Pair>, a: Attempt, rest: seq<Attempt>)
    requires pairs != [] && HasRefreshToken(pairs[|pairs| - 1]) && a.index + 1 == |pairs| && a.mode.Session?
    requires var pairs' := Next(pairs, a);
             pairs' != [] && HasRefreshToken(pairs'[|pairs'| - 1]) && Carried(pairs', rest)
    ensures Carried(pairs, [a] + rest)
  {
    RefreshOutcome(pairs, a);
    if Presentable(pairs[|pairs| - 1], a.now) && Renews(a.answer) {
      GrantedStep(pairs, a, rest);
    } else {
      RefusedStep(pairs, a, rest);
    }
  }

  /** A session with a provider refresh token whose newest pair is refreshed each time: exactly the
      attempts in force and answered with a known end are granted; after them the session carries
      the provider's latest refresh token, and the last pair has the times of the last answer. */
  lemma {:induction false} LatestRefreshTokenIsCarried(pairs: seq<Pair>, attempts: seq<Attempt>)
    requires pairs != [] && HasRefreshToken(pairs[|pairs| - 1]) && Follows(pairs, attempts)
    ensures Carried(pairs, attempts)
    decreases |attempts|
  {
    if attempts == [] {
      assert Granted(pairs, attempts) == [];
    } else {
      var pairs' := Next(pairs, attempts[0]);
      RefreshOutcome(pairs, attempts[0]);
      LatestRefreshTokenIsCarried(pairs', attempts[1..]);
      CarriedStep(pairs, attempts[0], attempts[1..]);
      assert [attempts[0]] + attempts[1..] == attempts;
    }
  }
}
