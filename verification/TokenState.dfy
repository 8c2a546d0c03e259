/**
 The browser's memory-only token state (web-client/assets/token-state.js): one token set,
 numbered by a generation that grows at every change, so that a refresh response can be matched
 against the state it was requested from.
 */
module TokenState {
  import opened Common

  type Token = string

  const MAX_TOKEN_LENGTH: nat := 16384

  /** `null` fields are `None`; the token type and scope are carried along unread and left out. */
  datatype State = State(
    accountId: Option<string>,
    accessToken: Option<Token>,
    refreshToken: Option<Token>,
    accessExpiresAt: Option<int>,
    generation: nat)

  const INITIAL := State(None, None, None, None, 0)

  /** A token response after validation; `authenticated` is its `kind`. */
  datatype TokenSet = TokenSet(authenticated: bool, accessToken: Token, refreshToken: Token, expiresIn: int)

  /** What `beginRefresh` hands out and `acceptRotatedTokenSet` takes back. */
  datatype RefreshRequest =
    RefreshRequest(accountId: string, refreshToken: Token, expectedGeneration: nat, requestedAt: int)

  datatype Failure = Invalid | NoRefreshToken | StaleResponse | Replay | NotRotated

  predicate ValidToken(t: Token) {
    0 < |t| <= MAX_TOKEN_LENGTH
  }

  function Cleared(s: State): State {
    INITIAL.(generation := s.generation + 1)
  }

  /** `now` is `None` when it is not a finite number. */
  function Initial(s: State, account: string, set_: TokenSet, now: Option<int>): Result<State, Failure> {
    if account == "" || !set_.authenticated || now.None?
       || !ValidToken(set_.accessToken) || !ValidToken(set_.refreshToken) then
      Err(Invalid)
    else
      Ok(State(Some(account), Some(set_.accessToken), Some(set_.refreshToken),
               Some(now.value + set_.expiresIn * 1000), s.generation + 1))
  }

  function Begun(s: State, account: string, now: Option<int>): Result<RefreshRequest, Failure> {
    if account == "" then Err(Invalid)
    else if Some(account) != s.accountId || s.refreshToken.None? then Err(NoRefreshToken)
    else if now.None? then Err(Invalid)
    else Ok(RefreshRequest(account, s.refreshToken.value, s.generation, now.value))
  }

  /** Why a response would be turned away, in the order of the checks. */
  function Objection(s: State, q: RefreshRequest, set_: TokenSet, now: Option<int>): Option<Failure> {
    if !set_.authenticated then Some(Invalid)
    else if Some(q.accountId) != s.accountId || q.expectedGeneration != s.generation then Some(StaleResponse)
    else if Some(q.refreshToken) != s.refreshToken then Some(Replay)
    else if !ValidToken(set_.refreshToken) then Some(Invalid)
    else if set_.refreshToken == q.refreshToken then Some(NotRotated)
    else match Initial(s, q.accountId, set_, now) case Ok(_) => None case Err(f) => Some(f)
  }

  /** The state after a response: only a non-rotated token changes a state that it fails. */
  function Rotated(s: State, q: RefreshRequest, set_: TokenSet, now: Option<int>): State {
    match Objection(s, q, set_, now)
    case None => Initial(s, q.accountId, set_, now).value
    case Some(NotRotated) => Cleared(s)
    case Some(_) => s
  }

  /** `isAccessTokenUsable`, with the clock skew in milliseconds. */
  predicate Usable(s: State, account: string, now: int, skew: int) {
    Some(account) == s.accountId && s.accessToken.Some? && s.accessExpiresAt.Some?
    && 0 <= skew && now + skew < s.accessExpiresAt.value
  }

  /** The module variable and the functions that reassign it. */
  class TokenStore {
    var accountId: Option<string>
    var accessToken: Option<Token>
    var refreshToken: Option<Token>
    var accessExpiresAt: Option<int>
    var generation: nat

    function View(): State
      reads this
    {
      State(accountId, accessToken, refreshToken, accessExpiresAt, generation)
    }

    constructor ()
      ensures View() == INITIAL
    {
      accountId, accessToken, refreshToken, accessExpiresAt, generation := None, None, None, None, 0;
    }

    method Clear()
      modifies this
      ensures View() == Cleared(old(View()))
    {
      accountId, accessToken, refreshToken, accessExpiresAt := None, None, None, None;
      generation := generation + 1;
    }

    method AcceptInitial(account: string, set_: TokenSet, now: Option<int>) returns (failure: Option<Failure>)
      modifies this
      ensures failure.None? <==> Initial(old(View()), account, set_, now).Ok?
      ensures failure.None? ==> View() == Initial(old(View()), account, set_, now).value
      ensures failure.Some? ==> failure == Some(Invalid) && View() == old(View())
    {
      if account == "" || !set_.authenticated || now.None? { return Some(Invalid); }
      if !ValidToken(set_.accessToken) || !ValidToken(set_.refreshToken) { return Some(Invalid); }
      accountId := Some(account);
      accessToken := Some(set_.accessToken);
      refreshToken := Some(set_.refreshToken);
      accessExpiresAt := Some(now.value + set_.expiresIn * 1000);
      generation := generation + 1;
      failure := None;
    }

    method AcceptRotated(q: RefreshRequest, set_: TokenSet, now: Option<int>) returns (failure: Option<Failure>)
      modifies this
      ensures failure == Objection(old(View()), q, set_, now)
      ensures View() == Rotated(old(View()), q, set_, now)
    {
      if !set_.authenticated { return Some(Invalid); }
      if Some(q.accountId) != accountId || q.expectedGeneration != generation { return Some(StaleResponse); }
      if Some(q.refreshToken) != refreshToken { return Some(Replay); }
      if !ValidToken(set_.refreshToken) { return Some(Invalid); }
      if Some(set_.refreshToken) == refreshToken {
        Clear();
        return Some(NotRotated);
      }
      failure := AcceptInitial(accountId.value, set_, now);
    }
  }

  // ---------------------------------------------------------------- runs of one browser

  /** The state, every refresh request ever begun, and the generations whose response was accepted. */
  datatype Browser = Browser(state: State, begun: set<RefreshRequest>, accepted: seq<nat>)

  const START := Browser(INITIAL, {}, [])

  datatype Step =
    | SignIn(account: string, set_: TokenSet, now: Option<int>)
    | Begin(account: string, now: Option<int>)
    | Respond(request: RefreshRequest, set_: TokenSet, now: Option<int>)
    | Clear

  /** Responses may be arbitrary; the requests they answer come from `beginRefresh`. */
  predicate Possible(b: Browser, e: Step) {
    e.Respond? ==> e.request in b.begun
  }

  function Apply(b: Browser, e: Step): Browser {
    match e
    case SignIn(account, set_, now) =>
      (match Initial(b.state, account, set_, now) case Ok(s) => b.(state := s) case Err(_) => b)
    case Begin(account, now) =>
      (match Begun(b.state, account, now) case Ok(q) => b.(begun := b.begun + {q}) case Err(_) => b)
    case Respond(q, set_, now) =>
      b.(state := Rotated(b.state, q, set_, now),
         accepted := if Objection(b.state, q, set_, now).None? then b.accepted + [q.expectedGeneration] else b.accepted)
    case Clear => b.(state := Cleared(b.state))
  }

  function After(b: Browser, es: seq<Step>): Browser
    decreases |es|
  {
    if es == [] then b else After(Apply(b, es[0]), es[1..])
  }

  predicate Run(b: Browser, es: seq<Step>)
    decreases |es|
  {
    es == [] || (Possible(b, es[0]) && Run(Apply(b, es[0]), es[1..]))
  }

  predicate Inv(b: Browser) {
    && (forall q | q in b.begun :: q.accountId != "" && q.expectedGeneration <= b.state.generation)
    && (forall q | q in b.begun && q.expectedGeneration == b.state.generation ::
          Some(q.accountId) == b.state.accountId && Some(q.refreshToken) == b.state.refreshToken)
    && (forall i | 0 <= i < |b.accepted| :: b.accepted[i] < b.state.generation)
    && (forall i, j | 0 <= i < j < |b.accepted| :: b.accepted[i] < b.accepted[j])
  }

  lemma {:induction false} RunKeepsInv(b: Browser, es: seq<Step>)
    requires Inv(b) && Run(b, es)
    ensures Inv(After(b, es))
    decreases |es|
  {
    if es != [] {
      assert Inv(Apply(b, es[0]));
      RunKeepsInv(Apply(b, es[0]), es[1..]);
    }
  }

  /** In every run the generation alone decides: a response that passes the generation check is
      never a replay, it is refused as non-rotated only if it carries the very token that was
      presented, and no generation has two accepted responses. */
  lemma GenerationDecides(es: seq<Step>, q: RefreshRequest, set_: TokenSet, now: Option<int>)
    requires Run(START, es) && q in After(START, es).begun
    ensures var b := After(START, es);
            && Objection(b.state, q, set_, now) != Some(Replay)
            && (set_.authenticated ==>
                  (Objection(b.state, q, set_, now) == Some(StaleResponse)
                   <==> q.expectedGeneration != b.state.generation))
            && (Objection(b.state, q, set_, now) == Some(NotRotated) ==> set_.refreshToken == q.refreshToken)
            && (Objection(b.state, q, set_, now).None? ==> q.expectedGeneration !in b.accepted)
            && (forall i, j | 0 <= i < j < |b.accepted| :: b.accepted[i] != b.accepted[j])
  {
    RunKeepsInv(START, es);
  }

  // ---------------------------------------------------------------- what each call comes to

  /** A sign-in replaces whatever was held if and only if it names an account, is authenticated,
      carries a finite time and two tokens of 1 to 16384 characters; otherwise it changes nothing. */
  lemma SignInOutcome(b: Browser, account: string, set_: TokenSet, now: Option<int>)
    ensures var b' := Apply(b, SignIn(account, set_, now));
            && b'.begun == b.begun
            && b'.state ==
               if account != "" && set_.authenticated && now.Some?
                  && 1 <= |set_.accessToken| <= 16384 && 1 <= |set_.refreshToken| <= 16384
               then State(Some(account), Some(set_.accessToken), Some(set_.refreshToken),
                          Some(now.value + 1000 * set_.expiresIn), b.state.generation + 1)
               else b.state
  {
  }

  /** In every run, what a response does depends on nothing but whether the state changed since
      its request was begun, and on what it carries. A response that returns the very token that
      was presented signs out; one that carries two good tokens replaces the set; every other one
      changes nothing. The account and replay checks never decide. */
  lemma ResponseOutcome(es: seq<Step>, q: RefreshRequest, set_: TokenSet, now: Option<int>)
    requires Run(START, es) && q in After(START, es).begun
    ensures var s := After(START, es).state;
            var s' := Apply(After(START, es), Respond(q, set_, now)).state;
            if q.expectedGeneration != s.generation || !set_.authenticated || !(1 <= |set_.refreshToken| <= 16384)
            then s' == s
            else if set_.refreshToken == q.refreshToken
            then s' == State(None, None, None, None, s.generation + 1)
            else if now.Some? && 1 <= |set_.accessToken| <= 16384
            then s' == State(Some(q.accountId), Some(set_.accessToken), Some(set_.refreshToken),
                             Some(now.value + 1000 * set_.expiresIn), s.generation + 1)
            else s' == s
  {
    RunKeepsInv(START, es);
  }

  /** A request that is not of the held state, by its account, its generation or its token, even one
      that was never begun, is turned away and changes nothing. */
  lemma MismatchedRequestIsRefused(s: State, q: RefreshRequest, set_: TokenSet, now: Option<int>)
    requires s.accountId != Some(q.accountId) || s.generation != q.expectedGeneration
             || s.refreshToken != Some(q.refreshToken)
    ensures Objection(s, q, set_, now).Some? && Rotated(s, q, set_, now) == s
  {
  }

  /** A refresh is begun exactly for the signed-in account, with its refresh token. */
  lemma BeginOutcome(es: seq<Step>, account: string, now: Option<int>)
    requires Run(START, es)
    ensures var b := After(START, es);
            && Apply(b, Begin(account, now)).state == b.state
            && (b.state.accountId.Some? <==> b.state.refreshToken.Some?)
            && Apply(b, Begin(account, now)).begun ==
               if b.state.accountId == Some(account) && now.Some?
               then b.begun + {RefreshRequest(account, b.state.refreshToken.value, b.state.generation, now.value)}
               else b.begun
  {
    RunKeepsHeld(START, es);
  }

  /** The four fields of a token set are held together, and for a named account. */
  predicate Held(s: State) {
    && (s.accountId.Some? <==> s.accessToken.Some?) && (s.accountId.Some? <==> s.refreshToken.Some?)
    && (s.accountId.Some? <==> s.accessExpiresAt.Some?)
    && s.accountId != Some("")
  }

  lemma {:induction false} RunKeepsHeld(b: Browser, es: seq<Step>)
    requires Inv(b) && Held(b.state) && Run(b, es)
    ensures Held(After(b, es).state)
    decreases |es|
  {
    if es != [] {
      assert Inv(Apply(b, es[0])) by { RunKeepsInv(b, [es[0]]); }
      assert Held(Apply(b, es[0]).state);
      RunKeepsHeld(Apply(b, es[0]), es[1..]);
    }
  }

  lemma {:induction false} SignedOutStays(b: Browser, es: seq<Step>)
    requires Inv(b) && Run(b, es) && forall e | e in es :: !e.SignIn?
    requires b.state == INITIAL.(generation := b.state.generation)
    ensures After(b, es).state == INITIAL.(generation := After(b, es).state.generation)
    decreases |es|
  {
    if es != [] {
      assert es[0] in es;
      RunKeepsInv(b, [es[0]]);
      assert [es[0]][1..] == [];
      SignedOutStays(Apply(b, es[0]), es[1..]);
    }
  }

  lemma {:induction false} RunSnoc(b: Browser, es: seq<Step>, e: Step)
    requires Run(b, es) && Possible(After(b, es), e)
    ensures Run(b, es + [e]) && After(b, es + [e]) == Apply(After(b, es), e)
    decreases |es|
  {
    if es == [] {
      assert es + [e] == [e] && [e][1..] == [];
    } else {
      assert (es + [e])[1..] == es[1..] + [e];
      RunSnoc(Apply(b, es[0]), es[1..], e);
    }
  }

  /** A refresh token that does not rotate ends the session for good: after the response, whatever
      refreshes are begun and answered, no account and no token is held until somebody signs in. */
  lemma UnrotatedTokenEndsSession(es: seq<Step>, q: RefreshRequest, set_: TokenSet, now: Option<int>, later: seq<Step>)
    requires Run(START, es) && q in After(START, es).begun
    requires q.expectedGeneration == After(START, es).state.generation
    requires set_.authenticated && 1 <= |set_.refreshToken| <= 16384 && set_.refreshToken == q.refreshToken
    requires Run(Apply(After(START, es), Respond(q, set_, now)), later) && forall e | e in later :: !e.SignIn?
    ensures var s := After(Apply(After(START, es), Respond(q, set_, now)), later).state;
            s.accountId.None? && s.accessToken.None? && s.refreshToken.None? && s.accessExpiresAt.None?
  {
    ResponseOutcome(es, q, set_, now);
    RunSnoc(START, es, Respond(q, set_, now));
    RunKeepsInv(START, es + [Respond(q, set_, now)]);
    SignedOutStays(Apply(After(START, es), Respond(q, set_, now)), later);
  }

  /** A set accepted at `t` serves its account until `expiresIn` seconds later, less the skew, and
      nobody else, as long as nothing replaced it. */
  lemma UsableExactly(b: Browser, account: string, set_: TokenSet, t: int, later: seq<Step>,
                      who: string, now: int, skew: int)
    requires Inv(b) && account != "" && set_.authenticated
    requires 1 <= |set_.accessToken| <= 16384 && 1 <= |set_.refreshToken| <= 16384
    requires Run(Apply(b, SignIn(account, set_, Some(t))), later)
    requires After(Apply(b, SignIn(account, set_, Some(t))), later).state.generation == b.state.generation + 1
    ensures Usable(After(Apply(b, SignIn(account, set_, Some(t))), later).state, who, now, skew)
            <==> who == account && 0 <= skew && now + skew < t + 1000 * set_.expiresIn
  {
    SignInOutcome(b, account, set_, Some(t));
    GenerationGrows(Apply(b, SignIn(account, set_, Some(t))), later);
  }

  lemma {:induction false} GenerationGrows(b: Browser, es: seq<Step>)
    ensures b.state.generation <= After(b, es).state.generation
    ensures b.state.generation == After(b, es).state.generation ==> After(b, es).state == b.state
    decreases |es|
  {
    if es != [] { GenerationGrows(Apply(b, es[0]), es[1..]); }
  }
}
