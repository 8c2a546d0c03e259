/**
 One browser refreshing against one device row: the token state of
 web-client/assets/token-state.js composed with the rotation protocol of src/auth.rs.

 Any number of refreshes may be in flight at once, in any interleaving, while other clients,
 sign-ins and revocations work on other rows. No response to this browser is lost, no other client
 presents the row's current secret, and signing in or clearing happens only while nothing is in
 flight.
 */
module RefreshSession {
  import opened Common
  import R = RefreshRotation
  import T = TokenState

  /** `flights` maps each request that has not come back to the context it was begun with;
      `past` is history: the refresh tokens this browser held and replaced since it last signed
      in or cleared. */
  datatype Session = Session(
    server: R.Server,
    client: T.State,
    id: R.DeviceId,
    flights: map<R.RequestId, T.RefreshRequest>,
    past: set<R.Secret>)

  datatype Step =
    | Begin(r: R.RequestId, account: string, now: int)
    | Serve(step: R.Step)
    | Elsewhere(other: R.Step)
    | Deliver(r: R.RequestId, accessToken: T.Token, expiresIn: int, now: int)
    | DeliverRefusal(r: R.RequestId)
    | SignIn(account: string, accessToken: T.Token, expiresIn: int, now: int)
    | Clear

  /** The step is none of this browser's requests', and about another row or none. */
  predicate OtherRow(s: Session, e: R.Step) {
    && (!e.Revoke? ==> e.r !in s.flights)
    && (match e
        case Find(_, _, found) => found != Some(s.id)
        case Carry(_, id, _) => id != s.id
        case Revoke(id, _) => id != s.id
        case _ => e.r in s.server.requests && !R.About(s.server.requests[e.r], s.id))
  }

  /** The browser's requests reach the server with the token they were begun with, generated
      secrets fit a token, and every request comes back. */
  predicate Possible(s: Session, e: Step) {
    match e
    case Begin(r, account, now) =>
      r !in s.flights && r !in s.server.requests && T.Begun(s.client, account, Some(now)).Ok?
    case Serve(step) =>
      R.Possible(s.server, step)
      && (step.Find? || step.Rotate? || step.Save? || step.Answer?)
      && step.r in s.flights
      && (step.Find? ==> step.presented == s.flights[step.r].refreshToken)
      && (step.Rotate? ==> T.ValidToken(step.next))
    case Elsewhere(other) => R.Possible(s.server, other) && OtherRow(s, other)
    case Deliver(r, accessToken, _, _) =>
      r in s.flights && r in s.server.requests && s.server.requests[r].Answered? && T.ValidToken(accessToken)
    case DeliverRefusal(r) => r in s.flights && r in s.server.requests && s.server.requests[r].Refused?
    case SignIn(account, accessToken, _, _) =>
      s.flights == map[] && s.id in s.server.devices && account != "" && T.ValidToken(accessToken)
    case Clear => s.flights == map[]
  }

  /** The token set that answers request `r`. */
  function Response(s: Session, r: R.RequestId, accessToken: T.Token, expiresIn: int): T.TokenSet
    requires r in s.server.requests && s.server.requests[r].Answered?
  {
    T.TokenSet(true, accessToken, s.server.requests[r].copy.secret, expiresIn)
  }

  function Apply(s: Session, e: Step): Session
    requires Possible(s, e)
  {
    match e
    case Begin(r, account, now) =>
      s.(flights := s.flights[r := T.Begun(s.client, account, Some(now)).value])
    case Serve(step) => s.(server := R.Apply(s.server, step))
    case Elsewhere(other) => s.(server := R.Apply(s.server, other))
    case Deliver(r, accessToken, expiresIn, now) =>
      s.(client := T.Rotated(s.client, s.flights[r], Response(s, r, accessToken, expiresIn), Some(now)),
         flights := s.flights - {r},
         past := s.past + (if s.client.refreshToken.Some? then {s.client.refreshToken.value} else {}))
    case DeliverRefusal(r) => s.(flights := s.flights - {r})
    case SignIn(account, accessToken, expiresIn, now) =>
      var secret := s.server.devices[s.id].secret;
      var accepted := T.Initial(s.client, account, T.TokenSet(true, accessToken, secret, expiresIn), Some(now));
      s.(server := s.server.(revealed := s.server.revealed + {secret}),
         client := if accepted.Ok? then accepted.value else s.client,
         past := {})
    case Clear => s.(client := T.Cleared(s.client), past := {})
  }

  predicate Run(s: Session, es: seq<Step>)
    decreases |es|
  {
    es == [] || (Possible(s, es[0]) && Run(Apply(s, es[0]), es[1..]))
  }

  function After(s: Session, es: seq<Step>): Session
    requires Run(s, es)
    decreases |es|
  {
    if es == [] then s else After(Apply(s, es[0]), es[1..])
  }

  // ---------------------------------------------------------------- what every state keeps

  /** `r` consumed its secret and its answer has not reached the browser. */
  predicate Ahead(s: Session, r: R.RequestId) {
    r in s.flights && r in s.server.requests && R.Hit(s.server.requests[r])
  }

  predicate RowValid(s: Session) {
    s.id in s.server.devices && T.ValidToken(s.server.devices[s.id].secret)
  }

  /** A request about the row is in flight or over, and none is lost. */
  predicate Accounted(s: Session) {
    forall r | r in s.server.requests && R.About(s.server.requests[r], s.id) ::
      (r in s.flights || s.server.requests[r].Answered?) && !s.server.requests[r].LostAfterRotation?
  }

  predicate ServerSound(s: Session) {
    R.Quiet(s.server, s.id) && RowValid(s) && Accounted(s)
  }

  predicate ClientSound(s: Session) {
    && (s.client.accountId.Some? <==> s.client.refreshToken.Some?)
    && (s.client.refreshToken.Some? ==>
          && s.client.accountId.value != ""
          && R.Owns(s.server, s.id, s.client.refreshToken.value)
          && s.client.refreshToken.value in s.server.revealed && s.client.refreshToken.value !in s.past)
    && (forall x | x in s.past :: x in s.server.spent && R.Owns(s.server, s.id, x))
  }

  /** A request in flight was begun from the current token, or from a past one and generation. */
  predicate FlightSound(s: Session, r: R.RequestId)
    requires r in s.flights
  {
    var q := s.flights[r];
    && Some(q.accountId) == s.client.accountId
    && (if q.expectedGeneration == s.client.generation then Some(q.refreshToken) == s.client.refreshToken
        else q.expectedGeneration < s.client.generation && q.refreshToken in s.past)
    && (r in s.server.requests && !s.server.requests[r].Refused? ==>
          s.server.requests[r].id == s.id && !R.Carrier(s.server.requests[r])
          && s.server.requests[r].presented == q.refreshToken)
  }

  /** A request ahead of the browser holds the row's secret and consumed the browser's. */
  predicate AheadSound(s: Session, r: R.RequestId)
    requires Ahead(s, r)
  {
    var q := s.server.requests[r];
    s.id in s.server.devices && q.copy.secret == s.server.devices[s.id].secret
    && Some(q.presented) == s.client.refreshToken
  }

  /** The browser's secret is the row's, unless an answer is on its way. */
  predicate InStep(s: Session) {
    s.id in s.server.devices &&
    (s.client.refreshToken.Some? ==>
       s.client.refreshToken.value == s.server.devices[s.id].secret || exists r | r in s.flights :: Ahead(s, r))
  }

  predicate Inv(s: Session) {
    && ServerSound(s) && ClientSound(s) && InStep(s)
    && (forall r | r in s.flights :: FlightSound(s, r))
    && (forall r | r in s.flights && Ahead(s, r) :: AheadSound(s, r))
  }

  /** Nobody signed in, a row whose secret no client needs to know yet. */
  predicate Start(s: Session) {
    R.Start(s.server) && s.id in s.server.devices && T.ValidToken(s.server.devices[s.id].secret)
    && s.client == T.INITIAL && s.flights == map[] && s.past == {}
  }

  /** While a request is ahead, nothing in flight presents the row's secret. */
  lemma OnlyOneAhead(s: Session, r: R.RequestId, r': R.RequestId)
    requires Inv(s) && Ahead(s, r) && r' in s.flights
    ensures s.flights[r'].refreshToken != s.server.devices[s.id].secret
    ensures Ahead(s, r') ==> r == r'
  {
    assert AheadSound(s, r) && FlightSound(s, r) && FlightSound(s, r');
    R.RequestFacts(s.server, s.id, r);
    if Ahead(s, r') { assert AheadSound(s, r'); }
  }

  /** The browser never presents another device's secret. */
  lemma PresentsOwnSecret(s: Session, r: R.RequestId)
    requires Inv(s) && r in s.flights
    ensures forall d | d in s.server.devices && s.server.devices[d].secret == s.flights[r].refreshToken :: d == s.id
  {
    assert FlightSound(s, r);
    assert R.Owns(s.server, s.id, s.flights[r].refreshToken);
  }

  lemma ServeKeepsRow(s: Session, e: Step)
    requires Inv(s) && e.Serve? && Possible(s, e)
    ensures RowValid(Apply(s, e))
  {
    if e.step.Save? {
      assert FlightSound(s, e.step.r);
      R.RequestFacts(s.server, s.id, e.step.r);
    }
  }

  lemma ServeKeepsAccounted(s: Session, e: Step)
    requires Accounted(s) && e.Serve? && Possible(s, e)
    ensures Accounted(Apply(s, e))
  {
  }

  lemma ServeKeepsServer(s: Session, e: Step)
    requires Inv(s) && e.Serve? && Possible(s, e)
    ensures ServerSound(Apply(s, e))
  {
    R.StepKeepsQuiet(s.server, e.step, s.id);
    ServeKeepsRow(s, e);
    ServeKeepsAccounted(s, e);
  }

  lemma ServeKeepsClient(s: Session, e: Step)
    requires Inv(s) && e.Serve? && Possible(s, e)
    ensures ClientSound(Apply(s, e))
  {
    R.StepFrame(s.server, e.step);
  }

  lemma ServeKeepsFlight(s: Session, e: Step, r: R.RequestId)
    requires Inv(s) && e.Serve? && Possible(s, e) && r in s.flights
    ensures FlightSound(Apply(s, e), r)
  {
    assert FlightSound(s, r);
    if e.step.r == r { PresentsOwnSecret(s, r); } else { R.StepFrame(s.server, e.step); }
  }

  lemma ServeKeepsAhead(s: Session, e: Step, r: R.RequestId)
    requires Inv(s) && e.Serve? && Possible(s, e) && Ahead(Apply(s, e), r)
    ensures AheadSound(Apply(s, e), r)
  {
    assert FlightSound(s, r) && FlightSound(s, e.step.r);
    R.StepFrame(s.server, e.step);
    R.StepKeepsRowAt(s.server, e.step, s.id);
    if Ahead(s, r) {
      assert AheadSound(s, r);
      OnlyOneAhead(s, r, e.step.r);
      assert R.Replaced(s.server, e.step) != Some(s.id);
    } else {
      HitIsCurrent(s, r);
    }
  }

  /** A request about to consume the row's secret was begun from the browser's current token. */
  lemma HitIsCurrent(s: Session, r: R.RequestId)
    requires Inv(s) && r in s.flights && R.WouldHit(s.server, r)
    ensures Some(s.flights[r].refreshToken) == s.client.refreshToken
  {
    assert FlightSound(s, r);
  }

  lemma ServeKeepsInStep(s: Session, e: Step)
    requires Inv(s) && e.Serve? && Possible(s, e)
    ensures InStep(Apply(s, e))
  {
    R.StepFrame(s.server, e.step);
    R.StepKeepsRowAt(s.server, e.step, s.id);
    assert FlightSound(s, e.step.r);
    if r :| r in s.flights && Ahead(s, r) {
      assert Ahead(Apply(s, e), r);
    } else if R.Replaced(s.server, e.step) == Some(s.id) {
      assert Ahead(Apply(s, e), e.step.r);
    }
  }

  lemma ServeKeepsInv(s: Session, e: Step)
    requires Inv(s) && e.Serve? && Possible(s, e)
    ensures Inv(Apply(s, e))
  {
    var s' := Apply(s, e);
    ServeKeepsServer(s, e);
    ServeKeepsClient(s, e);
    ServeKeepsInStep(s, e);
    forall r | r in s'.flights ensures FlightSound(s', r) { ServeKeepsFlight(s, e, r); }
    forall r | r in s'.flights && Ahead(s', r) ensures AheadSound(s', r) { ServeKeepsAhead(s, e, r); }
  }

  /** A delivered answer is always accepted. */
  lemma DeliveryAccepted(s: Session, e: Step)
    requires Inv(s) && e.Deliver? && Possible(s, e)
    ensures T.Objection(s.client, s.flights[e.r], Response(s, e.r, e.accessToken, e.expiresIn), Some(e.now)).None?
  {
    assert Ahead(s, e.r) && AheadSound(s, e.r) && FlightSound(s, e.r);
    R.RequestFacts(s.server, s.id, e.r);
  }

  lemma DeliverKeepsInv(s: Session, e: Step)
    requires Inv(s) && e.Deliver? && Possible(s, e)
    ensures Inv(Apply(s, e))
  {
    var s' := Apply(s, e);
    DeliveryAccepted(s, e);
    assert Ahead(s, e.r) && AheadSound(s, e.r) && FlightSound(s, e.r);
    R.RequestFacts(s.server, s.id, e.r);
    forall r | r in s'.flights ensures FlightSound(s', r) && !Ahead(s', r) {
      assert FlightSound(s, r);
      if Ahead(s, r) { OnlyOneAhead(s, e.r, r); }
    }
  }

  lemma SignInKeepsInv(s: Session, e: Step)
    requires Inv(s) && e.SignIn? && Possible(s, e)
    ensures Inv(Apply(s, e))
  {
    var s' := Apply(s, e);
    forall r | r in s'.server.requests && R.About(s'.server.requests[r], s.id)
      ensures R.RequestSound(s'.server, s'.server.requests[r]) && R.RequestQuiet(s'.server, s'.server.requests[r])
    {
      R.RequestFacts(s.server, s.id, r);
    }
    forall r | r in s'.server.requests ensures R.RequestOwned(s'.server, s'.server.requests[r]) {
      assert R.RequestOwned(s.server, s.server.requests[r]);
    }
  }

  // ---------------------------------------------------------------- other rows

  /** A step elsewhere touches neither the row nor a request about it. */
  lemma ElsewhereFrame(s: Session, e: Step)
    requires Inv(s) && e.Elsewhere? && Possible(s, e)
    ensures var t := Apply(s, e).server;
            && s.id in t.devices && t.devices[s.id].secret == s.server.devices[s.id].secret
            && (forall r | r in s.flights :: r in t.requests <==> r in s.server.requests)
            && (forall r | r in s.flights && r in s.server.requests :: t.requests[r] == s.server.requests[r])
            && (forall r | r in t.requests && R.About(t.requests[r], s.id) ::
                  r in s.server.requests && t.requests[r] == s.server.requests[r])
  {
    R.StepFrame(s.server, e.other);
    R.StepKeepsRowAt(s.server, e.other, s.id);
  }

  lemma ElsewhereKeepsInv(s: Session, e: Step)
    requires Inv(s) && e.Elsewhere? && Possible(s, e)
    ensures Inv(Apply(s, e))
  {
    var s' := Apply(s, e);
    ElsewhereFrame(s, e);
    R.StepFrame(s.server, e.other);
    R.StepKeepsQuiet(s.server, e.other, s.id);
    if r :| r in s.flights && Ahead(s, r) { assert Ahead(s', r); }
    forall r | r in s'.flights ensures FlightSound(s', r) { assert FlightSound(s, r); }
    forall r | r in s'.flights && Ahead(s', r) ensures AheadSound(s', r) { assert Ahead(s, r) && AheadSound(s, r); }
  }

  /** Steps that only add a flight or take a refused one away. */
  lemma FlightsKeepInv(s: Session, e: Step)
    requires Inv(s) && (e.Begin? || e.DeliverRefusal?) && Possible(s, e)
    ensures Inv(Apply(s, e))
  {
    var s' := Apply(s, e);
    assert ServerSound(s') && ClientSound(s');
    if r :| r in s.flights && Ahead(s, r) { assert Ahead(s', r); }
    forall r | r in s'.flights ensures FlightSound(s', r) { if r in s.flights { assert FlightSound(s, r); } }
    forall r | r in s'.flights && Ahead(s', r) ensures AheadSound(s', r) { assert Ahead(s, r) && AheadSound(s, r); }
  }

  lemma StepKeepsInv(s: Session, e: Step)
    requires Inv(s) && Possible(s, e)
    ensures Inv(Apply(s, e))
  {
    match e
    case Serve(_) => ServeKeepsInv(s, e);
    case Elsewhere(_) => ElsewhereKeepsInv(s, e);
    case Deliver(_, _, _, _) => DeliverKeepsInv(s, e);
    case SignIn(_, _, _, _) => SignInKeepsInv(s, e);
    case Begin(_, _, _) => FlightsKeepInv(s, e);
    case DeliverRefusal(_) => FlightsKeepInv(s, e);
    case Clear =>
  }

  lemma {:induction false} RunKeepsInv(s: Session, es: seq<Step>)
    requires Inv(s) && Run(s, es)
    ensures Inv(After(s, es))
    decreases |es|
  {
    if es != [] {
      StepKeepsInv(s, es[0]);
      RunKeepsInv(Apply(s, es[0]), es[1..]);
    }
  }

  /** Browser and server agree whenever nothing is in flight, and until then every delivered
      answer is accepted: neither the staleness, nor the replay, nor the non-rotation branch of
      the browser is taken. */
  lemma SessionStaysInStep(s: Session, es: seq<Step>)
    requires Start(s) && Run(s, es)
    ensures var t := After(s, es);
            && t.id in t.server.devices
            && (t.flights == map[] && t.client.refreshToken.Some? ==>
                  t.client.refreshToken.value == t.server.devices[t.id].secret)
            && (forall r, accessToken, expiresIn, now {:trigger Deliver(r, accessToken, expiresIn, now)}
                  | Possible(t, Deliver(r, accessToken, expiresIn, now)) ::
                  T.Objection(t.client, t.flights[r], Response(t, r, accessToken, expiresIn), Some(now)).None?)
  {
    RunKeepsInv(s, es);
    var t := After(s, es);
    forall r, accessToken, expiresIn, now {:trigger Deliver(r, accessToken, expiresIn, now)}
      | Possible(t, Deliver(r, accessToken, expiresIn, now))
      ensures T.Objection(t.client, t.flights[r], Response(t, r, accessToken, expiresIn), Some(now)).None?
    {
      DeliveryAccepted(t, Deliver(r, accessToken, expiresIn, now));
    }
  }

  // ---------------------------------------------------------------- the server inside

  /** What a run is for the server: the awaits of this browser's requests and what happens on
      other rows, in their order. */
  function ServerSteps(es: seq<Step>): seq<R.Step> {
    if es == [] then []
    else
      match es[0]
      case Serve(step) => [step] + ServerSteps(es[1..])
      case Elsewhere(other) => [other] + ServerSteps(es[1..])
      case _ => ServerSteps(es[1..])
  }

  /** Between two sign-ins a run of the session holds a run of `RefreshRotation`, other rows
      included, and the server ends as that run leaves it. */
  lemma {:induction false} SessionRunsServer(s: Session, es: seq<Step>)
    requires Run(s, es) && forall e | e in es :: !e.SignIn?
    ensures R.Run(s.server, ServerSteps(es)) && R.After(s.server, ServerSteps(es)) == After(s, es).server
    decreases |es|
  {
    if es != [] {
      assert es[0] in es;
      SessionRunsServer(Apply(s, es[0]), es[1..]);
      if es[0].Serve? {
        R.RunCons(s.server, es[0].step, ServerSteps(es[1..]));
      } else if es[0].Elsewhere? {
        R.RunCons(s.server, es[0].other, ServerSteps(es[1..]));
      }
    }
  }

  // ---------------------------------------------------------------- a whole refresh

  lemma RunCons(s: Session, e: Step, es: seq<Step>)
    requires Possible(s, e) && Run(Apply(s, e), es)
    ensures Run(s, [e] + es) && After(s, [e] + es) == After(Apply(s, e), es)
  {
    assert ([e] + es)[1..] == es;
  }

  /** Signing in, while nothing is in flight, gives the browser the row's secret; clearing takes
      everything from it. */
  lemma SignInGivesTheSecret(s: Session, account: string, accessToken: T.Token, expiresIn: int, now: int)
    requires Inv(s) && s.flights == map[] && account != "" && T.ValidToken(accessToken)
    ensures var s' := Apply(s, SignIn(account, accessToken, expiresIn, now));
            && s'.client.accountId == Some(account) && s'.client.accessToken == Some(accessToken)
            && s'.client.refreshToken == Some(s.server.devices[s.id].secret)
            && s'.server.devices == s.server.devices && s'.flights == map[]
            && s'.server.revealed == s.server.revealed + {s.server.devices[s.id].secret} && s'.past == {}
    ensures var s' := Apply(s, Clear);
            && s'.client.accountId.None? && s'.client.refreshToken.None? && s'.client.accessToken.None?
            && s'.server == s.server && s'.past == {}
  {
  }

  /** The server's four awaits for the browser's request. */
  lemma ServerAnswers(s: Session, r: R.RequestId, next: R.Secret, t1: int, t2: int)
    requires Inv(s) && r in s.flights && r !in s.server.requests && next !in s.server.minted && T.ValidToken(next)
    requires s.flights[r].refreshToken == s.server.devices[s.id].secret
    ensures var x, user := s.server.devices[s.id].secret, s.server.devices[s.id].user;
            var es := [Serve(R.Find(r, x, Some(s.id)))] + ([Serve(R.Rotate(r, next, t1))]
                      + ([Serve(R.Save(r, t2))] + [Serve(R.Answer(r))]));
            && Run(s, es) && After(s, es).client == s.client && After(s, es).flights == s.flights
            && After(s, es).server.devices == s.server.devices[s.id := R.Device(user, next, t2)]
            && r in After(s, es).server.requests
            && After(s, es).server.requests[r] == R.Answered(x, s.id, R.Device(user, next, t2))
  {
    assert FlightSound(s, r);
    var x := s.server.devices[s.id].secret;
    var e1, e2 := Serve(R.Find(r, x, Some(s.id))), Serve(R.Rotate(r, next, t1));
    var e3, e4 := Serve(R.Save(r, t2)), Serve(R.Answer(r));
    var s1 := Apply(s, e1);
    var s2 := Apply(s1, e2);
    var s3 := Apply(s2, e3);
    RunCons(s3, e4, []);
    assert [e4] + [] == [e4];
    RunCons(s2, e3, [e4]);
    RunCons(s1, e2, [e3] + [e4]);
    RunCons(s, e1, [e2] + ([e3] + [e4]));
  }

  /** A signed-in browser with nothing in flight can always refresh: it ends with the row's next
      secret and the new access token, one generation later, and with nothing in flight. */
  lemma BrowserRefreshes(s: Session, r: R.RequestId, next: R.Secret, accessToken: T.Token, expiresIn: int, now: int,
                         t1: int, t2: int)
    requires Inv(s) && s.flights == map[] && s.client.accountId.Some? && r !in s.server.requests
    requires next !in s.server.minted && T.ValidToken(next) && T.ValidToken(accessToken)
    ensures var x := s.server.devices[s.id].secret;
            var serve := [Serve(R.Find(r, x, Some(s.id)))] + ([Serve(R.Rotate(r, next, t1))]
                         + ([Serve(R.Save(r, t2))] + [Serve(R.Answer(r))]));
            var begin, deliver := Begin(r, s.client.accountId.value, now), Deliver(r, accessToken, expiresIn, now);
            && Possible(s, begin) && Run(Apply(s, begin), serve)
            && var s' := After(Apply(s, begin), serve);
               && Possible(s', deliver)
               && var t := Apply(s', deliver);
                  && t.client.accountId == s.client.accountId && t.client.generation == s.client.generation + 1
                  && t.client.refreshToken == Some(next) && t.client.accessToken == Some(accessToken)
                  && t.id in t.server.devices && t.server.devices[t.id].secret == next && t.flights == map[]
  {
    var begin := Begin(r, s.client.accountId.value, now);
    assert Possible(s, begin);
    StepKeepsInv(s, begin);
    var s1 := Apply(s, begin);
    assert s1.flights[r].refreshToken == s.server.devices[s.id].secret;
    ServerAnswers(s1, r, next, t1, t2);
    var x := s.server.devices[s.id].secret;
    var serve := [Serve(R.Find(r, x, Some(s.id)))] + ([Serve(R.Rotate(r, next, t1))]
                 + ([Serve(R.Save(r, t2))] + [Serve(R.Answer(r))]));
    RunKeepsInv(s1, serve);
    DeliveryAccepted(After(s1, serve), Deliver(r, accessToken, expiresIn, now));
  }

  /** A refresh that comes too late is refused and comes back; the browser keeps what it has. */
  lemma RefusalComesBack(s: Session, r: R.RequestId)
    requires Inv(s) && r in s.flights && r !in s.server.requests
    requires forall d | d in s.server.devices :: s.server.devices[d].secret != s.flights[r].refreshToken
    ensures var es := [Serve(R.Find(r, s.flights[r].refreshToken, None))] + [DeliverRefusal(r)];
            && Run(s, es) && After(s, es).client == s.client && After(s, es).flights == s.flights - {r}
            && After(s, es).server.devices == s.server.devices
  {
    assert FlightSound(s, r);
    var find := Serve(R.Find(r, s.flights[r].refreshToken, None));
    var s1 := Apply(s, find);
    RunCons(s1, DeliverRefusal(r), []);
    assert [DeliverRefusal(r)] + [] == [DeliverRefusal(r)];
    RunCons(s, find, [DeliverRefusal(r)]);
  }
}
