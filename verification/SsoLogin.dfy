/**
 Single sign-on login records (`authorize`, `oidcsignin_redirect` and `sso_login` in
 src/api/identity.rs; `exchange_code` and `redeem` in src/sso.rs; src/db/models/sso_auth.rs).

 A record is created at authorize, bound to a browser cookie by its hash, given the provider's
 code at the callback, and redeemed for tokens by a login. A login awaits the database and the
 provider, so several logins can hold the same record; the other handlers are atomic steps.
 */
module SsoLogin {
  import opened Common

  type StateId = string
  type Code = string
  type Hash = string
  type User = string
  type LoginId = nat
  /** Seconds. */
  type Instant = int

  const SSO_AUTH_EXPIRATION: int := 600

  /** `serial` is history: it tells the records that one state had apart. */
  datatype SsoAuth = SsoAuth(
    state: StateId,
    serial: nat,
    bindingHash: Option<Hash>,
    code: Option<Code>,
    error: bool,
    authResponse: Option<User>,
    createdAt: Instant)

  /** A login between its awaits, with its in-memory record. */
  datatype Login = Found(held: SsoAuth) | Ready(held: SsoAuth, user: User) | Over

  /** How a provider exchange ends: refused, granted but without usable user information, or
      complete. */
  datatype Exchange = Refused | Incomplete | Complete(user: User)

  /** What a record was created with. */
  datatype Origin = Origin(state: StateId, bindingHash: Hash, at: Instant)

  /** When something was done with a record. */
  datatype Visit = Visit(serial: nat, at: Instant)

  /** `origins`, `presented`, `exchanged`, `unusable` and `issued` are history, by serial: what a
      record was created with, the hash of the cookie its accepted callback presented, completed
      exchanges, granted ones that came to nothing, and token pairs issued. So are `granted`, the
      codes the provider has granted, and `accepted` and `found`, when callbacks were accepted and
      logins found records. */
  datatype Server = Server(
    records: map<StateId, SsoAuth>,
    logins: map<LoginId, Login>,
    origins: seq<Origin>,
    presented: map<nat, Hash>,
    exchanged: seq<nat>,
    unusable: seq<nat>,
    issued: seq<nat>,
    granted: set<Code>,
    accepted: seq<Visit>,
    found: seq<Visit>)

  const EMPTY := Server(map[], map[], [], map[], [], [], [], {}, [], [])

  datatype Step =
    | Authorize(state: StateId, bindingHash: Hash, now: Instant)
    | Callback(state: StateId, cookieHash: Option<Hash>, code: Code, error: bool, now: Instant)
    | Find(l: LoginId, code: Code, found: Option<StateId>, now: Instant)
    | ExchangeCode(l: LoginId, outcome: Exchange)
    | GiveUp(l: LoginId)
    | Redeem(l: LoginId, tokens: bool)
    | Purge(now: Instant)

  predicate Current(r: SsoAuth, now: Instant) {
    r.createdAt >= now - SSO_AUTH_EXPIRATION
  }

  predicate MatchesCode(s: Server, state: StateId, code: Code, now: Instant) {
    state in s.records && s.records[state].code == Some(code) && Current(s.records[state], now)
  }

  /** Records are stored under their own state; a second factor that fails is a `GiveUp`. */
  predicate Possible(s: Server, e: Step) {
    match e
    case Find(l, code, found, now) =>
      l !in s.logins
      && (match found
          case Some(state) => MatchesCode(s, state, code, now)
          case None => forall state | state in s.records :: !MatchesCode(s, state, code, now))
    case ExchangeCode(l, _) => l in s.logins && s.logins[l].Found?
    case GiveUp(l) => l in s.logins && !s.logins[l].Over?
    case Redeem(l, _) => l in s.logins && s.logins[l].Ready?
    case _ => true
  }

  function Codes(r: SsoAuth): set<Code> {
    if r.code.Some? then {r.code.value} else {}
  }

  /** The callback finds its record and presents the cookie of its browser. */
  predicate Binds(s: Server, state: StateId, cookieHash: Option<Hash>, now: Instant) {
    state in s.records && Current(s.records[state], now)
    && s.records[state].bindingHash.Some? && cookieHash == s.records[state].bindingHash
  }

  function Apply(s: Server, e: Step): Server
    requires Possible(s, e)
  {
    match e
    case Authorize(state, bindingHash, now) =>
      s.(records := s.records[state := SsoAuth(state, |s.origins|, Some(bindingHash), None, false, None, now)],
         origins := s.origins + [Origin(state, bindingHash, now)])
    case Callback(state, cookieHash, code, error, now) =>
      if !Binds(s, state, cookieHash, now) then s
      else
        var r := s.records[state];
        s.(records := s.records[state := r.(code := Some(code), error := error)],
           presented := s.presented[r.serial := cookieHash.value],
           accepted := s.accepted + [Visit(r.serial, now)])
    case Find(l, _, found, now) =>
      (match found
       case None => s.(logins := s.logins[l := Over])
       case Some(state) =>
         var r, found' := s.records[state], s.found + [Visit(s.records[state].serial, now)];
         if r.authResponse.Some? then s.(logins := s.logins[l := Ready(r, r.authResponse.value)], found := found')
         else if r.error then s.(logins := s.logins[l := Over], records := s.records - {state}, found := found')
         else s.(logins := s.logins[l := Found(r)], found := found'))
    case ExchangeCode(l, outcome) =>
      var r := s.logins[l].held;
      var granted := s.granted + Codes(r);
      (match outcome
       case Refused => s.(logins := s.logins[l := Over])
       case Incomplete => s.(logins := s.logins[l := Over], unusable := s.unusable + [r.serial], granted := granted)
       case Complete(user) =>
         var r' := r.(authResponse := Some(user));
         s.(records := s.records[r.state := r'], logins := s.logins[l := Ready(r', user)],
            exchanged := s.exchanged + [r.serial], granted := granted))
    case GiveUp(l) => s.(logins := s.logins[l := Over])
    case Redeem(l, tokens) =>
      var r := s.logins[l].held;
      s.(records := s.records - {r.state}, logins := s.logins[l := Over],
         issued := if tokens then s.issued + [r.serial] else s.issued)
    case Purge(now) =>
      s.(records := map state | state in s.records && Current(s.records[state], now) :: s.records[state])
  }

  predicate Run(s: Server, es: seq<Step>)
    decreases |es|
  {
    es == [] || (Possible(s, es[0]) && Run(Apply(s, es[0]), es[1..]))
  }

  function After(s: Server, es: seq<Step>): Server
    requires Run(s, es)
    decreases |es|
  {
    if es == [] then s else After(Apply(s, es[0]), es[1..])
  }

  lemma RunCons(s: Server, e: Step, es: seq<Step>)
    requires Possible(s, e) && Run(Apply(s, e), es)
    ensures Run(s, [e] + es) && After(s, [e] + es) == After(Apply(s, e), es)
  {
    assert ([e] + es)[1..] == es;
  }

  lemma {:induction false} RunConcat(s: Server, es: seq<Step>, es': seq<Step>)
    requires Run(s, es) && Run(After(s, es), es')
    ensures Run(s, es + es') && After(s, es + es') == After(After(s, es), es')
    decreases |es|
  {
    if es == [] {
      assert es + es' == es';
    } else {
      RunConcat(Apply(s, es[0]), es[1..], es');
      RunCons(s, es[0], es[1..] + es');
      assert [es[0]] + (es[1..] + es') == es + es';
    }
  }

  // ---------------------------------------------------------------- the binding cookie

  /** The record is one that authorize created, still with its hash; and what the callback adds
      it has only after an accepted callback. */
  predicate RecordSound(s: Server, r: SsoAuth) {
    && r.serial < |s.origins| && r.bindingHash.Some?
    && s.origins[r.serial] == Origin(r.state, r.bindingHash.value, r.createdAt)
    && (r.code.Some? ==> r.serial in s.presented)
    && (r.authResponse.Some? ==> r.code.Some?)
  }

  predicate LoginSound(s: Server, login: Login) {
    && (!login.Over? ==> RecordSound(s, login.held) && login.held.code.Some?)
    && (login.Ready? ==> login.held.authResponse == Some(login.user))
  }

  /** The browser that authorize bound the record to came back with its cookie. */
  predicate CameBack(s: Server, serial: nat) {
    serial in s.presented && serial < |s.origins| && s.presented[serial] == s.origins[serial].bindingHash
  }

  predicate Bound(s: Server) {
    && (forall state | state in s.records :: s.records[state].state == state && RecordSound(s, s.records[state]))
    && (forall l | l in s.logins :: LoginSound(s, s.logins[l]))
    && (forall serial | serial in s.presented :: CameBack(s, serial))
    && (forall k | 0 <= k < |s.issued| :: s.issued[k] in s.presented)
    && (forall k | 0 <= k < |s.exchanged| :: s.exchanged[k] in s.presented)
  }

  /** History only grows, so what a record relies on stays. */
  lemma HistoryGrows(s: Server, e: Step, r: SsoAuth)
    requires Possible(s, e) && RecordSound(s, r)
    ensures RecordSound(Apply(s, e), r)
  {
  }

  /** A stored record is new, written back by the login that completed its exchange, or as
      before but for what an accepted callback adds. */
  lemma StoredFrame(s: Server, e: Step, state: StateId)
    requires Possible(s, e) && state in Apply(s, e).records
    ensures var r := Apply(s, e).records[state];
            || (e.Authorize? && e.state == state
                && r == SsoAuth(state, |s.origins|, Some(e.bindingHash), None, false, None, e.now))
            || (e.ExchangeCode? && e.outcome.Complete? && s.logins[e.l].held.state == state
                && r == s.logins[e.l].held.(authResponse := Some(e.outcome.user)))
            || (&& state in s.records
                && (|| r == s.records[state]
                    || (e.Callback? && e.state == state && Binds(s, state, e.cookieHash, e.now)
                        && r == s.records[state].(code := Some(e.code), error := e.error)))
                && (e.Redeem? || (e.ExchangeCode? && e.outcome.Complete?) ==> state != s.logins[e.l].held.state))
  {
  }

  lemma StepKeepsRecord(s: Server, e: Step, state: StateId)
    requires Bound(s) && Possible(s, e) && state in Apply(s, e).records
    ensures Apply(s, e).records[state].state == state && RecordSound(Apply(s, e), Apply(s, e).records[state])
  {
    StoredFrame(s, e, state);
    if state in s.records { HistoryGrows(s, e, s.records[state]); }
    if e.ExchangeCode? {
      assert LoginSound(s, s.logins[e.l]);
      HistoryGrows(s, e, s.logins[e.l].held);
    }
  }

  lemma StepKeepsLogin(s: Server, e: Step, l: LoginId)
    requires Bound(s) && Possible(s, e) && l in Apply(s, e).logins
    ensures LoginSound(Apply(s, e), Apply(s, e).logins[l])
  {
    if l in s.logins && !s.logins[l].Over? { HistoryGrows(s, e, s.logins[l].held); }
    if e.Find? && e.found.Some? { HistoryGrows(s, e, s.records[e.found.value]); }
  }

  lemma StepKeepsPresented(s: Server, e: Step, serial: nat)
    requires Bound(s) && Possible(s, e) && serial in Apply(s, e).presented
    ensures CameBack(Apply(s, e), serial)
  {
    if e.Callback? && e.state in s.records { assert RecordSound(s, s.records[e.state]); }
    if serial in s.presented { assert CameBack(s, serial); }
  }

  lemma StepKeepsHistory(s: Server, e: Step)
    requires Bound(s) && Possible(s, e)
    ensures var s' := Apply(s, e);
            && (forall k | 0 <= k < |s'.issued| :: s'.issued[k] in s'.presented)
            && (forall k | 0 <= k < |s'.exchanged| :: s'.exchanged[k] in s'.presented)
  {
    if e.ExchangeCode? || e.Redeem? { assert LoginSound(s, s.logins[e.l]); }
  }

  lemma StepKeepsBound(s: Server, e: Step)
    requires Bound(s) && Possible(s, e)
    ensures Bound(Apply(s, e))
  {
    var s' := Apply(s, e);
    StepKeepsHistory(s, e);
    forall state | state in s'.records ensures s'.records[state].state == state && RecordSound(s', s'.records[state]) {
      StepKeepsRecord(s, e, state);
    }
    forall l | l in s'.logins ensures LoginSound(s', s'.logins[l]) { StepKeepsLogin(s, e, l); }
    forall serial | serial in s'.presented ensures CameBack(s', serial) { StepKeepsPresented(s, e, serial); }
  }

  lemma {:induction false} RunKeepsBound(s: Server, es: seq<Step>)
    requires Bound(s) && Run(s, es)
    ensures Bound(After(s, es))
    decreases |es|
  {
    if es != [] {
      StepKeepsBound(s, es[0]);
      RunKeepsBound(Apply(s, es[0]), es[1..]);
    }
  }

  /** In every interleaving, tokens are issued and codes exchanged only for records whose
      callback presented a cookie with the very hash that authorize gave the record. */
  lemma TokensNeedTheBoundBrowser(es: seq<Step>)
    requires Run(EMPTY, es)
    ensures var s := After(EMPTY, es);
            && (forall k | 0 <= k < |s.issued| :: CameBack(s, s.issued[k]))
            && (forall k | 0 <= k < |s.exchanged| :: CameBack(s, s.exchanged[k]))
  {
    RunKeepsBound(EMPTY, es);
  }

  // ---------------------------------------------------------------- ten minutes

  /** At most ten minutes after authorize. */
  predicate InTime(s: Server, v: Visit) {
    v.serial < |s.origins| && v.at <= s.origins[v.serial].at + 600
  }

  predicate Timely(s: Server) {
    && (forall k | 0 <= k < |s.accepted| :: InTime(s, s.accepted[k]))
    && (forall k | 0 <= k < |s.found| :: InTime(s, s.found[k]))
  }

  lemma {:induction false} RunKeepsTimely(s: Server, es: seq<Step>)
    requires Bound(s) && Timely(s) && Run(s, es)
    ensures Timely(After(s, es))
    decreases |es|
  {
    if es != [] {
      StepKeepsBound(s, es[0]);
      StepKeepsTimely(s, es[0]);
      RunKeepsTimely(Apply(s, es[0]), es[1..]);
    }
  }

  lemma StepKeepsAccepted(s: Server, e: Step, k: nat)
    requires Bound(s) && Timely(s) && Possible(s, e) && k < |Apply(s, e).accepted|
    ensures InTime(Apply(s, e), Apply(s, e).accepted[k])
  {
    if k < |s.accepted| {
      assert InTime(s, s.accepted[k]);
    } else {
      assert RecordSound(s, s.records[e.state]);
    }
  }

  lemma StepKeepsFound(s: Server, e: Step, k: nat)
    requires Bound(s) && Timely(s) && Possible(s, e) && k < |Apply(s, e).found|
    ensures InTime(Apply(s, e), Apply(s, e).found[k])
  {
    if k < |s.found| {
      assert InTime(s, s.found[k]);
    } else {
      assert RecordSound(s, s.records[e.found.value]);
    }
  }

  lemma StepKeepsTimely(s: Server, e: Step)
    requires Bound(s) && Timely(s) && Possible(s, e)
    ensures Timely(Apply(s, e))
  {
    var s' := Apply(s, e);
    forall k | 0 <= k < |s'.accepted| ensures InTime(s', s'.accepted[k]) { StepKeepsAccepted(s, e, k); }
    forall k | 0 <= k < |s'.found| ensures InTime(s', s'.found[k]) { StepKeepsFound(s, e, k); }
  }

  /** In every interleaving, with records written back as often as it comes to that: a callback is
      accepted and a login finds a record at most ten minutes after authorize made it. */
  lemma RecordsServeTenMinutes(es: seq<Step>)
    requires Run(EMPTY, es)
    ensures var s := After(EMPTY, es);
            && (forall k | 0 <= k < |s.accepted| :: InTime(s, s.accepted[k]))
            && (forall k | 0 <= k < |s.found| :: InTime(s, s.found[k]))
  {
    RunKeepsTimely(EMPTY, es);
  }

  /** A callback writes its code and error exactly if its state has a record, within ten minutes of
      the authorize that made it, and it brings the cookie that authorize gave out. */
  lemma CallbackOutcome(es: seq<Step>, e: Step)
    requires Run(EMPTY, es) && e.Callback?
    ensures var s := After(EMPTY, es);
            var s' := Apply(s, e);
            if e.state in s.records && s.records[e.state].serial < |s.origins|
               && e.cookieHash == Some(s.origins[s.records[e.state].serial].bindingHash)
               && e.now <= s.origins[s.records[e.state].serial].at + 600
            then
              && s'.records == s.records[e.state := s.records[e.state].(code := Some(e.code), error := e.error)]
              && s'.logins == s.logins
              && s'.accepted == s.accepted + [Visit(s.records[e.state].serial, e.now)]
            else s' == s
  {
    RunKeepsBound(EMPTY, es);
    var s := After(EMPTY, es);
    if e.state in s.records { assert RecordSound(s, s.records[e.state]); }
  }

  /** A login comes to a record exactly if the record has its code, within ten minutes of the
      authorize that made it. It is ready if the record has a response already, and over, with
      the record gone, if the callback brought an error. */
  lemma FindOutcome(es: seq<Step>, l: LoginId, code: Code, state: StateId, now: Instant)
    requires Run(EMPTY, es) && l !in After(EMPTY, es).logins && state in After(EMPTY, es).records
    ensures var s := After(EMPTY, es);
            var r := s.records[state];
            var e := Find(l, code, Some(state), now);
            && (Possible(s, e) <==>
                  r.code == Some(code) && r.serial < |s.origins| && now <= s.origins[r.serial].at + 600)
            && (Possible(s, e) ==> Apply(s, e).found == s.found + [Visit(r.serial, now)])
            && (Possible(s, e) ==>
                  if r.authResponse.Some? then
                    && Apply(s, e).logins == s.logins[l := Ready(r, r.authResponse.value)]
                    && Apply(s, e).records == s.records
                  else if r.error then
                    Apply(s, e).logins == s.logins[l := Over] && Apply(s, e).records == s.records - {state}
                  else Apply(s, e).logins == s.logins[l := Found(r)] && Apply(s, e).records == s.records)
  {
    RunKeepsBound(EMPTY, es);
    assert RecordSound(After(EMPTY, es), After(EMPTY, es).records[state]);
  }

  /** And a login comes to nothing exactly if no record has its code, or none in time. */
  lemma NothingFoundOutcome(es: seq<Step>, l: LoginId, code: Code, now: Instant)
    requires Run(EMPTY, es) && l !in After(EMPTY, es).logins
    ensures var s := After(EMPTY, es);
            var e := Find(l, code, None, now);
            && (Possible(s, e) <==>
                  forall state | state in s.records && s.records[state].code == Some(code) ::
                    s.records[state].serial < |s.origins| && s.origins[s.records[state].serial].at + 600 < now)
            && (Possible(s, e) ==> Apply(s, e) == s.(logins := s.logins[l := Over]))
  {
    RunKeepsBound(EMPTY, es);
    var s := After(EMPTY, es);
    forall state | state in s.records
      ensures MatchesCode(s, state, code, now) <==>
              s.records[state].code == Some(code) && now <= s.origins[s.records[state].serial].at + 600
    {
      assert RecordSound(s, s.records[state]);
    }
  }

  /** A purge removes exactly the records that were made more than ten minutes ago. */
  lemma PurgeOutcome(es: seq<Step>, now: Instant, state: StateId)
    requires Run(EMPTY, es)
    ensures var s := After(EMPTY, es);
            var s' := Apply(s, Purge(now));
            && (state in s'.records <==>
                  && state in s.records && s.records[state].serial < |s.origins|
                  && now <= s.origins[s.records[state].serial].at + 600)
            && (state in s'.records ==> s'.records[state] == s.records[state])
  {
    RunKeepsBound(EMPTY, es);
    var s := After(EMPTY, es);
    if state in s.records { assert RecordSound(s, s.records[state]); }
  }

  // ---------------------------------------------------------------- a whole login

  /** Authorize, callback and lookup, each in time: the login holds a new record with its code. */
  lemma LoginFinds(s: Server, st: StateId, hash: Hash, code: Code, l: LoginId, t0: Instant, t1: Instant, t2: Instant)
    requires l !in s.logins && t1 <= t0 + 600 && t2 <= t0 + 600
    ensures var es := [Authorize(st, hash, t0)]
                      + ([Callback(st, Some(hash), code, false, t1)] + [Find(l, code, Some(st), t2)]);
            var r := SsoAuth(st, |s.origins|, Some(hash), Some(code), false, None, t0);
            && Run(s, es)
            && After(s, es).logins == s.logins[l := Found(r)] && After(s, es).records == s.records[st := r]
            && After(s, es).issued == s.issued
  {
    var e1, e2, e3 := Authorize(st, hash, t0), Callback(st, Some(hash), code, false, t1), Find(l, code, Some(st), t2);
    var s1 := Apply(s, e1);
    var s2 := Apply(s1, e2);
    RunCons(s2, e3, []);
    assert [e3] + [] == [e3];
    RunCons(s1, e2, [e3]);
    RunCons(s, e1, [e2] + [e3]);
    assert s2.records == s.records[st := SsoAuth(st, |s.origins|, Some(hash), Some(code), false, None, t0)];
  }

  /** The provider's answer is kept with the record: if the second factor then fails, a login that
      tries again, in time, is ready at once for the same user. Redeeming gives tokens and removes
      the record. */
  lemma LoginCompletes(s: Server, l: LoginId, again: LoginId, user: User, now: Instant)
    requires l in s.logins && s.logins[l].Found? && MapsTo(s, s.logins[l].held) && again !in s.logins
    requires s.logins[l].held.code.Some? && now <= s.logins[l].held.createdAt + 600
    ensures var r := s.logins[l].held;
            var retry := [ExchangeCode(l, Complete(user))]
                         + ([GiveUp(l)] + [Find(again, r.code.value, Some(r.state), now)]);
            && Run(s, retry) && After(s, retry).issued == s.issued
            && After(s, retry).logins == s.logins[l := Over][again := Ready(r.(authResponse := Some(user)), user)]
            && var t := After(s, retry);
               && Possible(t, Redeem(again, true))
               && Apply(t, Redeem(again, true)).issued == s.issued + [r.serial]
               && Apply(t, Redeem(again, true)).records == s.records - {r.state}
               && Apply(t, Redeem(again, true)).logins == s.logins[l := Over][again := Over]
               && Apply(t, Redeem(again, false)).issued == s.issued
               && Apply(t, Redeem(again, false)).records == s.records - {r.state}
  {
    var r := s.logins[l].held;
    var e1, e2, e3 := ExchangeCode(l, Complete(user)), GiveUp(l), Find(again, r.code.value, Some(r.state), now);
    var s1 := Apply(s, e1);
    var s2 := Apply(s1, e2);
    RunCons(s2, e3, []);
    assert [e3] + [] == [e3];
    RunCons(s1, e2, [e3]);
    RunCons(s, e1, [e2] + [e3]);
    assert s2.logins == s.logins[l := Over];
    var t := Apply(s2, e3);
    assert t.records - {r.state} == s.records - {r.state};
  }

  /** An exchange that fails, at the provider or over the user information, ends its login and
      leaves every record as it was. */
  lemma FailedExchangeOutcome(s: Server, l: LoginId, outcome: Exchange)
    requires l in s.logins && s.logins[l].Found? && !outcome.Complete?
    ensures var s' := Apply(s, ExchangeCode(l, outcome));
            && s'.logins == s.logins[l := Over] && s'.records == s.records
            && s'.issued == s.issued && s'.exchanged == s.exchanged
            && (outcome.Refused? <==> s'.unusable == s.unusable)
  {
  }

  predicate MapsTo(s: Server, r: SsoAuth) {
    r.state in s.records && s.records[r.state] == r
  }

  // ---------------------------------------------------------------- once per record

  function Issues(s: Server, serial: nat): nat {
    multiset(s.issued)[serial]
  }

  function Exchanges(s: Server, serial: nat): nat {
    multiset(s.exchanged)[serial]
  }

  predicate Holds(s: Server, l: LoginId, serial: nat) {
    l in s.logins && !s.logins[l].Over? && s.logins[l].held.serial == serial
  }

  predicate Stored(s: Server, serial: nat) {
    exists state | state in s.records :: s.records[state].serial == serial
  }

  /** The logins of the record are taken one at a time. */
  predicate Guard(s: Server, e: Step, serial: nat) {
    e.Find? && e.found.Some? && e.found.value in s.records && s.records[e.found.value].serial == serial ==>
      forall l | l in s.logins :: !Holds(s, l, serial)
  }

  predicate Guarded(s: Server, es: seq<Step>, serial: nat)
    requires Run(s, es)
    decreases |es|
  {
    es == [] || (Guard(s, es[0], serial) && Guarded(Apply(s, es[0]), es[1..], serial))
  }

  /** A stored or held record was not redeemed, and not exchanged unless it carries the response. */
  predicate Unspent(s: Server, r: SsoAuth) {
    Issues(s, r.serial) == 0 && (r.authResponse.None? ==> Exchanges(s, r.serial) == 0)
  }

  predicate UnspentLogin(s: Server, login: Login) {
    !login.Over? ==> Unspent(s, login.held) && (login.Found? <==> login.held.authResponse.None?)
  }

  ghost predicate Alone(s: Server, serial: nat) {
    forall l, l' | Holds(s, l, serial) && Holds(s, l', serial) :: l == l'
  }

  ghost predicate Once(s: Server, serial: nat) {
    && Bound(s) && Alone(s, serial)
    && Issues(s, serial) <= 1 && Exchanges(s, serial) <= 1
    && (serial >= |s.origins| ==> Issues(s, serial) == 0 && Exchanges(s, serial) == 0)
    && (forall state | state in s.records && s.records[state].serial == serial :: Unspent(s, s.records[state]))
    && (forall l | Holds(s, l, serial) :: UnspentLogin(s, s.logins[l]))
  }

  /** Only the login that holds a record can exchange or redeem it. */
  lemma CountFrame(s: Server, e: Step, serial: nat)
    requires Possible(s, e)
    ensures Exchanges(Apply(s, e), serial) == Exchanges(s, serial)
              + if e.ExchangeCode? && e.outcome.Complete? && Holds(s, e.l, serial) then 1 else 0
    ensures Issues(Apply(s, e), serial) == Issues(s, serial)
              + if e.Redeem? && e.tokens && Holds(s, e.l, serial) then 1 else 0
  {
  }

  /** A login that holds a stored record is stored under the same state. */
  lemma SameOrigin(s: Server, l: LoginId, state: StateId)
    requires Bound(s) && state in s.records && Holds(s, l, s.records[state].serial)
    ensures s.logins[l].held.state == state
  {
    assert LoginSound(s, s.logins[l]) && RecordSound(s, s.records[state]);
  }

  lemma StepKeepsStored(s: Server, e: Step, serial: nat, state: StateId)
    requires Once(s, serial) && Possible(s, e)
    requires state in Apply(s, e).records && Apply(s, e).records[state].serial == serial
    ensures Unspent(Apply(s, e), Apply(s, e).records[state])
  {
    CountFrame(s, e, serial);
    StoredFrame(s, e, state);
    if e.ExchangeCode? && e.outcome.Complete? && Holds(s, e.l, serial) {
      assert UnspentLogin(s, s.logins[e.l]);
    }
    if state in s.records && s.records[state].serial == serial {
      assert Unspent(s, s.records[state]);
      if (e.ExchangeCode? || e.Redeem?) && Holds(s, e.l, serial) { SameOrigin(s, e.l, state); }
    }
  }

  /** A login that holds a record has just found it, has just exchanged its code, or held it
      before and did neither. */
  lemma HoldsFrame(s: Server, e: Step, l: LoginId, serial: nat)
    requires Possible(s, e) && Holds(Apply(s, e), l, serial)
    ensures var login := Apply(s, e).logins[l];
            || (&& e.Find? && e.l == l && e.found.Some? && e.found.value in s.records
                && var r := s.records[e.found.value];
                   && r.serial == serial
                   && login == if r.authResponse.Some? then Ready(r, r.authResponse.value) else Found(r))
            || (&& e.ExchangeCode? && e.l == l && e.outcome.Complete? && Holds(s, l, serial)
                && login == Ready(s.logins[l].held.(authResponse := Some(e.outcome.user)), e.outcome.user))
            || (&& Holds(s, l, serial) && login == s.logins[l]
                && (e.Redeem? || (e.ExchangeCode? && e.outcome.Complete?) ==> e.l != l))
  {
  }

  lemma StepKeepsHeld(s: Server, e: Step, serial: nat, l: LoginId)
    requires Once(s, serial) && Possible(s, e) && Holds(Apply(s, e), l, serial)
    ensures UnspentLogin(Apply(s, e), Apply(s, e).logins[l])
  {
    CountFrame(s, e, serial);
    HoldsFrame(s, e, l, serial);
    if Holds(s, l, serial) { assert UnspentLogin(s, s.logins[l]); }
  }

  lemma StepKeepsAlone(s: Server, e: Step, serial: nat)
    requires Alone(s, serial) && Possible(s, e) && Guard(s, e, serial)
    ensures Alone(Apply(s, e), serial)
  {
    var s' := Apply(s, e);
    forall l, l' | Holds(s', l, serial) && Holds(s', l', serial) ensures l == l' {
      HoldsFrame(s, e, l, serial);
      HoldsFrame(s, e, l', serial);
    }
  }

  lemma StepKeepsOnce(s: Server, e: Step, serial: nat)
    requires Once(s, serial) && Possible(s, e) && Guard(s, e, serial)
    ensures Once(Apply(s, e), serial)
  {
    var s' := Apply(s, e);
    StepKeepsBound(s, e);
    StepKeepsAlone(s, e, serial);
    CountFrame(s, e, serial);
    if (e.ExchangeCode? || e.Redeem?) && Holds(s, e.l, serial) {
      assert UnspentLogin(s, s.logins[e.l]) && LoginSound(s, s.logins[e.l]);
    }
    forall state | state in s'.records && s'.records[state].serial == serial ensures Unspent(s', s'.records[state]) {
      StepKeepsStored(s, e, serial, state);
    }
    forall l | Holds(s', l, serial) ensures UnspentLogin(s', s'.logins[l]) { StepKeepsHeld(s, e, serial, l); }
  }

  lemma {:induction false} GuardedRunKeepsOnce(s: Server, es: seq<Step>, serial: nat)
    requires Once(s, serial) && Run(s, es) && Guarded(s, es, serial)
    ensures Once(After(s, es), serial)
    decreases |es|
  {
    if es != [] {
      StepKeepsOnce(s, es[0], serial);
      GuardedRunKeepsOnce(Apply(s, es[0]), es[1..], serial);
    }
  }

  /** With the logins of a record taken one at a time, however often a second factor fails and
      the login is retried, and whatever is done with other records: it yields tokens at most
      once, and its code is exchanged to a response at most once. */
  lemma RecordsAreUsedOnce(es: seq<Step>, serial: nat)
    requires Run(EMPTY, es) && Guarded(EMPTY, es, serial)
    ensures Issues(After(EMPTY, es), serial) <= 1 && Exchanges(After(EMPTY, es), serial) <= 1
  {
    GuardedRunKeepsOnce(EMPTY, es, serial);
  }

  // ---------------------------------------------------------------- exactness of the guard

  predicate Gone(s: Server, serial: nat) {
    serial < |s.origins| && !Stored(s, serial) && forall l | l in s.logins :: !Holds(s, l, serial)
  }

  lemma StepKeepsGone(s: Server, e: Step, serial: nat)
    requires Possible(s, e) && Gone(s, serial)
    ensures Gone(Apply(s, e), serial) && Issues(Apply(s, e), serial) == Issues(s, serial)
  {
    var s' := Apply(s, e);
    CountFrame(s, e, serial);
    if e.ExchangeCode? || e.Redeem? { assert !Holds(s, e.l, serial); }
    forall state | state in s'.records ensures s'.records[state].serial != serial { StoredFrame(s, e, state); }
    forall l | l in s'.logins ensures !Holds(s', l, serial) {
      if Holds(s', l, serial) { HoldsFrame(s, e, l, serial); }
    }
  }

  /** A record that is neither stored nor held yields nothing, whatever follows. */
  lemma {:induction false} GoneStaysGone(s: Server, es: seq<Step>, serial: nat)
    requires Run(s, es) && Gone(s, serial)
    ensures Gone(After(s, es), serial) && Issues(After(s, es), serial) == Issues(s, serial)
    decreases |es|
  {
    if es != [] {
      StepKeepsGone(s, es[0], serial);
      GoneStaysGone(Apply(s, es[0]), es[1..], serial);
    }
  }

  ghost predicate CanIssueMore(s: Server, serial: nat) {
    exists es :: Run(s, es) && Issues(After(s, es), serial) > Issues(s, serial)
  }

  /** A login that holds a record can bring it to tokens; every other login keeps what it holds. */
  lemma HolderCanIssue(s: Server, l: LoginId, serial: nat) returns (es: seq<Step>)
    requires Holds(s, l, serial)
    ensures Run(s, es) && Issues(After(s, es), serial) == Issues(s, serial) + 1
    ensures forall l' | l' != l && Holds(s, l', serial) :: Holds(After(s, es), l', serial)
  {
    var e := Redeem(l, true);
    if s.logins[l].Ready? {
      RunCons(s, e, []);
      es := [e] + [];
    } else {
      var x := ExchangeCode(l, Complete(""));
      var s' := Apply(s, x);
      RunCons(s', e, []);
      RunCons(s, x, [e] + []);
      es := [x] + ([e] + []);
    }
  }

  /** The guard is needed: from every state in which a login finds a record that another login
      holds, both can go on to issue tokens for it. */
  lemma GuardIsNeeded(s: Server, e: Step, serial: nat)
    requires Possible(s, e) && !Guard(s, e, serial)
    requires s.records[e.found.value].error ==> s.records[e.found.value].authResponse.Some?
    ensures exists es :: Run(s, [e] + es) && Issues(After(s, [e] + es), serial) == Issues(s, serial) + 2
  {
    var l :| l in s.logins && Holds(s, l, serial);
    var s1 := Apply(s, e);
    assert Holds(s1, l, serial) && Holds(s1, e.l, serial) && l != e.l;
    var es := HolderCanIssue(s1, l, serial);
    var es' := HolderCanIssue(After(s1, es), e.l, serial);
    RunConcat(s1, es, es');
    RunCons(s, e, es + es');
  }

  // ---------------------------------------------------------------- codes that are granted once

  /** The provider grants a code at most once, as section 4.1.2 of RFC 6749 demands. */
  predicate GrantsOnce(s: Server, es: seq<Step>)
    requires Run(s, es)
    decreases |es|
  {
    es == []
    || (&& (es[0].ExchangeCode? && !es[0].outcome.Refused? ==> Codes(s.logins[es[0].l].held) !! s.granted)
        && GrantsOnce(Apply(s, es[0]), es[1..]))
  }

  predicate Joins(s: Server, e: Step, serial: nat) {
    e.Find? && e.found.Some? && e.found.value in s.records && s.records[e.found.value].serial == serial
  }

  /** No further login finds the record. */
  predicate NoneJoins(s: Server, es: seq<Step>, serial: nat)
    requires Run(s, es)
    decreases |es|
  {
    es == [] || (!Joins(s, es[0], serial) && NoneJoins(Apply(s, es[0]), es[1..], serial))
  }

  /** The login is redeemable, or its code is still good. */
  predicate Able(s: Server, l: LoginId, serial: nat) {
    Holds(s, l, serial) && (s.logins[l].Found? ==> Codes(s.logins[l].held) !! s.granted)
  }

  predicate ShareCode(s: Server, l: LoginId, l': LoginId) {
    l in s.logins && l' in s.logins && s.logins[l].Found? && s.logins[l'].Found?
    && Codes(s.logins[l].held) == Codes(s.logins[l'].held)
  }

  /** How often the two logins can come to tokens. */
  function Chances(s: Server, l: LoginId, l': LoginId, serial: nat): nat {
    if Able(s, l, serial) && Able(s, l', serial) then if ShareCode(s, l, l') then 1 else 2
    else if Able(s, l, serial) || Able(s, l', serial) then 1
    else 0
  }

  ghost predicate OnlyHolders(s: Server, l: LoginId, l': LoginId, serial: nat) {
    forall x | Holds(s, x, serial) :: x == l || x == l'
  }

  /** What a step does to a login that still holds the record, with the codes granted by then. */
  lemma AbleFrame(s: Server, e: Step, l: LoginId, serial: nat)
    requires Bound(s) && Possible(s, e) && !Joins(s, e, serial) && Able(Apply(s, e), l, serial)
    requires e.ExchangeCode? && !e.outcome.Refused? ==> Codes(s.logins[e.l].held) !! s.granted
    ensures Able(s, l, serial) && !(e.Redeem? && e.l == l)
    ensures Apply(s, e).logins[l] == s.logins[l] || (e.ExchangeCode? && e.l == l && s.logins[l].Found?)
    ensures e.ExchangeCode? && !e.outcome.Refused? && e.l != l && s.logins[l].Found? ==>
              Codes(s.logins[e.l].held) !! Codes(s.logins[l].held)
  {
    HoldsFrame(s, e, l, serial);
  }

  lemma StepSpendsChances(s: Server, e: Step, l: LoginId, l': LoginId, serial: nat)
    requires Bound(s) && OnlyHolders(s, l, l', serial) && l != l' && Possible(s, e) && !Joins(s, e, serial)
    requires e.ExchangeCode? && !e.outcome.Refused? ==> Codes(s.logins[e.l].held) !! s.granted
    ensures var s' := Apply(s, e);
            && OnlyHolders(s', l, l', serial)
            && Issues(s', serial) + Chances(s', l, l', serial) <= Issues(s, serial) + Chances(s, l, l', serial)
  {
    var s' := Apply(s, e);
    CountFrame(s, e, serial);
    forall x | Holds(s', x, serial) ensures x == l || x == l' { HoldsFrame(s, e, x, serial); }
    if Able(s', l, serial) { AbleFrame(s, e, l, serial); }
    if Able(s', l', serial) { AbleFrame(s, e, l', serial); }
    if e.ExchangeCode? || e.Redeem? { assert LoginSound(s, s.logins[e.l]); }
  }

  lemma {:induction false} ChancesBoundIssues(s: Server, es: seq<Step>, l: LoginId, l': LoginId, serial: nat)
    requires Bound(s) && OnlyHolders(s, l, l', serial) && l != l'
    requires Run(s, es) && GrantsOnce(s, es) && NoneJoins(s, es, serial)
    ensures Issues(After(s, es), serial) <= Issues(s, serial) + Chances(s, l, l', serial)
    decreases |es|
  {
    if es != [] {
      StepKeepsBound(s, es[0]);
      StepSpendsChances(s, es[0], l, l', serial);
      ChancesBoundIssues(Apply(s, es[0]), es[1..], l, l', serial);
    }
  }

  /** Every continuation that fits: the provider grants once, and no further login joins. */
  ghost predicate CanIssueTwice(s: Server, serial: nat) {
    exists es :: Run(s, es) && GrantsOnce(s, es) && NoneJoins(s, es, serial)
                 && Issues(After(s, es), serial) == Issues(s, serial) + 2
  }

  /** How a login goes on to tokens. */
  function ToTokens(login: Login, l: LoginId): seq<Step> {
    if login.Ready? then [Redeem(l, true)] else [ExchangeCode(l, Complete("")), Redeem(l, true)]
  }

  lemma TokensFollow(s: Server, l: LoginId, serial: nat)
    requires Able(s, l, serial)
    ensures var es := ToTokens(s.logins[l], l);
            && Run(s, es) && GrantsOnce(s, es) && NoneJoins(s, es, serial)
            && Issues(After(s, es), serial) == Issues(s, serial) + 1
            && After(s, es).granted == s.granted + (if s.logins[l].Found? then Codes(s.logins[l].held) else {})
            && (forall x | x in s.logins && x != l :: x in After(s, es).logins && After(s, es).logins[x] == s.logins[x])
  {
    var e := Redeem(l, true);
    if s.logins[l].Ready? {
      assert [e][1..] == [];
    } else {
      var x := ExchangeCode(l, Complete(""));
      var s1 := Apply(s, x);
      RunCons(s1, e, []);
      assert [x] + ([e] + []) == [x, e];
      assert [x, e][1..] == [e] && [e][1..] == [];
      RunCons(s, x, [e]);
      assert After(s, [x, e]) == Apply(s1, e);
    }
  }

  lemma {:induction false} FitsConcat(s: Server, es: seq<Step>, es': seq<Step>, serial: nat)
    requires Run(s, es) && GrantsOnce(s, es) && NoneJoins(s, es, serial)
    requires Run(After(s, es), es') && GrantsOnce(After(s, es), es') && NoneJoins(After(s, es), es', serial)
    ensures Run(s, es + es') && After(s, es + es') == After(After(s, es), es')
    ensures GrantsOnce(s, es + es') && NoneJoins(s, es + es', serial)
    decreases |es|
  {
    if es == [] {
      assert es + es' == es';
    } else {
      assert (es + es')[1..] == es[1..] + es';
      FitsConcat(Apply(s, es[0]), es[1..], es', serial);
    }
  }

  /** With a provider that grants each code once: two logins that hold one record both come to
      tokens if and only if each is redeemable or has a code that is still good, and not the same
      code. */
  lemma TwoLoginsIssueExactly(s: Server, l: LoginId, l': LoginId, serial: nat)
    requires Bound(s) && l != l' && Holds(s, l, serial) && Holds(s, l', serial) && OnlyHolders(s, l, l', serial)
    ensures CanIssueTwice(s, serial)
            <==> Able(s, l, serial) && Able(s, l', serial) && !ShareCode(s, l, l')
  {
    if Chances(s, l, l', serial) < 2 {
      forall es | Run(s, es) && GrantsOnce(s, es) && NoneJoins(s, es, serial)
        ensures Issues(After(s, es), serial) < Issues(s, serial) + 2
      {
        ChancesBoundIssues(s, es, l, l', serial);
      }
    } else {
      assert LoginSound(s, s.logins[l]) && LoginSound(s, s.logins[l']);
      var es := ToTokens(s.logins[l], l);
      TokensFollow(s, l, serial);
      var s1 := After(s, es);
      TokensFollow(s1, l', serial);
      FitsConcat(s, es, ToTokens(s1.logins[l'], l'), serial);
    }
  }

  // ---------------------------------------------------------------- when a record ends

  /** Redeeming a record ends it if and only if no other login holds it: deleting the row takes
      nothing from a login that has read it. */
  lemma RedeemEndsRecordExactly(s: Server, l: LoginId)
    requires Bound(s) && Possible(s, Redeem(l, true))
    ensures var s' := Apply(s, Redeem(l, true));
            var serial := s.logins[l].held.serial;
            CanIssueMore(s', serial) <==> exists l' | l' in s'.logins :: Holds(s', l', serial)
  {
    var s' := Apply(s, Redeem(l, true));
    var serial := s.logins[l].held.serial;
    if l' :| l' in s'.logins && Holds(s', l', serial) {
      var es := HolderCanIssue(s', l', serial);
    } else {
      assert !Stored(s', serial);
      assert Gone(s', serial);
      forall es | Run(s', es) ensures Issues(After(s', es), serial) == Issues(s', serial) {
        GoneStaysGone(s', es, serial);
      }
    }
  }

  /** An exchange that the provider grants but whose user information fails leaves no trace in
      the record, so the next login exchanges the same code again. */
  lemma UnusableGrantIsRetried(s: Server, l: LoginId, l': LoginId, now: Instant, user: User)
    requires Bound(s) && Possible(s, ExchangeCode(l, Incomplete)) && l' !in s.logins
    requires MapsTo(s, s.logins[l].held) && Current(s.logins[l].held, now)
    requires !s.logins[l].held.error && s.logins[l].held.authResponse.None?
    ensures var r := s.logins[l].held;
            var find := Find(l', r.code.value, Some(r.state), now);
            var es := [ExchangeCode(l, Incomplete), find, ExchangeCode(l', Complete(user))];
            && Run(s, es)
            && After(s, es).unusable == s.unusable + [r.serial] && After(s, es).exchanged == s.exchanged + [r.serial]
  {
    var r := s.logins[l].held;
    var x := ExchangeCode(l, Incomplete);
    var f := Find(l', r.code.value, Some(r.state), now);
    var x' := ExchangeCode(l', Complete(user));
    var s1 := Apply(s, x);
    var s2 := Apply(s1, f);
    RunCons(s2, x', []);
    RunCons(s1, f, [x'] + []);
    RunCons(s, x, [f] + ([x'] + []));
    assert [x] + ([f] + ([x'] + [])) == [x, f, x'];
  }

  // ---------------------------------------------------------------- the record table

  /** The stored records; each method is one access between two awaits. */
  class SsoTable {
    var records: map<StateId, SsoAuth>
    var origins: seq<Origin>
    ghost var logins: map<LoginId, Login>
    ghost var presented: map<nat, Hash>
    ghost var exchanged: seq<nat>
    ghost var unusable: seq<nat>
    ghost var issued: seq<nat>
    ghost var granted: set<Code>
    ghost var accepted: seq<Visit>
    ghost var found: seq<Visit>

    ghost function View(): Server
      reads this
    {
      Server(records, logins, origins, presented, exchanged, unusable, issued, granted, accepted, found)
    }

    /** `authorize`: the upsert replaces whatever the state had. */
    method Start(state: StateId, bindingHash: Hash, now: Instant)
      modifies this
      ensures View() == Apply(old(View()), Authorize(state, bindingHash, now))
    {
      records := records[state := SsoAuth(state, |origins|, Some(bindingHash), None, false, None, now)];
      origins := origins + [Origin(state, bindingHash, now)];
    }

    /** `oidcsignin_redirect`. */
    method SignInRedirect(state: StateId, cookieHash: Option<Hash>, code: Code, error: bool, now: Instant)
      returns (ok: bool)
      modifies this
      ensures View() == Apply(old(View()), Callback(state, cookieHash, code, error, now))
      ensures ok <==> Binds(old(View()), state, cookieHash, now)
    {
      if state !in records || records[state].createdAt < now - SSO_AUTH_EXPIRATION { return false; }
      var r := records[state];
      if r.bindingHash.None? || cookieHash.None? || r.bindingHash.value != cookieHash.value { return false; }
      r := r.(code := Some(code));
      r := r.(error := error);
      records := records[state := r];
      presented := presented[r.serial := cookieHash.value];
      accepted := accepted + [Visit(r.serial, now)];
      ok := true;
    }

    /** `exchange_code` up to the call to the provider. */
    method FindByCode(l: LoginId, code: Code, now: Instant) returns (login: Login)
      requires l !in logins
      modifies this
      ensures l in logins && logins[l] == login
      ensures exists found ::
                && Possible(old(View()), Find(l, code, found, now))
                && View() == Apply(old(View()), Find(l, code, found, now))
    {
      ghost var before := View();
      if state :| state in records && records[state].code == Some(code) && Current(records[state], now) {
        var r := records[state];
        if r.authResponse.Some? {
          login := Ready(r, r.authResponse.value);
        } else if r.error {
          records := records - {state};
          login := Over;
        } else {
          login := Found(r);
        }
        logins := logins[l := login];
        found := found + [Visit(r.serial, now)];
        assert Possible(before, Find(l, code, Some(state), now));
        assert View() == Apply(before, Find(l, code, Some(state), now));
      } else {
        login := Over;
        logins := logins[l := login];
        assert Possible(before, Find(l, code, None, now));
        assert View() == Apply(before, Find(l, code, None, now));
      }
    }

    /** The rest of `exchange_code`, once the provider and the user information answered. */
    method SaveResponse(l: LoginId, held: SsoAuth, user: User) returns (ready: SsoAuth)
      requires l in logins && logins[l] == Found(held)
      modifies this
      ensures View() == Apply(old(View()), ExchangeCode(l, Complete(user)))
      ensures logins[l] == Ready(ready, user)
    {
      ready := held.(authResponse := Some(user));
      records := records[held.state := ready];
      logins := logins[l := Ready(ready, user)];
      exchanged := exchanged + [held.serial];
      granted := granted + Codes(held);
    }

    /** `redeem`: the row goes first, the tokens may still fail. */
    method RedeemRecord(l: LoginId, held: SsoAuth, tokens: bool)
      requires l in logins && logins[l].Ready? && logins[l].held == held
      modifies this
      ensures View() == Apply(old(View()), Redeem(l, tokens))
    {
      records := records - {held.state};
      logins := logins[l := Over];
      issued := if tokens then issued + [held.serial] else issued;
    }
  }
}
