/**
 Account-scoped vault sync in the browser (web-client/assets/vault-state.js, sync-client.js,
 authenticated-api.js): a sync request captures the scope epoch and an access token, awaits the
 server, and is stored only if the scope has not changed meanwhile.
 */
module VaultSync {
  import opened Common
  import T = TokenState

  type RequestId = nat

  datatype Phase = Empty | ScopedEmpty | OpaqueSyncReady

  /** What a request captured before its await; `generation` is history. */
  datatype Flight = Flight(account: string, expectedEpoch: nat, accessToken: T.Token, generation: nat)

  /** A validated sync envelope, with the request that fetched it as history. */
  datatype Envelope = Envelope(content: string, fetchedBy: Flight)

  datatype Vault = Vault(accountId: Option<string>, phase: Phase, sync: Option<Envelope>, epoch: nat)

  const INITIAL := Vault(None, Empty, None, 0)

  datatype Rejection = Invalid | CrossAccount | StaleEpoch

  function Scoped(v: Vault, account: string): Vault {
    if account == "" then v else Vault(Some(account), ScopedEmpty, None, v.epoch + 1)
  }

  function Cleared(v: Vault): Vault {
    INITIAL.(epoch := v.epoch + 1)
  }

  function Accepted(v: Vault, account: string, envelope: Option<Envelope>,
                    expectedEpoch: nat): Result<Vault, Rejection> {
    if Some(account) != v.accountId then Err(CrossAccount)
    else if expectedEpoch != v.epoch then Err(StaleEpoch)
    else if envelope.None? then Err(Invalid)
    else Ok(v.(phase := OpaqueSyncReady, sync := envelope))
  }

  /** A sync of another account, of another epoch, or that is none, is never stored. */
  lemma ForeignSyncIsRefused(v: Vault, account: string, envelope: Option<Envelope>, expectedEpoch: nat)
    ensures Accepted(v, account, envelope, expectedEpoch).Ok?
            <==> v.accountId == Some(account) && v.epoch == expectedEpoch && envelope.Some?
  {
  }

  /** The module variable of vault-state.js. */
  class VaultStore {
    var accountId: Option<string>
    var phase: Phase
    var sync: Option<Envelope>
    var epoch: nat

    function View(): Vault
      reads this
    {
      Vault(accountId, phase, sync, epoch)
    }

    constructor ()
      ensures View() == INITIAL
    {
      accountId, phase, sync, epoch := None, Empty, None, 0;
    }

    method BeginScope(account: string) returns (ok: bool)
      modifies this
      ensures ok <==> account != ""
      ensures View() == Scoped(old(View()), account)
    {
      if account == "" { return false; }
      accountId, phase, sync, epoch := Some(account), ScopedEmpty, None, epoch + 1;
      ok := true;
    }

    method AcceptOpaqueSync(account: string, envelope: Option<Envelope>, expectedEpoch: nat)
      returns (failure: Option<Rejection>)
      modifies this
      ensures match Accepted(old(View()), account, envelope, expectedEpoch)
              case Ok(v) => failure == None && View() == v
              case Err(f) => failure == Some(f) && View() == old(View())
    {
      if Some(account) != accountId { return Some(CrossAccount); }
      if expectedEpoch != epoch { return Some(StaleEpoch); }
      if envelope.None? { return Some(Invalid); }
      phase, sync := OpaqueSyncReady, envelope;
      failure := None;
    }

    method Clear()
      modifies this
      ensures View() == Cleared(old(View()))
    {
      accountId, phase, sync, epoch := None, Empty, None, epoch + 1;
    }

    method SwitchAccount(account: string) returns (ok: bool)
      modifies this
      ensures ok <==> account != ""
      ensures View() == Scoped(Cleared(old(View())), account)
    {
      Clear();
      ok := BeginScope(account);
    }
  }

  // ---------------------------------------------------------------- interleavings

  /** `held` is history: every access token the browser ever held, with its account. */
  datatype State = State(vault: Vault, tokens: T.State, flights: map<RequestId, Flight>, held: set<(string, T.Token)>)

  const START := State(INITIAL, T.INITIAL, map[], {})

  datatype Step =
    | BeginScope(account: string)
    | ClearVault
    | SwitchAccount(account: string)
    | AcceptTokens(account: string, set_: T.TokenSet, at: Option<int>)
    | ClearTokens
    | StartSync(r: RequestId, account: string, now: int, skew: int)
    | Respond(r: RequestId, content: Option<string>)
    | Fail(r: RequestId, unauthorized: bool)

  /** `content` is `None` when the response does not normalise to a sync envelope. */
  predicate Possible(s: State, e: Step) {
    match e
    case StartSync(r, _, _, _) => r !in s.flights
    case Respond(r, _) => r in s.flights
    case Fail(r, _) => r in s.flights
    case _ => true
  }

  /** The request passes every check before its await. */
  predicate MayStart(s: State, account: string, now: int, skew: int) {
    s.vault.accountId == Some(account) && account != "" && T.Usable(s.tokens, account, now, skew)
  }

  function Apply(s: State, e: Step): State
    requires Possible(s, e)
  {
    match e
    case BeginScope(account) => s.(vault := Scoped(s.vault, account))
    case ClearVault => s.(vault := Cleared(s.vault))
    case SwitchAccount(account) => s.(vault := Scoped(Cleared(s.vault), account))
    case AcceptTokens(account, set_, at) =>
      (match T.Initial(s.tokens, account, set_, at)
       case Ok(t) => s.(tokens := t, held := s.held + {(account, set_.accessToken)})
       case Err(_) => s)
    case ClearTokens => s.(tokens := T.Cleared(s.tokens))
    case StartSync(r, account, now, skew) =>
      if MayStart(s, account, now, skew) then
        s.(flights := s.flights[r := Flight(account, s.vault.epoch, s.tokens.accessToken.value, s.tokens.generation)])
      else s
    case Respond(r, content) =>
      var f := s.flights[r];
      var envelope := if content.Some? then Some(Envelope(content.value, f)) else None;
      var s' := s.(flights := s.flights - {r});
      (match Accepted(s.vault, f.account, envelope, f.expectedEpoch)
       case Ok(v) => s'.(vault := v)
       case Err(_) => s')
    case Fail(r, unauthorized) =>
      s.(flights := s.flights - {r}, tokens := if unauthorized then T.Cleared(s.tokens) else s.tokens)
  }

  predicate Run(s: State, es: seq<Step>)
    decreases |es|
  {
    es == [] || (Possible(s, es[0]) && Run(Apply(s, es[0]), es[1..]))
  }

  function After(s: State, es: seq<Step>): State
    requires Run(s, es)
    decreases |es|
  {
    if es == [] then s else After(Apply(s, es[0]), es[1..])
  }

  /** A request in flight was begun by the account of its scope, with a token of that account. */
  predicate FlightSound(s: State, f: Flight) {
    && f.account != "" && (f.account, f.accessToken) in s.held
    && f.expectedEpoch <= s.vault.epoch && f.generation <= s.tokens.generation
    && (f.expectedEpoch == s.vault.epoch ==> s.vault.accountId == Some(f.account))
    && (f.generation == s.tokens.generation ==>
          s.tokens.accountId == Some(f.account) && s.tokens.accessToken == Some(f.accessToken))
  }

  predicate Inv(s: State) {
    && (forall r | r in s.flights :: FlightSound(s, s.flights[r]))
    && (s.vault.phase == OpaqueSyncReady <==> s.vault.sync.Some?)
    && (s.vault.sync.Some? ==>
          var f := s.vault.sync.value.fetchedBy;
          && f.expectedEpoch == s.vault.epoch && s.vault.accountId == Some(f.account)
          && (f.account, f.accessToken) in s.held)
    && (s.tokens.accessToken.Some? ==>
          s.tokens.accountId.Some? && (s.tokens.accountId.value, s.tokens.accessToken.value) in s.held)
  }

  lemma StepKeepsInv(s: State, e: Step)
    requires Inv(s) && Possible(s, e)
    ensures Inv(Apply(s, e))
    ensures s.vault.epoch <= Apply(s, e).vault.epoch
  {
    forall r | r in s.flights ensures FlightSound(s, s.flights[r]) {}
  }

  lemma {:induction false} RunKeepsInv(s: State, es: seq<Step>)
    requires Inv(s) && Run(s, es)
    ensures Inv(After(s, es))
    decreases |es|
  {
    if es != [] {
      StepKeepsInv(s, es[0]);
      RunKeepsInv(Apply(s, es[0]), es[1..]);
    }
  }

  /** In every interleaving a stored envelope was fetched with an access token of the account
      that owns the scope, by a request begun in this very scope. */
  lemma StoredSyncIsOwn(es: seq<Step>)
    requires Run(START, es) && After(START, es).vault.sync.Some?
    ensures var s := After(START, es);
            var f := s.vault.sync.value.fetchedBy;
            && s.vault.accountId == Some(f.account)
            && f.expectedEpoch == s.vault.epoch
            && (f.account, f.accessToken) in s.held
            && s.vault.phase == OpaqueSyncReady
  {
    RunKeepsInv(START, es);
  }

  predicate ChangesScope(e: Step) {
    e.ClearVault? || e.SwitchAccount? || (e.BeginScope? && e.account != "")
  }

  lemma {:induction false} EpochCountsScopes(s: State, es: seq<Step>, r: RequestId)
    requires Inv(s) && Run(s, es) && r in s.flights && r in After(s, es).flights
    requires forall e | e in es :: (e.Respond? || e.Fail?) ==> e.r != r
    ensures After(s, es).flights[r] == s.flights[r] && s.vault.epoch <= After(s, es).vault.epoch
    ensures After(s, es).vault.epoch == s.vault.epoch <==> forall e | e in es :: !ChangesScope(e)
    decreases |es|
  {
    if es != [] {
      StepKeepsInv(s, es[0]);
      var s' := Apply(s, es[0]);
      assert r in s'.flights && s'.flights[r] == s.flights[r];
      EpochCountsScopes(s', es[1..], r);
      assert s'.vault.epoch == s.vault.epoch <==> !ChangesScope(es[0]);
      assert forall e :: e in es <==> e == es[0] || e in es[1..];
    }
  }

  /** Whatever happens while a request of the current scope is in flight, its response is stored
      if and only if it is valid and the scope was never changed, not even back to the account. */
  lemma ResponseIsStoredExactly(s: State, es: seq<Step>, r: RequestId, content: Option<string>)
    requires Inv(s) && Run(s, es) && r in s.flights && s.flights[r].expectedEpoch == s.vault.epoch
    requires r in After(s, es).flights && forall e | e in es :: (e.Respond? || e.Fail?) ==> e.r != r
    ensures var t := After(s, es);
            var v := Apply(t, Respond(r, content)).vault;
            if content.Some? && (forall e | e in es :: !ChangesScope(e))
            then v.sync == Some(Envelope(content.value, s.flights[r])) && v.accountId == Some(s.flights[r].account)
            else v == t.vault
  {
    RunKeepsInv(s, es);
    EpochCountsScopes(s, es, r);
    assert FlightSound(After(s, es), s.flights[r]);
  }

  /** The step discards the token set or installs another. */
  predicate ChangesTokens(e: Step) {
    || e.ClearTokens? || (e.Fail? && e.unauthorized)
    || (e.AcceptTokens? && T.Initial(T.INITIAL, e.account, e.set_, e.at).Ok?)
  }

  lemma {:induction false} GenerationCountsTokenSets(s: State, es: seq<Step>)
    requires Run(s, es)
    ensures s.tokens.generation <= After(s, es).tokens.generation
    ensures After(s, es).tokens == s.tokens <==> forall e | e in es :: !ChangesTokens(e)
    ensures s.tokens.generation == After(s, es).tokens.generation ==> After(s, es).tokens == s.tokens
    decreases |es|
  {
    if es != [] {
      var s' := Apply(s, es[0]);
      GenerationCountsTokenSets(s', es[1..]);
      assert if ChangesTokens(es[0]) then s'.tokens.generation > s.tokens.generation else s'.tokens == s.tokens;
      assert forall e :: e in es <==> e == es[0] || e in es[1..];
    }
  }

  /** A 401 signs the browser out, whoever is signed in by then. It discards the token set the
      request was sent with exactly when no step since then discarded it or installed another. */
  lemma UnauthorizedHitsOwnTokensExactly(s: State, es: seq<Step>, r: RequestId)
    requires Inv(s) && Run(s, es) && r in s.flights && s.flights[r].generation == s.tokens.generation
    requires r in After(s, es).flights
    ensures var t := After(s, es);
            && Apply(t, Fail(r, true)).tokens == T.Cleared(t.tokens)
            && Apply(t, Fail(r, true)).vault == t.vault
            && s.tokens.accountId == Some(s.flights[r].account)
            && s.tokens.accessToken == Some(s.flights[r].accessToken)
            && (t.tokens == s.tokens <==> forall e | e in es :: !ChangesTokens(e))
  {
    GenerationCountsTokenSets(s, es);
    assert FlightSound(s, s.flights[r]);
  }

  // ---------------------------------------------------------------- what the scope is, and a whole sync

  /** The account of the latest scope change, and how often the scope changed. */
  function ScopeAfter(account: Option<string>, changes: nat, es: seq<Step>): (Option<string>, nat)
    decreases |es|
  {
    if es == [] then (account, changes)
    else
      match es[0]
      case BeginScope(a) =>
        if a == "" then ScopeAfter(account, changes, es[1..]) else ScopeAfter(Some(a), changes + 1, es[1..])
      case ClearVault => ScopeAfter(None, changes + 1, es[1..])
      case SwitchAccount(a) =>
        if a == "" then ScopeAfter(None, changes + 1, es[1..]) else ScopeAfter(Some(a), changes + 2, es[1..])
      case _ => ScopeAfter(account, changes, es[1..])
  }

  /** Whatever syncs and tokens do, the scope is the account of the latest scope change, and the
      epoch counts the changes; a switch is a clear and a new scope. */
  lemma {:induction false} ScopeIsLatest(s: State, es: seq<Step>)
    requires Run(s, es)
    ensures (After(s, es).vault.accountId, After(s, es).vault.epoch)
            == ScopeAfter(s.vault.accountId, s.vault.epoch, es)
    decreases |es|
  {
    if es != [] { ScopeIsLatest(Apply(s, es[0]), es[1..]); }
  }

  /** In every run, a sync goes out exactly for the account that has both the scope and an access
      token that lasts beyond the skew, and captures the epoch and that token. */
  lemma StartOutcome(es: seq<Step>, r: RequestId, account: string, now: int, skew: int)
    requires Run(START, es) && r !in After(START, es).flights
    ensures var s := After(START, es);
            var s' := Apply(s, StartSync(r, account, now, skew));
            if s.vault.accountId == Some(account) && s.tokens.accountId == Some(account) && account != ""
               && s.tokens.accessToken.Some? && s.tokens.accessExpiresAt.Some?
               && 0 <= skew && now + skew < s.tokens.accessExpiresAt.value
            then s' == s.(flights := s.flights[r := Flight(account, s.vault.epoch, s.tokens.accessToken.value,
                                                           s.tokens.generation)])
            else s' == s
  {
  }

  lemma RunCons(s: State, e: Step, es: seq<Step>)
    requires Possible(s, e) && Run(Apply(s, e), es)
    ensures Run(s, [e] + es) && After(s, [e] + es) == After(Apply(s, e), es)
  {
    assert ([e] + es)[1..] == es;
  }

  /** Signing in, opening the scope, asking and being answered, whatever happened before: the
      account's own envelope is stored, fetched with its own token, and nothing stays in flight. */
  lemma SyncCompletes(s: State, r: RequestId, account: string, set_: T.TokenSet, t: int, now: int, skew: int,
                      content: string)
    requires r !in s.flights && account != "" && set_.authenticated
    requires 1 <= |set_.accessToken| <= 16384 && 1 <= |set_.refreshToken| <= 16384
    requires 0 <= skew && now + skew < t + 1000 * set_.expiresIn
    ensures var es := [AcceptTokens(account, set_, Some(t)), BeginScope(account), StartSync(r, account, now, skew),
                       Respond(r, Some(content))];
            && Run(s, es) && After(s, es).flights == s.flights
            && After(s, es).vault.accountId == Some(account) && After(s, es).vault.phase == OpaqueSyncReady
            && After(s, es).vault.sync.Some? && After(s, es).vault.sync.value.content == content
            && After(s, es).vault.sync.value.fetchedBy.accessToken == set_.accessToken
  {
    var e1, e2 := AcceptTokens(account, set_, Some(t)), BeginScope(account);
    var e3, e4 := StartSync(r, account, now, skew), Respond(r, Some(content));
    var s1 := Apply(s, e1);
    var s2 := Apply(s1, e2);
    var s3 := Apply(s2, e3);
    RunCons(s3, e4, []);
    RunCons(s2, e3, [e4]);
    RunCons(s1, e2, [e3] + [e4]);
    RunCons(s, e1, [e2] + ([e3] + [e4]));
    assert [e1] + ([e2] + ([e3] + [e4])) == [e1, e2, e3, e4];
    assert Apply(s3, e4).flights == s.flights;
  }

  /** A failed request leaves the flights but changes no vault, and tokens only if unauthorised. */
  lemma FailureOutcome(s: State, r: RequestId, unauthorized: bool)
    requires r in s.flights
    ensures var s' := Apply(s, Fail(r, unauthorized));
            && s'.flights == s.flights - {r} && s'.vault == s.vault
            && (s'.tokens == s.tokens <==> !unauthorized)
            && (unauthorized ==>
                  s'.tokens.accountId.None? && s'.tokens.accessToken.None? && s'.tokens.refreshToken.None?)
  {
  }

  // ---------------------------------------------------------------- the request, split at its await

  /** `requestAccountSync` over `requestAuthenticatedApi`, on the two module variables. */
  class SyncClient {
    const vault: VaultStore
    const tokens: T.TokenStore

    constructor (vault: VaultStore, tokens: T.TokenStore)
      ensures this.vault == vault && this.tokens == tokens
    {
      this.vault, this.tokens := vault, tokens;
    }

    ghost function View(flights: map<RequestId, Flight>, held: set<(string, T.Token)>): State
      reads vault, tokens
    {
      State(vault.View(), tokens.View(), flights, held)
    }

    /** Up to the await: what was captured, or nothing when a check throws. */
    method Begin(account: string, now: int, skew: int) returns (flight: Option<Flight>)
      ensures flight.Some? <==> MayStart(View(map[], {}), account, now, skew)
      ensures flight.Some? ==>
                Apply(View(map[], {}), StartSync(0, account, now, skew)).flights == map[0 := flight.value]
    {
      if vault.accountId != Some(account) { return None; }
      var expectedEpoch := vault.epoch;
      if account == "" { return None; }
      if tokens.accountId != Some(account) || tokens.accessToken.None? || tokens.accessExpiresAt.None? { return None; }
      if skew < 0 || tokens.accessExpiresAt.value <= now + skew { return None; }
      flight := Some(Flight(account, expectedEpoch, tokens.accessToken.value, tokens.generation));
    }

    /** After the await, when the server answered. */
    method Finish(flight: Flight, content: Option<string>) returns (stored: bool)
      modifies vault
      ensures View(map[], {}) == Apply(old(View(map[0 := flight], {})), Respond(0, content))
      ensures stored ==> content.Some? && vault.sync == Some(Envelope(content.value, flight))
    {
      if content.None? { return false; }
      var envelope := Envelope(content.value, flight);
      var failure := vault.AcceptOpaqueSync(flight.account, Some(envelope), flight.expectedEpoch);
      stored := failure.None?;
    }

    /** After the await, when the request failed. */
    method Failed(flight: Flight, unauthorized: bool)
      modifies tokens
      ensures View(map[], {}) == Apply(old(View(map[0 := flight], {})), Fail(0, unauthorized))
    {
      if unauthorized {
        tokens.Clear();
      }
    }
  }
}
