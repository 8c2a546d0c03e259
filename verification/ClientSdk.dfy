/**
 Account preparation in the browser client (web-client/assets/client-sdk.js over auth-state.js):
 `prepareAccount` awaits the server configuration, then the prelogin metadata, while other calls
 of `prepareAccount` and `reset` run in between.
 */
module ClientSdk {
  import opened Common
  import T = TokenState
  import V = VaultSync

  type CallId = nat
  type Metadata = string
  type Server = string

  datatype Phase = SignedOut | PreloginPending | PreloginReady | AuthenticationError

  /** The email hint always repeats the account here and is left out. */
  datatype Auth = Auth(
    accountId: Option<string>,
    phase: Phase,
    prelogin: Option<Metadata>,
    epoch: nat,
    lastError: Option<string>)

  const SIGNED_OUT := Auth(None, SignedOut, None, 0, None)

  // ---------------------------------------------------------------- auth-state.js

  function Begun(a: Auth, account: string): Auth {
    Auth(Some(account), PreloginPending, None, a.epoch + 1, None)
  }

  /** `None` stands for a thrown error; `metadata` is `None` when it is not an object. */
  function Accepted(a: Auth, metadata: Option<Metadata>, expectedEpoch: nat): Option<Auth> {
    if a.accountId.None? || a.phase != PreloginPending || expectedEpoch != a.epoch || metadata.None? then None
    else Some(a.(phase := PreloginReady, prelogin := metadata, lastError := None))
  }

  function Rejected(a: Auth, code: string, expectedEpoch: nat): Auth {
    if expectedEpoch != a.epoch then a
    else
      var phase := if a.accountId.Some? then AuthenticationError else SignedOut;
      a.(phase := phase, prelogin := None, lastError := Some(code))
  }

  function Cleared(a: Auth): Auth {
    SIGNED_OUT.(epoch := a.epoch + 1)
  }

  /** A prelogin request is answered once: only a request that is pending is accepted, and neither
      after an acceptance, nor after a rejection, nor after a clear is it accepted again. */
  lemma PreloginIsAnsweredOnce(a: Auth, account: string, first: Option<Metadata>, again: Option<Metadata>, code: string)
    ensures var begun := Begun(a, account);
            var epoch := begun.epoch;
            && epoch == a.epoch + 1
            && Accepted(begun, first, epoch) ==
               (if first.Some? then Some(Auth(Some(account), PreloginReady, first, epoch, None)) else None)
            && Rejected(begun, code, epoch) == Auth(Some(account), AuthenticationError, None, epoch, Some(code))
            && (first.Some? ==>
                  && Accepted(Accepted(begun, first, epoch).value, again, epoch).None?
                  && Rejected(Accepted(begun, first, epoch).value, code, epoch) == Rejected(begun, code, epoch))
            && Accepted(Rejected(begun, code, epoch), again, epoch).None?
            && Accepted(Cleared(begun), again, epoch + 1).None?
            && Rejected(Cleared(begun), code, epoch + 1) == Auth(None, SignedOut, None, epoch + 1, Some(code))
  {
  }

  // ---------------------------------------------------------------- overlapping calls

  /** What a call of `prepareAccount` knows at its awaits. */
  datatype Call =
    | AwaitingConfig(account: string, epoch: nat)
    | AwaitingPrelogin(account: string, epoch: nat, server: Option<Server>)
    | Returned(account: string, epoch: nat, server: Option<Server>, metadata: Metadata)
    | Threw(account: string, epoch: nat, code: string)

  /** `server` is the closure variable `verifiedServer`; `sync` the vault and token state. */
  datatype Client = Client(auth: Auth, server: Option<Server>, calls: map<CallId, Call>, sync: V.State)

  const START := Client(SIGNED_OUT, None, map[], V.START)

  datatype Step =
    | Prepare(c: CallId, account: string)
    | ConfigArrives(c: CallId, server: Option<Server>)
    | PreloginArrives(c: CallId, metadata: Option<Metadata>, code: string)
    | RequestFails(c: CallId, code: string)
    | Reset
    | Sync(step: V.Step)

  predicate Waiting(s: Client, c: CallId) {
    c in s.calls && (s.calls[c].AwaitingConfig? || s.calls[c].AwaitingPrelogin?)
  }

  /** The identifier passed normalisation, so it is not empty. `server` is `None` when the
      configuration response is not an object. */
  predicate Possible(s: Client, e: Step) {
    match e
    case Prepare(c, account) => c !in s.calls && account != ""
    case ConfigArrives(c, _) => c in s.calls && s.calls[c].AwaitingConfig?
    case PreloginArrives(c, _, _) => c in s.calls && s.calls[c].AwaitingPrelogin?
    case RequestFails(c, _) => Waiting(s, c)
    case Reset => true
    case Sync(step) => V.Possible(s.sync, step)
  }

  /** The `catch` of `prepareAccount`. */
  function Catch(s: Client, c: CallId, code: string): Client
    requires c in s.calls
  {
    s.(auth := Rejected(s.auth, code, s.calls[c].epoch),
       calls := s.calls[c := Threw(s.calls[c].account, s.calls[c].epoch, code)])
  }

  function Apply(s: Client, e: Step): Client
    requires Possible(s, e)
  {
    match e
    case Prepare(c, account) =>
      var a := Begun(s.auth, account);
      s.(auth := a, server := None, calls := s.calls[c := AwaitingConfig(account, a.epoch)])
    case ConfigArrives(c, server) =>
      s.(calls := s.calls[c := AwaitingPrelogin(s.calls[c].account, s.calls[c].epoch, server)])
    case PreloginArrives(c, metadata, code) =>
      var q := s.calls[c];
      (match Accepted(s.auth, metadata, q.epoch)
       case Some(a) => s.(auth := a, server := q.server,
                          calls := s.calls[c := Returned(q.account, q.epoch, q.server, metadata.value)])
       case None => Catch(s, c, code))
    case RequestFails(c, code) => Catch(s, c, code)
    case Reset =>
      var tokens := T.Cleared(s.sync.tokens);
      var vault := V.Cleared(s.sync.vault);
      s.(auth := Cleared(s.auth), server := None, sync := s.sync.(tokens := tokens, vault := vault))
    case Sync(step) => s.(sync := V.Apply(s.sync, step))
  }

  predicate Run(s: Client, es: seq<Step>)
    decreases |es|
  {
    es == [] || (Possible(s, es[0]) && Run(Apply(s, es[0]), es[1..]))
  }

  function After(s: Client, es: seq<Step>): Client
    requires Run(s, es)
    decreases |es|
  {
    if es == [] then s else After(Apply(s, es[0]), es[1..])
  }

  lemma {:induction false} RunSplit(s: Client, es: seq<Step>, es': seq<Step>)
    requires Run(s, es + es')
    ensures Run(s, es) && Run(After(s, es), es') && After(s, es + es') == After(After(s, es), es')
    decreases |es|
  {
    if es == [] {
      assert es + es' == es';
    } else {
      assert (es + es')[1..] == es[1..] + es';
      RunSplit(Apply(s, es[0]), es[1..], es');
    }
  }

  // ---------------------------------------------------------------- what every state keeps

  predicate CallsSound(s: Client) {
    && (forall c | c in s.calls :: 1 <= s.calls[c].epoch <= s.auth.epoch)
    && (forall c, c' | c in s.calls && c' in s.calls && c != c' :: s.calls[c].epoch != s.calls[c'].epoch)
  }

  /** The call that owns the current epoch has left exactly the state there is. */
  predicate OwnerSound(s: Client, c: CallId)
    requires c in s.calls
  {
    var q, epoch := s.calls[c], s.auth.epoch;
    q.epoch == epoch ==>
      (match q
       case AwaitingConfig(account, _) =>
         s.auth == Auth(Some(account), PreloginPending, None, epoch, None) && s.server == None
       case AwaitingPrelogin(account, _, _) =>
         s.auth == Auth(Some(account), PreloginPending, None, epoch, None) && s.server == None
       case Returned(account, _, server, metadata) =>
         s.auth == Auth(Some(account), PreloginReady, Some(metadata), epoch, None) && s.server == server
       case Threw(account, _, code) =>
         s.auth == Auth(Some(account), AuthenticationError, None, epoch, Some(code)) && s.server == None)
  }

  predicate Owned(s: Client) {
    exists c | c in s.calls :: s.calls[c].epoch == s.auth.epoch
  }

  predicate Inv(s: Client) {
    && CallsSound(s)
    && (forall c | c in s.calls :: OwnerSound(s, c))
    && (!Owned(s) ==> s.auth == SIGNED_OUT.(epoch := s.auth.epoch) && s.server == None)
  }

  /** Calls keep their epochs, and only a new call takes the epoch that is then current. */
  lemma EpochFrame(s: Client, e: Step)
    requires Possible(s, e)
    ensures Apply(s, e).auth.epoch == s.auth.epoch + if e.Prepare? || e.Reset? then 1 else 0
    ensures Apply(s, e).calls.Keys == s.calls.Keys + if e.Prepare? then {e.c} else {}
    ensures e.Prepare? ==> Apply(s, e).calls[e.c].epoch == Apply(s, e).auth.epoch
    ensures forall c | c in s.calls :: c in Apply(s, e).calls && Apply(s, e).calls[c].epoch == s.calls[c].epoch
  {
  }

  lemma StepKeepsCalls(s: Client, e: Step)
    requires CallsSound(s) && Possible(s, e)
    ensures CallsSound(Apply(s, e))
  {
    EpochFrame(s, e);
  }

  lemma StepKeepsOwned(s: Client, e: Step)
    requires Inv(s) && Possible(s, e)
    ensures var s' := Apply(s, e);
            !Owned(s') ==> s'.auth == SIGNED_OUT.(epoch := s'.auth.epoch) && s'.server == None
  {
    EpochFrame(s, e);
    if !e.Prepare? && !e.Reset? {
      if Owned(s) {
        var c :| c in s.calls && s.calls[c].epoch == s.auth.epoch;
        assert Apply(s, e).calls[c].epoch == Apply(s, e).auth.epoch;
      } else if !e.Sync? {
        assert s.calls[e.c].epoch != s.auth.epoch;
      }
    }
  }

  lemma StepKeepsInv(s: Client, e: Step)
    requires Inv(s) && Possible(s, e)
    ensures Inv(Apply(s, e))
  {
    var s' := Apply(s, e);
    StepKeepsCalls(s, e);
    StepKeepsOwned(s, e);
    forall c | c in s'.calls ensures OwnerSound(s', c) {
      if c in s.calls { assert OwnerSound(s, c); }
    }
  }

  lemma {:induction false} RunKeepsInv(s: Client, es: seq<Step>)
    requires Inv(s) && Run(s, es)
    ensures Inv(After(s, es))
    decreases |es|
  {
    if es != [] {
      StepKeepsInv(s, es[0]);
      RunKeepsInv(Apply(s, es[0]), es[1..]);
    }
  }

  // ---------------------------------------------------------------- the latest call decides

  predicate Begins(e: Step) {
    e.Prepare? || e.Reset?
  }

  /** Neither a call nor a reset. */
  predicate NoneLater(es: seq<Step>) {
    forall e | e in es :: !Begins(e)
  }

  lemma NoneLaterCons(e: Step, es: seq<Step>)
    ensures NoneLater([e] + es) <==> !Begins(e) && NoneLater(es)
  {
    var all := [e] + es;
    assert all[0] == e && all[1..] == es;
    assert forall x :: x in all <==> x == e || x in es;
    if NoneLater(all) {
      forall x | x in es ensures !Begins(x) { assert x in all; }
    }
  }

  /** The epoch is what it was if and only if no call and no reset came in between. */
  lemma {:induction false} EpochStandsExactly(s: Client, es: seq<Step>)
    requires Run(s, es)
    ensures s.auth.epoch <= After(s, es).auth.epoch
    ensures After(s, es).auth.epoch == s.auth.epoch <==> NoneLater(es)
    decreases |es|
  {
    if es != [] {
      EpochFrame(s, es[0]);
      EpochStandsExactly(Apply(s, es[0]), es[1..]);
      NoneLaterCons(es[0], es[1..]);
      assert [es[0]] + es[1..] == es;
    }
  }

  /** The step ends the call. */
  predicate Finishes(e: Step, c: CallId) {
    (e.PreloginArrives? || e.RequestFails?) && e.c == c
  }

  ghost predicate Fetched(es: seq<Step>, c: CallId, metadata: Metadata) {
    exists code :: PreloginArrives(c, Some(metadata), code) in es
  }

  predicate Failed(es: seq<Step>, c: CallId, code: string) {
    RequestFails(c, code) in es || PreloginArrives(c, None, code) in es
  }

  /** What came back, in `es`, to a call that was at `q`. */
  ghost predicate Follows(q: Call, q': Call, es: seq<Step>, c: CallId) {
    && q'.account == q.account && q'.epoch == q.epoch
    && (match q
        case AwaitingConfig(_, _) =>
          q'.AwaitingPrelogin? || q'.Returned? ==> ConfigArrives(c, q'.server) in es
        case AwaitingPrelogin(_, _, server) =>
          !q'.AwaitingConfig? && (q'.AwaitingPrelogin? || q'.Returned? ==> q'.server == server)
        case _ => q' == q)
    && (q.AwaitingConfig? || q.AwaitingPrelogin? ==>
          && (q'.Returned? ==> Fetched(es, c, q'.metadata))
          && (q'.Threw? ==> Failed(es, c, q'.code))
          && (q'.AwaitingConfig? || q'.AwaitingPrelogin? ==> forall e | e in es :: !Finishes(e, c)))
  }

  lemma StepFollows(s: Client, e: Step, c: CallId)
    requires Inv(s) && Possible(s, e) && c in s.calls && s.calls[c].epoch == s.auth.epoch && !Begins(e)
    ensures Follows(s.calls[c], Apply(s, e).calls[c], [e], c)
  {
    assert OwnerSound(s, c);
    assert e in [e];
  }

  lemma FollowsCompose(q: Call, q': Call, q'': Call, e: Step, es: seq<Step>, c: CallId)
    requires Follows(q, q', [e], c) && Follows(q', q'', es, c)
    ensures Follows(q, q'', [e] + es, c)
  {
    var all := [e] + es;
    assert forall x :: x in all <==> x == e || x in es;
    if q''.Returned? {
      if Fetched([e], c, q''.metadata) {
        var code :| PreloginArrives(c, Some(q''.metadata), code) in [e];
        assert PreloginArrives(c, Some(q''.metadata), code) in all;
      }
      if Fetched(es, c, q''.metadata) {
        var code :| PreloginArrives(c, Some(q''.metadata), code) in es;
        assert PreloginArrives(c, Some(q''.metadata), code) in all;
      }
    }
  }

  lemma {:induction false} LatestCallFollows(s: Client, es: seq<Step>, c: CallId)
    requires Inv(s) && Run(s, es) && NoneLater(es) && c in s.calls && s.calls[c].epoch == s.auth.epoch
    ensures c in After(s, es).calls && After(s, es).calls[c].epoch == After(s, es).auth.epoch
    ensures Follows(s.calls[c], After(s, es).calls[c], es, c)
    decreases |es|
  {
    if es != [] {
      var s' := Apply(s, es[0]);
      StepKeepsInv(s, es[0]);
      EpochFrame(s, es[0]);
      StepFollows(s, es[0], c);
      LatestCallFollows(s', es[1..], c);
      FollowsCompose(s.calls[c], s'.calls[c], After(s', es[1..]).calls[c], es[0], es[1..], c);
      assert [es[0]] + es[1..] == es;
    }
  }

  /** What a run leaves is decided by what came back to the latest call, if no reset followed it:
      its account; its metadata and the server from its own configuration response; its error;
      or nothing yet. */
  ghost predicate LeftBy(s: Client, c: CallId, account: string, after: seq<Step>) {
    s.auth.accountId == Some(account)
    && match s.auth.phase
       case PreloginReady =>
         && s.auth.prelogin.Some? && Fetched(after, c, s.auth.prelogin.value)
         && ConfigArrives(c, s.server) in after && s.auth.lastError == None
       case AuthenticationError =>
         && s.auth.lastError.Some? && Failed(after, c, s.auth.lastError.value)
         && s.auth.prelogin == None && s.server == None
       case PreloginPending =>
         && (forall e | e in after :: !Finishes(e, c))
         && s.auth.prelogin == None && s.server == None && s.auth.lastError == None
       case SignedOut => false
  }

  lemma {:induction false} NobodyOwns(s: Client, es: seq<Step>)
    requires Inv(s) && !Owned(s) && Run(s, es) && NoneLater(es)
    ensures Inv(After(s, es)) && !Owned(After(s, es))
    decreases |es|
  {
    if es != [] {
      assert !Begins(es[0]);
      EpochFrame(s, es[0]);
      StepKeepsInv(s, es[0]);
      NobodyOwns(Apply(s, es[0]), es[1..]);
    }
  }

  /** A call starts as the owner of the epoch; a reset leaves the epoch without one. */
  lemma BeginsAlone(before: seq<Step>, e: Step)
    requires Run(START, before + [e]) && Begins(e)
    ensures var s := After(START, before + [e]);
            && Inv(s)
            && (e.Prepare? ==> e.c in s.calls && s.calls[e.c] == AwaitingConfig(e.account, s.auth.epoch))
            && (e.Reset? ==> !Owned(s))
  {
    RunSplit(START, before, [e]);
    RunKeepsInv(START, before);
    RunKeepsInv(START, before + [e]);
    EpochFrame(After(START, before), e);
  }

  lemma CallDecides(s: Client, c: CallId, after: seq<Step>)
    requires Inv(s) && c in s.calls && s.calls[c].AwaitingConfig? && s.calls[c].epoch == s.auth.epoch
    requires Run(s, after) && NoneLater(after)
    ensures LeftBy(After(s, after), c, s.calls[c].account, after)
  {
    LatestCallFollows(s, after, c);
    RunKeepsInv(s, after);
    assert OwnerSound(After(s, after), c);
  }

  /** In every run, whatever calls overlap, with `e` the latest call or reset. */
  lemma LatestCallDecides(before: seq<Step>, e: Step, after: seq<Step>)
    requires Run(START, before + [e] + after) && Begins(e) && NoneLater(after)
    ensures var s := After(START, before + [e] + after);
            if e.Prepare? then LeftBy(s, e.c, e.account, after)
            else s.auth == SIGNED_OUT.(epoch := s.auth.epoch) && s.server == None
  {
    RunSplit(START, before + [e], after);
    BeginsAlone(before, e);
    if e.Prepare? {
      CallDecides(After(START, before + [e]), e.c, after);
    } else {
      NobodyOwns(After(START, before + [e]), after);
    }
  }

  /** And a run without call or reset leaves the client signed out. */
  lemma NoCallNoAccount(es: seq<Step>)
    requires Run(START, es) && NoneLater(es)
    ensures After(START, es).auth == SIGNED_OUT && After(START, es).server == None
  {
    NobodyOwns(START, es);
    EpochStandsExactly(START, es);
  }

  /** What comes back to a call is installed if and only if no call and no reset came after it:
      metadata with the call's own server and account, or its error; a configuration response
      installs nothing by itself. */
  lemma OnlyLatestInstalls(before: seq<Step>, c: CallId, account: string, after: seq<Step>, e: Step)
    requires Run(START, before + [Prepare(c, account)] + after)
    requires Finishes(e, c) || (e.ConfigArrives? && e.c == c)
    requires Possible(After(START, before + [Prepare(c, account)] + after), e)
    ensures var s := After(START, before + [Prepare(c, account)] + after);
            var s' := Apply(s, e);
            if e.ConfigArrives? || !NoneLater(after) then s'.auth == s.auth && s'.server == s.server
            else if e.PreloginArrives? && e.metadata.Some? then
              && s'.auth == Auth(Some(account), PreloginReady, e.metadata, s.auth.epoch, None)
              && ConfigArrives(c, s'.server) in after
            else
              && s'.auth == Auth(Some(account), AuthenticationError, None, s.auth.epoch, Some(e.code))
              && s'.server == None
  {
    var first := before + [Prepare(c, account)];
    RunSplit(START, first, after);
    BeginsAlone(before, Prepare(c, account));
    var s1, s := After(START, first), After(START, first + after);
    RunKeepsInv(s1, after);
    EpochStandsExactly(s1, after);
    CallKeepsEpoch(s1, after, c);
    assert OwnerSound(s, c);
    if NoneLater(after) { LatestCallFollows(s1, after, c); }
  }

  lemma {:induction false} CallKeepsEpoch(s: Client, es: seq<Step>, c: CallId)
    requires Run(s, es) && c in s.calls
    ensures c in After(s, es).calls && After(s, es).calls[c].epoch == s.calls[c].epoch
    decreases |es|
  {
    if es != [] {
      EpochFrame(s, es[0]);
      CallKeepsEpoch(Apply(s, es[0]), es[1..], c);
    }
  }

  lemma RunCons(s: Client, e: Step, es: seq<Step>)
    requires Possible(s, e) && Run(Apply(s, e), es)
    ensures Run(s, [e] + es) && After(s, [e] + es) == After(Apply(s, e), es)
  {
    assert ([e] + es)[1..] == es;
  }

  /** A call that nothing disturbs installs what it fetched: its account, the metadata, and the
      server of its configuration response; or its error, if a request of it fails. */
  lemma PreparationCompletes(s: Client, c: CallId, account: string, server: Option<Server>, metadata: Metadata,
                             code: string)
    requires c !in s.calls && account != ""
    ensures var es := [Prepare(c, account), ConfigArrives(c, server), PreloginArrives(c, Some(metadata), code)];
            && Run(s, es)
            && After(s, es).auth == Auth(Some(account), PreloginReady, Some(metadata), s.auth.epoch + 1, None)
            && After(s, es).server == server && After(s, es).sync == s.sync
            && After(s, es).calls == s.calls[c := Returned(account, s.auth.epoch + 1, server, metadata)]
    ensures var es := [Prepare(c, account), RequestFails(c, code)];
            && Run(s, es)
            && After(s, es).auth == Auth(Some(account), AuthenticationError, None, s.auth.epoch + 1, Some(code))
            && After(s, es).server == None && After(s, es).sync == s.sync
  {
    var e1, e2, e3 := Prepare(c, account), ConfigArrives(c, server), PreloginArrives(c, Some(metadata), code);
    var s1 := Apply(s, e1);
    var s2 := Apply(s1, e2);
    RunCons(s2, e3, []);
    RunCons(s1, e2, [e3]);
    RunCons(s, e1, [e2] + [e3]);
    assert [e1] + ([e2] + [e3]) == [e1, e2, e3];
    assert Apply(s2, e3).calls == s.calls[c := Returned(account, s.auth.epoch + 1, server, metadata)];
    RunCons(s1, RequestFails(c, code), []);
    RunCons(s, e1, [RequestFails(c, code)]);
    assert [e1] + [RequestFails(c, code)] == [e1, RequestFails(c, code)];
  }

  // ---------------------------------------------------------------- the sync inside

  /** What a run is for the vault and the tokens: its own steps, and at a reset both are cleared. */
  function Syncs(es: seq<Step>): seq<V.Step> {
    if es == [] then []
    else
      match es[0]
      case Sync(step) => [step] + Syncs(es[1..])
      case Reset => [V.ClearTokens, V.ClearVault] + Syncs(es[1..])
      case _ => Syncs(es[1..])
  }

  /** So every run of the client holds a run of `VaultSync`, and what is proved of those runs holds
      in the client. */
  lemma {:induction false} ClientRunsSync(s: Client, es: seq<Step>)
    requires Run(s, es)
    ensures V.Run(s.sync, Syncs(es)) && V.After(s.sync, Syncs(es)) == After(s, es).sync
    decreases |es|
  {
    if es != [] {
      var s' := Apply(s, es[0]);
      ClientRunsSync(s', es[1..]);
      match es[0] {
      case Sync(step) => V.RunCons(s.sync, step, Syncs(es[1..]));
      case Reset =>
        V.RunCons(V.Apply(s.sync, V.ClearTokens), V.ClearVault, Syncs(es[1..]));
        V.RunCons(s.sync, V.ClearTokens, [V.ClearVault] + Syncs(es[1..]));
        assert [V.ClearTokens] + ([V.ClearVault] + Syncs(es[1..])) == [V.ClearTokens, V.ClearVault] + Syncs(es[1..]);
      case _ =>
      }
    }
  }

  // ---------------------------------------------------------------- reset

  /** Only what was begun before may still come back. */
  predicate Leftover(e: Step) {
    e.ConfigArrives? || e.PreloginArrives? || e.RequestFails? || (e.Sync? && (e.step.Respond? || e.step.Fail?))
  }

  /** Nothing in flight belongs to the current epochs. */
  predicate Settled(s: Client) {
    && s.auth == SIGNED_OUT.(epoch := s.auth.epoch) && s.server == None
    && s.sync.vault == V.INITIAL.(epoch := s.sync.vault.epoch)
    && s.sync.tokens == T.INITIAL.(generation := s.sync.tokens.generation)
    && (forall c | c in s.calls :: s.calls[c].epoch < s.auth.epoch)
    && (forall r | r in s.sync.flights :: s.sync.flights[r].expectedEpoch < s.sync.vault.epoch)
  }

  lemma {:induction false} LeftoversStaySettled(s: Client, es: seq<Step>)
    requires Settled(s) && Run(s, es) && forall e | e in es :: Leftover(e)
    ensures Settled(After(s, es))
    decreases |es|
  {
    if es != [] {
      assert Leftover(es[0]);
      assert Settled(Apply(s, es[0]));
      LeftoversStaySettled(Apply(s, es[0]), es[1..]);
    }
  }

  /** After a reset, whatever preparations and syncs were still in flight come to nothing: no
      account, no server, no vault scope, no envelope, no token comes back. */
  lemma ResetSilencesEverything(before: seq<Step>, leftovers: seq<Step>)
    requires Run(START, before) && Run(Apply(After(START, before), Reset), leftovers)
    requires forall e | e in leftovers :: Leftover(e)
    ensures var t := After(Apply(After(START, before), Reset), leftovers);
            && t.auth.accountId == None && t.auth.phase == SignedOut && t.auth.lastError == None && t.server == None
            && t.sync.vault.accountId == None && t.sync.vault.sync == None
            && t.sync.tokens.accessToken == None && t.sync.tokens.refreshToken == None
  {
    RunKeepsInv(START, before);
    RunKeepsFlights(START, before);
    LeftoversStaySettled(Apply(After(START, before), Reset), leftovers);
  }

  predicate FlightsBelow(s: Client) {
    forall r | r in s.sync.flights :: s.sync.flights[r].expectedEpoch <= s.sync.vault.epoch
  }

  lemma {:induction false} RunKeepsFlights(s: Client, es: seq<Step>)
    requires FlightsBelow(s) && Run(s, es)
    ensures FlightsBelow(After(s, es))
    decreases |es|
  {
    if es != [] {
      assert FlightsBelow(Apply(s, es[0]));
      RunKeepsFlights(Apply(s, es[0]), es[1..]);
    }
  }

  // ---------------------------------------------------------------- the client

  /** The module variable of auth-state.js and the closure variable of the client. */
  class GoreeVaultClient {
    var accountId: Option<string>
    var phase: Phase
    var prelogin: Option<Metadata>
    var epoch: nat
    var lastError: Option<string>
    var verifiedServer: Option<Server>
    const vault: V.VaultStore
    const tokens: T.TokenStore

    ghost function View(calls: map<CallId, Call>): Client
      reads this, vault, tokens
    {
      Client(Auth(accountId, phase, prelogin, epoch, lastError), verifiedServer, calls,
             V.State(vault.View(), tokens.View(), map[], {}))
    }

    constructor ()
      ensures View(map[]) == START && fresh(vault) && fresh(tokens)
    {
      accountId, phase, prelogin, epoch, lastError := None, SignedOut, None, 0, None;
      verifiedServer := None;
      vault := new V.VaultStore();
      tokens := new T.TokenStore();
    }

    /** `prepareAccount` up to its first await; the result is the epoch it keeps. */
    method BeginPrepare(account: string) returns (pending: nat)
      requires account != ""
      modifies this
      ensures View(map[0 := AwaitingConfig(account, pending)]) == Apply(old(View(map[])), Prepare(0, account))
    {
      accountId, phase, prelogin, lastError := Some(account), PreloginPending, None, None;
      epoch := epoch + 1;
      pending := epoch;
      verifiedServer := None;
    }

    /** `prepareAccount` after its second await, its `catch` included. */
    method FinishPrepare(account: string, pending: nat, server: Option<Server>, metadata: Option<Metadata>,
                         code: string)
      returns (ok: bool)
      modifies this
      ensures ok ==> metadata.Some?
      ensures var done := if ok then Returned(account, pending, server, metadata.value)
                          else Threw(account, pending, code);
              View(map[0 := done])
              == Apply(old(View(map[0 := AwaitingPrelogin(account, pending, server)])),
                       PreloginArrives(0, metadata, code))
    {
      if accountId.Some? && phase == PreloginPending && pending == epoch && metadata.Some? {
        phase, prelogin, lastError := PreloginReady, metadata, None;
        verifiedServer := server;
        return true;
      }
      if pending == epoch {
        phase := if accountId.Some? then AuthenticationError else SignedOut;
        prelogin := None;
        lastError := Some(code);
      }
      ok := false;
    }

    method DoReset()
      modifies this, vault, tokens
      ensures View(map[]) == Apply(old(View(map[])), Reset)
    {
      tokens.Clear();
      vault.Clear();
      accountId, phase, prelogin, lastError := None, SignedOut, None, None;
      epoch := epoch + 1;
      verifiedServer := None;
    }
  }
}
