/**
 Rotation of password refresh secrets, as a state machine over the database awaits of many
 concurrent requests (`refresh_tokens` in src/auth.rs, `refresh_login` in src/api/identity.rs,
 the device queries in src/db/models/device.rs).

 A refresh request finds a device row by its secret, consumes the secret with a conditional
 update, writes the whole row back, and answers. Two other kinds of writer share the rows:
 - a sign-in or an SSO refresh (`Carry`): it reads the row, writes the whole row back with the
   secret it read, once or twice, and answers that secret;
 - a revocation (`Device::rotate_refresh_tokens_by_user`): it installs a new secret.
 */
module RefreshRotation {
  import opened Common

  type DeviceId = nat
  type RequestId = nat
  type Secret = string

  /** The columns that matter here: the owning user, the secret, the usage time. */
  datatype Device = Device(user: nat, secret: Secret, updatedAt: int)

  /** Where a request stands between two awaits. `copy` is its in-memory device. */
  datatype Request =
    | Loaded(presented: Secret, id: DeviceId, copy: Device)
    | Rotated(presented: Secret, id: DeviceId, copy: Device)
    | Saved(presented: Secret, id: DeviceId, copy: Device)
    | Answered(presented: Secret, id: DeviceId, copy: Device)
    | LostAfterRotation(presented: Secret, id: DeviceId, copy: Device)
    | Carrying(id: DeviceId, copy: Device, writes: nat)
    | Carried(id: DeviceId, copy: Device)
    | CarryAnswered(id: DeviceId, copy: Device)
    | Refused

  /** `minted`, `revealed` and `spent` are history: every secret ever generated with the row it
      was generated for, every secret ever sent to a client, and every secret a rotation or a
      revocation has replaced. */
  datatype Server = Server(
    devices: map<DeviceId, Device>,
    requests: map<RequestId, Request>,
    minted: map<Secret, DeviceId>,
    revealed: set<Secret>,
    spent: set<Secret>)

  datatype Step =
    | Find(r: RequestId, presented: Secret, found: Option<DeviceId>)
    | Rotate(r: RequestId, next: Secret, now: int)
    | Save(r: RequestId, now: int)
    | Answer(r: RequestId)
    | Drop(r: RequestId)
    | Carry(r: RequestId, id: DeviceId, writes: nat)
    | Revoke(id: DeviceId, next: Secret)

  /** The request has consumed its secret. */
  predicate Hit(q: Request) {
    q.Rotated? || q.Saved? || q.Answered? || q.LostAfterRotation?
  }

  /** The request still has to write its whole in-memory row. */
  predicate Pending(q: Request) {
    q.Rotated? || q.Carrying?
  }

  predicate PendingOn(q: Request, id: DeviceId) {
    Pending(q) && q.id == id
  }

  predicate Finished(q: Request) {
    q.Answered? || q.LostAfterRotation? || q.CarryAnswered? || q.Refused?
  }

  /** The conditional update of the request would affect its row. */
  predicate WouldHit(s: Server, r: RequestId) {
    r in s.requests && s.requests[r].Loaded?
    && s.requests[r].id in s.devices
    && s.devices[s.requests[r].id].secret == s.requests[r].presented
  }

  /** What can happen next: requests advance in order, generated secrets are new, and a client
      that presents a generated secret was given it. */
  predicate Possible(s: Server, e: Step) {
    match e
    case Find(r, presented, found) =>
      r !in s.requests
      && (presented in s.minted ==> presented in s.revealed)
      && (match found
          case Some(d) => d in s.devices && s.devices[d].secret == presented
          case None => forall d | d in s.devices :: s.devices[d].secret != presented)
    case Rotate(r, next, _) => r in s.requests && s.requests[r].Loaded? && next !in s.minted
    case Save(r, _) => r in s.requests && Pending(s.requests[r])
    case Answer(r) => r in s.requests && (s.requests[r].Saved? || s.requests[r].Carried?)
    case Drop(r) => r in s.requests && !Finished(s.requests[r])
    case Carry(r, id, writes) => r !in s.requests && id in s.devices && 1 <= writes <= 2
    case Revoke(id, next) => id in s.devices && next !in s.minted
  }

  /** The request after one of its whole-row writes. */
  function Written(q: Request, row: Device): Request
    requires Pending(q)
  {
    if q.Rotated? then Saved(q.presented, q.id, row)
    else if q.writes > 1 then Carrying(q.id, row, q.writes - 1)
    else Carried(q.id, row)
  }

  function Apply(s: Server, e: Step): (s': Server)
    requires Possible(s, e)
  {
    match e
    case Find(r, presented, found) =>
      s.(requests := s.requests[r := match found
                                     case Some(d) => Loaded(presented, d, s.devices[d])
                                     case None => Refused])
    case Rotate(r, next, now) =>
      var q := s.requests[r];
      if WouldHit(s, r) then
        var row := s.devices[q.id].(secret := next, updatedAt := now);
        s.(devices := s.devices[q.id := row],
           requests := s.requests[r := Rotated(q.presented, q.id, q.copy.(secret := next, updatedAt := now))],
           minted := s.minted[next := q.id],
           spent := s.spent + {q.presented})
      else
        s.(requests := s.requests[r := Refused], minted := s.minted[next := q.id])
    case Save(r, now) =>
      var q := s.requests[r];
      var row := q.copy.(updatedAt := now);
      s.(devices := s.devices[q.id := row], requests := s.requests[r := Written(q, row)])
    case Answer(r) =>
      var q := s.requests[r];
      s.(requests := s.requests[r := if q.Saved? then Answered(q.presented, q.id, q.copy)
                                     else CarryAnswered(q.id, q.copy)],
         revealed := s.revealed + {q.copy.secret})
    case Drop(r) =>
      var q := s.requests[r];
      s.(requests := s.requests[r := if Hit(q) then LostAfterRotation(q.presented, q.id, q.copy) else Refused])
    case Carry(r, id, writes) =>
      s.(requests := s.requests[r := Carrying(id, s.devices[id], writes)])
    case Revoke(id, next) =>
      s.(devices := s.devices[id := s.devices[id].(secret := next)],
         minted := s.minted[next := id],
         spent := s.spent + {s.devices[id].secret})
  }

  /** The row whose secret the step replaces, if any. */
  function Replaced(s: Server, e: Step): Option<DeviceId> {
    match e
    case Rotate(r, _, _) => if WouldHit(s, r) then Some(s.requests[r].id) else None
    case Revoke(id, _) => Some(id)
    case _ => None
  }

  /** Some request owes row `id` a whole-row write. */
  predicate OwedWrite(s: Server, id: DeviceId) {
    exists r | r in s.requests :: PendingOn(s.requests[r], id)
  }

  /** The secret of row `id` is replaced only while no request owes that row a whole-row write. */
  predicate GuardAt(s: Server, e: Step, id: DeviceId) {
    Replaced(s, e) == Some(id) ==> !OwedWrite(s, id)
  }

  /** Row `id` is left to the refresh requests; other rows see anything. */
  predicate RefreshOnly(e: Step, id: DeviceId) {
    e.Carry? || e.Revoke? ==> e.id != id
  }

  // ---------------------------------------------------------------- what every state keeps

  predicate Owns(s: Server, id: DeviceId, x: Secret) {
    x in s.minted && s.minted[x] == id
  }

  /** A request about row `id`. */
  predicate About(q: Request, id: DeviceId) {
    !q.Refused? && q.id == id
  }

  predicate RequestOwned(s: Server, q: Request) {
    !q.Refused? ==>
      q.id in s.devices && Owns(s, q.id, q.copy.secret) && (q.Loaded? || Hit(q) ==> Owns(s, q.id, q.presented))
  }

  /** Rows and requests only ever carry secrets generated for their own row, whatever the
      interleaving. */
  predicate Owned(s: Server) {
    && (forall d | d in s.devices :: Owns(s, d, s.devices[d].secret))
    && s.spent <= s.minted.Keys && s.revealed <= s.minted.Keys
    && (forall r | r in s.requests :: RequestOwned(s, s.requests[r]))
  }

  predicate RequestSound(s: Server, q: Request) {
    !q.Refused? ==>
      && q.id in s.devices
      && (Pending(q) ==> q.copy.secret == s.devices[q.id].secret)
      && (Hit(q) ==> q.presented in s.spent)
      && (Hit(q) || q.Carried? || q.CarryAnswered? ==>
            q.copy.secret == s.devices[q.id].secret || q.copy.secret in s.spent)
  }

  /** No two requests consumed the same secret of row `id`. */
  predicate ExchangedOnceAt(s: Server, id: DeviceId) {
    forall r, r' | r in s.requests && r' in s.requests && r != r' && Hit(s.requests[r]) && Hit(s.requests[r'])
                   && s.requests[r].id == id ::
      s.requests[r].presented != s.requests[r'].presented
  }

  /** What row `id` keeps. */
  predicate InvAt(s: Server, id: DeviceId) {
    && Owned(s)
    && id in s.devices && s.devices[id].secret !in s.spent
    && ExchangedOnceAt(s, id)
    && (forall r | r in s.requests && About(s.requests[r], id) :: RequestSound(s, s.requests[r]))
  }

  /** A start: rows with distinct secrets, no request yet. */
  predicate Start(s: Server) {
    Owned(s) && s.requests == map[] && s.spent == {}
  }

  lemma StepKeepsOwned(s: Server, e: Step)
    requires Owned(s) && Possible(s, e)
    ensures Owned(Apply(s, e)) && Apply(s, e).devices.Keys == s.devices.Keys
  {
    var s' := Apply(s, e);
    if (e.Save? || e.Answer? || e.Rotate? || e.Drop?) { assert RequestOwned(s, s.requests[e.r]); }
    forall r | r in s'.requests ensures RequestOwned(s', s'.requests[r]) {
      if r in s.requests { assert RequestOwned(s, s.requests[r]); }
    }
  }

  lemma StepKeepsRowAt(s: Server, e: Step, id: DeviceId)
    requires InvAt(s, id) && Possible(s, e)
    ensures id in Apply(s, e).devices && Apply(s, e).devices[id].secret !in Apply(s, e).spent
    ensures Replaced(s, e) != Some(id) ==> Apply(s, e).devices[id].secret == s.devices[id].secret
  {
    if e.Save? || e.Rotate? {
      assert RequestOwned(s, s.requests[e.r]);
      assert About(s.requests[e.r], id) ==> RequestSound(s, s.requests[e.r]);
    }
  }

  lemma StepKeepsRequestAt(s: Server, e: Step, id: DeviceId, r: RequestId)
    requires InvAt(s, id) && Possible(s, e) && GuardAt(s, e, id)
    requires r in Apply(s, e).requests && About(Apply(s, e).requests[r], id)
    ensures RequestSound(Apply(s, e), Apply(s, e).requests[r])
  {
    StepKeepsRowAt(s, e, id);
    if r in s.requests { assert About(s.requests[r], id) && RequestSound(s, s.requests[r]); }
    assert s.spent <= Apply(s, e).spent;
  }

  /** A request has consumed its secret before the step, or consumes it now for the new one. */
  lemma HitFrame(s: Server, e: Step, r: RequestId)
    requires Possible(s, e) && r in Apply(s, e).requests && Hit(Apply(s, e).requests[r])
    ensures var q := Apply(s, e).requests[r];
            || (r in s.requests && Hit(s.requests[r]) && q.id == s.requests[r].id
                && q.presented == s.requests[r].presented && q.copy.secret == s.requests[r].copy.secret)
            || (e.Rotate? && e.r == r && WouldHit(s, r) && q.id == s.requests[r].id
                && q.presented == s.devices[q.id].secret && q.copy.secret == e.next)
  {
  }

  /** What another request consumed is not the secret of row `id`. */
  lemma ConsumedIsNotCurrent(s: Server, id: DeviceId, r: RequestId)
    requires InvAt(s, id) && r in s.requests && Hit(s.requests[r])
    ensures s.requests[r].presented != s.devices[id].secret
  {
    assert RequestOwned(s, s.requests[r]);
    if s.requests[r].id == id { assert About(s.requests[r], id) && RequestSound(s, s.requests[r]); }
  }

  lemma StepKeepsExchangedOnceAt(s: Server, e: Step, id: DeviceId)
    requires InvAt(s, id) && Possible(s, e)
    ensures ExchangedOnceAt(Apply(s, e), id)
  {
    var s' := Apply(s, e);
    forall r, r' | r in s'.requests && r' in s'.requests && r != r' && Hit(s'.requests[r]) && Hit(s'.requests[r'])
                   && s'.requests[r].id == id
      ensures s'.requests[r].presented != s'.requests[r'].presented
    {
      HitFrame(s, e, r);
      HitFrame(s, e, r');
      if r in s.requests && Hit(s.requests[r]) {
        assert RequestOwned(s, s.requests[r]);
        ConsumedIsNotCurrent(s, id, r);
      }
      if r' in s.requests && Hit(s.requests[r']) { ConsumedIsNotCurrent(s, id, r'); }
    }
  }

  lemma StepKeepsInvAt(s: Server, e: Step, id: DeviceId)
    requires InvAt(s, id) && Possible(s, e) && GuardAt(s, e, id)
    ensures InvAt(Apply(s, e), id)
  {
    StepKeepsOwned(s, e);
    StepKeepsRowAt(s, e, id);
    StepKeepsExchangedOnceAt(s, e, id);
    forall r | r in Apply(s, e).requests && About(Apply(s, e).requests[r], id)
      ensures RequestSound(Apply(s, e), Apply(s, e).requests[r])
    {
      StepKeepsRequestAt(s, e, id, r);
    }
  }

  /** What every step leaves alone: the requests it is not of, and the history. */
  lemma StepFrame(s: Server, e: Step)
    requires Possible(s, e)
    ensures var s' := Apply(s, e);
            && s'.devices.Keys >= s.devices.Keys
            && (forall x | x in s.minted :: x in s'.minted && s'.minted[x] == s.minted[x])
            && s.revealed <= s'.revealed && s.spent <= s'.spent
            && s'.requests.Keys == s.requests.Keys + (if e.Revoke? then {} else {e.r})
            && (forall r | r in s.requests && (e.Revoke? || r != e.r) :: s'.requests[r] == s.requests[r])
  {
  }

  // ---------------------------------------------------------------- runs

  /** Every step of `es` is possible where it is taken. */
  predicate Run(s: Server, es: seq<Step>)
    decreases |es|
  {
    es == [] || (Possible(s, es[0]) && Run(Apply(s, es[0]), es[1..]))
  }

  function After(s: Server, es: seq<Step>): Server
    requires Run(s, es)
    decreases |es|
  {
    if es == [] then s else After(Apply(s, es[0]), es[1..])
  }

  predicate GuardedAt(s: Server, es: seq<Step>, id: DeviceId)
    requires Run(s, es)
    decreases |es|
  {
    es == [] || (GuardAt(s, es[0], id) && GuardedAt(Apply(s, es[0]), es[1..], id))
  }

  lemma RunCons(s: Server, e: Step, es: seq<Step>)
    requires Possible(s, e) && Run(Apply(s, e), es)
    ensures Run(s, [e] + es) && After(s, [e] + es) == After(Apply(s, e), es)
    ensures forall id :: GuardedAt(s, [e] + es, id) <==> GuardAt(s, e, id) && GuardedAt(Apply(s, e), es, id)
  {
    assert ([e] + es)[1..] == es;
  }

  lemma {:induction false} GuardedRunKeepsInvAt(s: Server, es: seq<Step>, id: DeviceId)
    requires InvAt(s, id) && Run(s, es) && GuardedAt(s, es, id)
    ensures InvAt(After(s, es), id)
    decreases |es|
  {
    if es != [] {
      StepKeepsInvAt(s, es[0], id);
      GuardedRunKeepsInvAt(Apply(s, es[0]), es[1..], id);
    }
  }

  /** No pending whole-row write would change the secret of row `id`. */
  predicate SavesKeepSecretAt(s: Server, id: DeviceId) {
    id in s.devices &&
    forall r | r in s.requests && Pending(s.requests[r]) ::
      id in Apply(s, Save(r, 0)).devices && Apply(s, Save(r, 0)).devices[id].secret == s.devices[id].secret
  }

  /** A secret of row `id` given to a client is the row's secret until a rotation or revocation
      replaces it. */
  predicate AnsweredSecretsLiveAt(s: Server, id: DeviceId) {
    id in s.devices &&
    forall r | r in s.requests && (s.requests[r].Answered? || s.requests[r].CarryAnswered?) && s.requests[r].id == id ::
      s.devices[id].secret == s.requests[r].copy.secret || s.requests[r].copy.secret in s.spent
  }

  /** All writers together. If the secret of one row is replaced only while no whole-row write is
      owed to it, then, whatever happens to the other rows: no secret of the row is exchanged
      twice, no write restores one, and answered ones stay valid until replaced. */
  lemma GuardedRunsAreSafe(s: Server, es: seq<Step>, id: DeviceId)
    requires Start(s) && id in s.devices && Run(s, es) && GuardedAt(s, es, id)
    ensures var t := After(s, es);
            ExchangedOnceAt(t, id) && SavesKeepSecretAt(t, id) && AnsweredSecretsLiveAt(t, id)
  {
    GuardedRunKeepsInvAt(s, es, id);
    var t := After(s, es);
    forall r | r in t.requests && About(t.requests[r], id) ensures RequestSound(t, t.requests[r]) {}
  }

  // ---------------------------------------------------------------- refresh requests alone

  predicate Carrier(q: Request) {
    q.Carrying? || q.Carried? || q.CarryAnswered?
  }

  /** Besides the common invariant: what a request consumed was known to a client, what it
      rotated to is not known before its answer, and only refreshes replace secrets. */
  predicate RequestQuiet(s: Server, q: Request) {
    && !Carrier(q)
    && (q.Loaded? || Hit(q) ==> q.presented in s.revealed)
    && (q.Rotated? || q.Saved? || q.LostAfterRotation? ==> q.copy.secret !in s.revealed)
    && (q.Answered? ==> q.copy.secret in s.revealed)
    && (Hit(q) ==> q.presented != q.copy.secret)
  }

  predicate RotatedApart(s: Server, id: DeviceId) {
    forall r, r' | r in s.requests && r' in s.requests && r != r' && Hit(s.requests[r]) && Hit(s.requests[r'])
                   && s.requests[r].id == id ::
      s.requests[r].copy.secret != s.requests[r'].copy.secret
  }

  predicate SpentByRequests(s: Server, id: DeviceId) {
    forall x | x in s.spent && Owns(s, id, x) ::
      exists r | r in s.requests :: Hit(s.requests[r]) && s.requests[r].presented == x && s.requests[r].id == id
  }

  /** What a row keeps that only refreshes write. */
  predicate Quiet(s: Server, id: DeviceId) {
    InvAt(s, id) && RotatedApart(s, id) && SpentByRequests(s, id)
    && forall r | r in s.requests && About(s.requests[r], id) :: RequestQuiet(s, s.requests[r])
  }

  lemma RequestFacts(s: Server, id: DeviceId, r: RequestId)
    requires Quiet(s, id) && r in s.requests && About(s.requests[r], id)
    ensures RequestOwned(s, s.requests[r]) && RequestSound(s, s.requests[r]) && RequestQuiet(s, s.requests[r])
  {
  }

  /** The heart of the protocol: while a rotated row still waits for its whole-row write, its
      secret is unknown to every client, so no other request can replace it. */
  lemma QuietImpliesGuard(s: Server, e: Step, id: DeviceId)
    requires Quiet(s, id) && Possible(s, e) && RefreshOnly(e, id)
    ensures GuardAt(s, e, id)
  {
    if Replaced(s, e) == Some(id) {
      RequestFacts(s, id, e.r);
      forall r | r in s.requests ensures !PendingOn(s.requests[r], id) {
        if About(s.requests[r], id) { RequestFacts(s, id, r); }
      }
    }
  }

  lemma QuietRequestStep(s: Server, e: Step, id: DeviceId, r: RequestId)
    requires Quiet(s, id) && Possible(s, e) && RefreshOnly(e, id)
    requires r in Apply(s, e).requests && About(Apply(s, e).requests[r], id)
    ensures RequestQuiet(Apply(s, e), Apply(s, e).requests[r])
  {
    StepFrame(s, e);
    if r in s.requests {
      assert About(s.requests[r], id);
      RequestFacts(s, id, r);
      if e.Answer? && e.r != r { AnswerRevealsOwn(s, e, id, r); }
    }
  }

  /** An answer reveals a secret that no other request of the row waits to answer. */
  lemma AnswerRevealsOwn(s: Server, e: Step, id: DeviceId, r: RequestId)
    requires Quiet(s, id) && Possible(s, e) && e.Answer? && r in s.requests && About(s.requests[r], id) && r != e.r
    ensures Hit(s.requests[r]) ==> s.requests[e.r].copy.secret != s.requests[r].copy.secret
  {
    assert RequestOwned(s, s.requests[e.r]) && RequestOwned(s, s.requests[r]);
    if About(s.requests[e.r], id) { RequestFacts(s, id, e.r); }
  }

  lemma QuietRotatedApart(s: Server, e: Step, id: DeviceId)
    requires Quiet(s, id) && Possible(s, e)
    ensures RotatedApart(Apply(s, e), id)
  {
    var s' := Apply(s, e);
    forall r, r' | r in s'.requests && r' in s'.requests && r != r' && Hit(s'.requests[r]) && Hit(s'.requests[r'])
                   && s'.requests[r].id == id
      ensures s'.requests[r].copy.secret != s'.requests[r'].copy.secret
    {
      HitFrame(s, e, r);
      HitFrame(s, e, r');
      if r in s.requests { assert RequestOwned(s, s.requests[r]); }
      if r' in s.requests { assert RequestOwned(s, s.requests[r']); }
    }
  }

  lemma QuietSpent(s: Server, e: Step, id: DeviceId)
    requires Quiet(s, id) && Possible(s, e) && RefreshOnly(e, id)
    ensures SpentByRequests(Apply(s, e), id)
  {
    var s' := Apply(s, e);
    StepFrame(s, e);
    forall x | x in s'.spent && Owns(s', id, x)
      ensures exists r | r in s'.requests ::
                Hit(s'.requests[r]) && s'.requests[r].presented == x && s'.requests[r].id == id
    {
      if x in s.spent {
        assert Owns(s, id, x);
        var r :| r in s.requests && Hit(s.requests[r]) && s.requests[r].presented == x && s.requests[r].id == id;
        assert Hit(s'.requests[r]) && s'.requests[r].presented == x && s'.requests[r].id == id;
      } else {
        assert Replaced(s, e) == Some(id);
        assert Hit(s'.requests[e.r]) && s'.requests[e.r].presented == x && s'.requests[e.r].id == id;
      }
    }
  }

  lemma StepKeepsQuiet(s: Server, e: Step, id: DeviceId)
    requires Quiet(s, id) && Possible(s, e) && RefreshOnly(e, id)
    ensures Quiet(Apply(s, e), id)
  {
    QuietImpliesGuard(s, e, id);
    StepKeepsInvAt(s, e, id);
    QuietRotatedApart(s, e, id);
    QuietSpent(s, e, id);
    forall r | r in Apply(s, e).requests && About(Apply(s, e).requests[r], id)
      ensures RequestQuiet(Apply(s, e), Apply(s, e).requests[r])
    {
      QuietRequestStep(s, e, id, r);
    }
  }

  lemma {:induction false} RefreshRunKeepsQuiet(s: Server, es: seq<Step>, id: DeviceId)
    requires Quiet(s, id) && Run(s, es) && forall e | e in es :: RefreshOnly(e, id)
    ensures Quiet(After(s, es), id)
    decreases |es|
  {
    if es != [] {
      StepKeepsQuiet(s, es[0], id);
      RefreshRunKeepsQuiet(Apply(s, es[0]), es[1..], id);
    }
  }

  /** A row that only refreshes write, in every interleaving, with lost requests and whatever
      happens to other rows: each of its secrets is exchanged for tokens at most once, no write
      restores one, and an answered one stays the row's until a request consumes exactly it. */
  lemma RefreshRunsAreSafe(s: Server, es: seq<Step>, id: DeviceId)
    requires Start(s) && id in s.devices && Run(s, es) && forall e | e in es :: RefreshOnly(e, id)
    ensures var t := After(s, es);
            && ExchangedOnceAt(t, id)
            && SavesKeepSecretAt(t, id)
            && (forall r | r in t.requests && t.requests[r].Answered? && t.requests[r].id == id ::
                  var q := t.requests[r];
                  q.copy.secret != q.presented
                  && (t.devices[id].secret == q.copy.secret
                      || exists r' | r' in t.requests ::
                           Hit(t.requests[r']) && t.requests[r'].presented == q.copy.secret))
  {
    RefreshRunKeepsQuiet(s, es, id);
    var t := After(s, es);
    forall r | r in t.requests && About(t.requests[r], id)
      ensures RequestOwned(t, t.requests[r]) && RequestSound(t, t.requests[r]) && RequestQuiet(t, t.requests[r])
    {
      RequestFacts(t, id, r);
    }
  }

  // ---------------------------------------------------------------- lost answers

  /** A request of the row that is lost after its rotation: the row still has the new secret, and
      no client was given it or will be by another request. */
  lemma LostSecretIsTheRows(s: Server, id: DeviceId, r: RequestId)
    requires Quiet(s, id) && r in s.requests && s.requests[r].LostAfterRotation? && s.requests[r].id == id
    ensures s.devices[id].secret == s.requests[r].copy.secret && s.devices[id].secret !in s.revealed
  {
    RequestFacts(s, id, r);
    var x := s.requests[r].copy.secret;
    if x in s.spent {
      var r' :| r' in s.requests && Hit(s.requests[r']) && s.requests[r'].presented == x && s.requests[r'].id == id;
      RequestFacts(s, id, r');
    }
  }

  lemma {:induction false} LostStaysLost(s: Server, es: seq<Step>, r: RequestId)
    requires Run(s, es) && r in s.requests && s.requests[r].LostAfterRotation?
    ensures r in After(s, es).requests && After(s, es).requests[r] == s.requests[r]
    decreases |es|
  {
    if es != [] {
      StepFrame(s, es[0]);
      LostStaysLost(Apply(s, es[0]), es[1..], r);
    }
  }

  lemma {:induction false} RunSplit(s: Server, es: seq<Step>, es': seq<Step>)
    requires Run(s, es + es')
    ensures Run(s, es) && Run(After(s, es), es') && After(s, es + es') == After(After(s, es), es')
    decreases |es|
  {
    if es == [] {
      assert es + es' == es';
    } else {
      assert (es + es')[1..] == es[1..] + es';
      RunSplit(Apply(s, es[0]), es[1..], es');
    }
  }

  /** A lost answer is final: once a request that consumed its secret is dropped, whatever
      refreshes follow, the row keeps the secret that no client was given, and no client finds
      the row again. */
  lemma LostAnswerLocksDevice(s: Server, before: seq<Step>, r: RequestId, after: seq<Step>)
    requires Start(s) && Run(s, before) && Run(s, before + ([Drop(r)] + after))
    requires r in After(s, before).requests && Hit(After(s, before).requests[r])
    requires forall e | e in before + after :: RefreshOnly(e, After(s, before).requests[r].id)
    ensures var lost := After(s, before).requests[r];
            var t := After(s, before + ([Drop(r)] + after));
            && lost.id in t.devices && t.devices[lost.id].secret == lost.copy.secret
            && lost.copy.secret !in t.revealed
            && forall r', presented :: !Possible(t, Find(r', presented, Some(lost.id)))
  {
    RunSplit(s, before, [Drop(r)] + after);
    OwnedRun(s, before);
    var s1 := After(s, before);
    assert RequestOwned(s1, s1.requests[r]);
    RefreshRunKeepsQuiet(s, before, s1.requests[r].id);
    assert ([Drop(r)] + after)[1..] == after;
    DroppedIsFinal(s1, r, after);
  }

  lemma DroppedIsFinal(s: Server, r: RequestId, after: seq<Step>)
    requires r in s.requests && Hit(s.requests[r]) && Quiet(s, s.requests[r].id)
    requires Possible(s, Drop(r)) && Run(Apply(s, Drop(r)), after)
    requires forall e | e in after :: RefreshOnly(e, s.requests[r].id)
    ensures var lost := s.requests[r];
            var t := After(Apply(s, Drop(r)), after);
            && Quiet(t, lost.id) && t.devices[lost.id].secret == lost.copy.secret && lost.copy.secret !in t.revealed
  {
    var id := s.requests[r].id;
    var s1 := Apply(s, Drop(r));
    StepKeepsQuiet(s, Drop(r), id);
    RefreshRunKeepsQuiet(s1, after, id);
    LostStaysLost(s1, after, r);
    LostSecretIsTheRows(After(s1, after), id, r);
  }

  lemma {:induction false} OwnedRun(s: Server, es: seq<Step>)
    requires Owned(s) && Run(s, es)
    ensures Owned(After(s, es)) && After(s, es).devices.Keys == s.devices.Keys
    decreases |es|
  {
    if es != [] {
      StepKeepsOwned(s, es[0]);
      OwnedRun(Apply(s, es[0]), es[1..]);
    }
  }

  // ---------------------------------------------------------------- what requests come to

  lemma Run2(s: Server, a: Step, b: Step)
    requires Possible(s, a) && Possible(Apply(s, a), b)
    ensures Run(s, [a, b]) && After(s, [a, b]) == Apply(Apply(s, a), b)
  {
    RunCons(Apply(s, a), b, []);
    RunCons(s, a, [b]);
    assert [a] + [b] == [a, b];
  }

  lemma {:induction false} RunConcat(s: Server, es: seq<Step>, es': seq<Step>)
    requires Run(s, es) && Run(After(s, es), es')
    ensures Run(s, es + es') && After(s, es + es') == After(After(s, es), es')
    decreases |es|
  {
    if es == [] {
      assert es + es' == es';
    } else {
      assert (es + es')[1..] == es[1..] + es';
      RunConcat(Apply(s, es[0]), es[1..], es');
    }
  }

  /** A client that holds the row's secret, alone, gets the next one in four awaits: the row has it
      and its time after the second, the answer reveals it after the fourth. */
  lemma RefreshCompletes(s: Server, r: RequestId, id: DeviceId, next: Secret, t1: int, t2: int)
    requires id in s.devices && s.devices[id].secret in s.revealed && r !in s.requests && next !in s.minted
    ensures var old', user := s.devices[id].secret, s.devices[id].user;
            var one, two := [Find(r, old', Some(id)), Rotate(r, next, t1)], [Save(r, t2), Answer(r)];
            && Run(s, one) && After(s, one).devices == s.devices[id := Device(user, next, t1)]
            && After(s, one).revealed == s.revealed
            && Run(s, one + two) && r in After(s, one + two).requests
            && After(s, one + two).requests[r] == Answered(old', id, Device(user, next, t2))
            && After(s, one + two).devices == s.devices[id := Device(user, next, t2)]
            && After(s, one + two).revealed == s.revealed + {next}
  {
    var find, rotate := Find(r, s.devices[id].secret, Some(id)), Rotate(r, next, t1);
    Run2(s, find, rotate);
    var s2 := After(s, [find, rotate]);
    Run2(s2, Save(r, t2), Answer(r));
    RunConcat(s, [find, rotate], [Save(r, t2), Answer(r)]);
  }

  /** A sign-in or an SSO refresh, alone, keeps the row's secret and answers it, whether it writes
      the row once or twice. */
  lemma CarryCompletes(s: Server, r: RequestId, id: DeviceId, t1: int, t2: int)
    requires id in s.devices && r !in s.requests
    ensures var once := [Carry(r, id, 1), Save(r, t1)] + [Answer(r)];
            && Run(s, once) && After(s, once).devices == s.devices[id := s.devices[id].(updatedAt := t1)]
            && After(s, once).revealed == s.revealed + {s.devices[id].secret}
    ensures var twice := [Carry(r, id, 2), Save(r, t1)] + [Save(r, t2), Answer(r)];
            && Run(s, twice) && After(s, twice).devices == s.devices[id := s.devices[id].(updatedAt := t2)]
            && After(s, twice).revealed == s.revealed + {s.devices[id].secret}
    ensures forall writes :: Possible(s, Carry(r, id, writes)) <==> writes == 1 || writes == 2
  {
    Run2(s, Carry(r, id, 1), Save(r, t1));
    var s1 := After(s, [Carry(r, id, 1), Save(r, t1)]);
    RunCons(s1, Answer(r), []);
    assert [Answer(r)] + [] == [Answer(r)];
    RunConcat(s, [Carry(r, id, 1), Save(r, t1)], [Answer(r)]);
    Run2(s, Carry(r, id, 2), Save(r, t1));
    var s2 := After(s, [Carry(r, id, 2), Save(r, t1)]);
    Run2(s2, Save(r, t2), Answer(r));
    RunConcat(s, [Carry(r, id, 2), Save(r, t1)], [Save(r, t2), Answer(r)]);
  }

  /** Of two requests that found the row by the same secret, the first to rotate wins; the other is
      refused and changes no row. */
  lemma RaceHasOneWinner(s: Server, r: RequestId, r': RequestId, id: DeviceId, next: Secret, next': Secret, t: int)
    requires id in s.devices && s.devices[id].secret in s.revealed && r !in s.requests && r' !in s.requests
    requires r != r' && next !in s.minted && next' !in s.minted && next != next' && s.devices[id].secret in s.minted
    ensures var x := s.devices[id].secret;
            var es := [Find(r, x, Some(id)), Find(r', x, Some(id))] + [Rotate(r, next, t), Rotate(r', next', t)];
            && Run(s, es) && r in After(s, es).requests && r' in After(s, es).requests
            && After(s, es).requests[r'] == Refused && Hit(After(s, es).requests[r])
            && After(s, es).devices == s.devices[id := s.devices[id].(secret := next, updatedAt := t)]
            && next' in After(s, es).minted && After(s, es).revealed == s.revealed
  {
    var x := s.devices[id].secret;
    Run2(s, Find(r, x, Some(id)), Find(r', x, Some(id)));
    var s2 := After(s, [Find(r, x, Some(id)), Find(r', x, Some(id))]);
    Run2(s2, Rotate(r, next, t), Rotate(r', next', t));
    RunConcat(s, [Find(r, x, Some(id)), Find(r', x, Some(id))], [Rotate(r, next, t), Rotate(r', next', t)]);
  }

  /** A secret that a client may present finds nothing, and is refused, exactly if no row has it; a
      consumed one never finds its own row. Every unfinished request can be lost at any time. */
  lemma RefusalOutcome(s: Server, r: RequestId, x: Secret, id: DeviceId)
    requires InvAt(s, id) && (x in s.minted ==> x in s.revealed)
    ensures r !in s.requests ==>
              && (Possible(s, Find(r, x, None)) <==> forall d | d in s.devices :: s.devices[d].secret != x)
              && (Possible(s, Find(r, x, None)) ==>
                    Apply(s, Find(r, x, None)) == s.(requests := s.requests[r := Refused]))
              && (x in s.spent ==> !Possible(s, Find(r, x, Some(id))))
    ensures r in s.requests && !Finished(s.requests[r]) ==>
              && Possible(s, Drop(r)) && Apply(s, Drop(r)).devices == s.devices
              && Apply(s, Drop(r)).revealed == s.revealed
              && (Hit(s.requests[r]) <==> Apply(s, Drop(r)).requests[r].LostAfterRotation?)
  {
  }

  // ---------------------------------------------------------------- exactness of the guard

  /** Replacing a secret is undone by a later whole-row write if and only if some request owes
      the row such a write; what comes back is then the very secret that was replaced. */
  lemma ReplacementSurvivesExactly(s: Server, e: Step)
    requires Possible(s, e) && Replaced(s, e).Some? && InvAt(s, Replaced(s, e).value)
    ensures var s' := Apply(s, e);
            var id := Replaced(s, e).value;
            && id in s.devices && id in s'.devices
            && s.devices[id].secret in s'.spent
            && (OwedWrite(s, id) <==>
                exists r | r in s'.requests && Pending(s'.requests[r]) ::
                  Apply(s', Save(r, 0)).devices[id].secret != s'.devices[id].secret)
            && (forall r | r in s'.requests && Pending(s'.requests[r]) ::
                  Apply(s', Save(r, 0)).devices[id].secret in {s.devices[id].secret, s'.devices[id].secret})
  {
    var s' := Apply(s, e);
    var id := Replaced(s, e).value;
    forall r | r in s.requests && About(s.requests[r], id) ensures RequestSound(s, s.requests[r]) {}
    if OwedWrite(s, id) {
      var r :| r in s.requests && PendingOn(s.requests[r], id);
      assert s'.requests[r] == s.requests[r];
      assert Apply(s', Save(r, 0)).devices[id].secret == s.devices[id].secret;
    }
  }

  /** A revocation between a refresh's rotation and its write is undone by the write: the
      client is answered a secret that the revocation had replaced, and the row carries it. */
  lemma RevocationCanBeUndone(s: Server, r: RequestId, id: DeviceId, next: Secret, revoked: Secret)
    requires id in s.devices && s.devices[id].secret in s.revealed && r !in s.requests
    requires next !in s.minted && revoked !in s.minted && next != revoked
    ensures var old' := s.devices[id].secret;
            var es := [Find(r, old', Some(id)), Rotate(r, next, 0), Revoke(id, revoked), Save(r, 0), Answer(r)];
            && Run(s, es) && !GuardedAt(s, es, id) && id in After(s, es).devices
            && After(s, es).devices[id].secret == next && next in After(s, es).spent && next in After(s, es).revealed
  {
    var old' := s.devices[id].secret;
    var s1 := Apply(s, Find(r, old', Some(id)));
    var s2 := Apply(s1, Rotate(r, next, 0));
    var s3 := Apply(s2, Revoke(id, revoked));
    var s4 := Apply(s3, Save(r, 0));
    var e5 := [Answer(r)];
    var e4 := [Save(r, 0)] + e5;
    var e3 := [Revoke(id, revoked)] + e4;
    var e2 := [Rotate(r, next, 0)] + e3;
    RunCons(s4, Answer(r), []);
    RunCons(s3, Save(r, 0), e5);
    assert PendingOn(s2.requests[r], id);
    RunCons(s2, Revoke(id, revoked), e4);
    RunCons(s1, Rotate(r, next, 0), e3);
    RunCons(s, Find(r, old', Some(id)), e2);
    assert [Find(r, old', Some(id))] + e2
        == [Find(r, old', Some(id)), Rotate(r, next, 0), Revoke(id, revoked), Save(r, 0), Answer(r)];
  }

  /** A request that finds a consumed secret in the row exchanges it once more. */
  lemma PresentedAgain(s: Server, id: DeviceId, r1: RequestId, r2: RequestId, next: Secret)
    requires id in s.devices && s.devices[id].secret in s.revealed && next !in s.minted && r2 !in s.requests
    requires r1 in s.requests && Hit(s.requests[r1]) && s.requests[r1].id == id
    requires s.requests[r1].presented == s.devices[id].secret
    ensures var es := [Find(r2, s.devices[id].secret, Some(id)), Rotate(r2, next, 0)];
            Run(s, es) && !ExchangedOnceAt(After(s, es), id)
  {
    var x := s.devices[id].secret;
    var find, rotate := Find(r2, x, Some(id)), Rotate(r2, next, 0);
    var s1 := Apply(s, find);
    RunCons(s1, rotate, []);
    RunCons(s, find, [rotate]);
    assert [find] + [rotate] == [find, rotate];
    var t := Apply(s1, rotate);
    assert Hit(t.requests[r1]) && Hit(t.requests[r2]) && t.requests[r1].presented == t.requests[r2].presented == x;
  }

  /** So a secret can be exchanged twice: a sign-in that read the row before the rotation writes
      the consumed secret back, and another request presents it again. */
  lemma SecretCanBeExchangedTwice(s: Server, id: DeviceId, carrier: RequestId, r1: RequestId, r2: RequestId,
                                  n1: Secret, n2: Secret)
    requires id in s.devices && s.devices[id].secret in s.revealed
    requires carrier !in s.requests && r1 !in s.requests && r2 !in s.requests
    requires carrier != r1 && carrier != r2 && r1 != r2 && n1 !in s.minted && n2 !in s.minted && n1 != n2
    ensures var x := s.devices[id].secret;
            var es := [Carry(carrier, id, 1), Find(r1, x, Some(id)), Rotate(r1, n1, 0), Save(carrier, 0)]
                      + [Find(r2, x, Some(id)), Rotate(r2, n2, 0)];
            Run(s, es) && !GuardedAt(s, es, id) && !ExchangedOnceAt(After(s, es), id)
  {
    var x := s.devices[id].secret;
    var s1 := Apply(s, Carry(carrier, id, 1));
    var s2 := Apply(s1, Find(r1, x, Some(id)));
    var s3 := Apply(s2, Rotate(r1, n1, 0));
    var s4 := Apply(s3, Save(carrier, 0));
    var again := [Find(r2, x, Some(id)), Rotate(r2, n2, 0)];
    PresentedAgain(s4, id, r1, r2, n2);
    var e4 := [Save(carrier, 0)] + again;
    var e3 := [Rotate(r1, n1, 0)] + e4;
    var e2 := [Find(r1, x, Some(id))] + e3;
    RunCons(s3, Save(carrier, 0), again);
    assert PendingOn(s2.requests[carrier], id);
    RunCons(s2, Rotate(r1, n1, 0), e4);
    RunCons(s1, Find(r1, x, Some(id)), e3);
    RunCons(s, Carry(carrier, id, 1), e2);
    assert [Carry(carrier, id, 1)] + e2
        == [Carry(carrier, id, 1), Find(r1, x, Some(id)), Rotate(r1, n1, 0), Save(carrier, 0)] + again;
  }

  // ---------------------------------------------------------------- the service

  /** The device table and the requests at work on it; each method is one await's worth. */
  class RefreshService {
    var devices: map<DeviceId, Device>
    var requests: map<RequestId, Request>
    ghost var minted: map<Secret, DeviceId>
    ghost var revealed: set<Secret>
    ghost var spent: set<Secret>

    ghost function View(): Server
      reads this
    {
      Server(devices, requests, minted, revealed, spent)
    }

    /** `Device::find_by_refresh_token`. */
    method FindByRefreshToken(r: RequestId, presented: Secret) returns (found: Option<DeviceId>)
      requires r !in requests && (presented in minted ==> presented in revealed)
      modifies this
      ensures Possible(old(View()), Find(r, presented, found))
      ensures View() == Apply(old(View()), Find(r, presented, found))
    {
      if d :| d in devices && devices[d].secret == presented {
        requests := requests[r := Loaded(presented, d, devices[d])];
        found := Some(d);
      } else {
        requests := requests[r := Refused];
        found := None;
      }
    }

    /** `Device::rotate_refresh_token_if_matches`, then building the tokens. */
    method RotateIfMatches(r: RequestId, next: Secret, now: int) returns (consumed: bool)
      requires Possible(View(), Rotate(r, next, now))
      modifies this
      ensures View() == Apply(old(View()), Rotate(r, next, now))
      ensures consumed == WouldHit(old(View()), r)
    {
      var q := requests[r];
      minted := minted[next := q.id];
      consumed := q.id in devices && devices[q.id].secret == q.presented;
      if consumed {
        devices := devices[q.id := devices[q.id].(secret := next, updatedAt := now)];
        requests := requests[r := Rotated(q.presented, q.id, q.copy.(secret := next, updatedAt := now))];
        spent := spent + {q.presented};
      } else {
        requests := requests[r := Refused];
      }
    }

    /** `Device::save(true)`: the whole in-memory row replaces the stored one. */
    method Save(r: RequestId, now: int)
      requires Possible(View(), Step.Save(r, now))
      modifies this
      ensures View() == Apply(old(View()), Step.Save(r, now))
    {
      var q := requests[r];
      var row := q.copy.(updatedAt := now);
      devices := devices[q.id := row];
      requests := requests[r := Written(q, row)];
    }

    /** The JSON answer carries the secret of the in-memory row. */
    method Answer(r: RequestId) returns (issued: Secret)
      requires Possible(View(), Step.Answer(r))
      modifies this
      ensures View() == Apply(old(View()), Step.Answer(r))
      ensures issued == old(requests[r].copy.secret)
    {
      var q := requests[r];
      issued := q.copy.secret;
      requests := requests[r := if q.Saved? then Answered(q.presented, q.id, q.copy) else CarryAnswered(q.id, q.copy)];
      revealed := revealed + {issued};
    }
  }
}
