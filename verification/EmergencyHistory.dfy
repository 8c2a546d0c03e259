/**
 An emergency-access record told by what happened to it. Each column is a fold over the record's
 events, and an event is legal or not by the events before it: the reference that the handlers of
 `EmergencyAccess` are judged by.
 */
module EmergencyHistory {
  import opened Common
  import opened EmergencyAccess

  /** `caller` is the user who called. A timeout says when the recovery it found was initiated, the
      wait it found, when, and how many events the record had then. */
  datatype Event =
    | WasInvited(caller: UserId, email: Email, access: Access, waitDays: int)
    | WasAccepted(user: UserId, email: Email)
    | WasUpdated(caller: UserId, access: Access, waitDays: int, newKey: Option<string>)
    | WasConfirmed(caller: UserId, key: string)
    | WasInitiated(at: Instant, caller: UserId)
    | WasApproved(caller: UserId)
    | WasTimedOut(at: Instant, waitDays: int, now: Instant, known: nat)
    | WasRejected(caller: UserId)

  type Events = seq<Event>

  function Front(evs: Events): Events
    requires evs != []
  {
    evs[..|evs| - 1]
  }

  function Last(evs: Events): Event
    requires evs != []
  {
    evs[|evs| - 1]
  }

  // ---------------------------------------------------------------- the columns

  /** Whoever invited. */
  function GrantorOf(evs: Events): UserId {
    if evs != [] && evs[0].WasInvited? then evs[0].caller else 0
  }

  /** Whoever accepted last. */
  function GranteeOf(evs: Events): Option<UserId> {
    if evs == [] then None
    else if Last(evs).WasAccepted? then Some(Last(evs).user)
    else GranteeOf(Front(evs))
  }

  /** The invited email, until somebody accepts. */
  function EmailOf(evs: Events): Option<Email> {
    if evs == [] || Last(evs).WasAccepted? then None
    else if Last(evs).WasInvited? then Some(Last(evs).email)
    else EmailOf(Front(evs))
  }

  /** The access the latest invitation or update gave. */
  function AccessOf(evs: Events): Access {
    if evs == [] then View
    else if Last(evs).WasInvited? || Last(evs).WasUpdated? then Last(evs).access
    else AccessOf(Front(evs))
  }

  function WaitOf(evs: Events): int {
    if evs == [] then 0
    else if Last(evs).WasInvited? || Last(evs).WasUpdated? then Last(evs).waitDays
    else WaitOf(Front(evs))
  }

  /** The key of the latest confirmation, or of a later update that brought one. */
  function KeyOf(evs: Events): Option<string> {
    if evs == [] then None
    else if Last(evs).WasConfirmed? then Some(Last(evs).key)
    else if Last(evs).WasUpdated? && Last(evs).newKey.Some? then Last(evs).newKey
    else KeyOf(Front(evs))
  }

  function InitiatedOf(evs: Events): Option<Instant> {
    if evs == [] then None
    else if Last(evs).WasInitiated? then Some(Last(evs).at)
    else InitiatedOf(Front(evs))
  }

  /** The latest event but updates decides. */
  function StatusOf(evs: Events): Status {
    if evs == [] then Invited
    else match Last(evs)
         case WasInvited(_, _, _, _) => Invited
         case WasAccepted(_, _) => Accepted
         case WasUpdated(_, _, _, _) => StatusOf(Front(evs))
         case WasConfirmed(_, _) => Confirmed
         case WasInitiated(_, _) => RecoveryInitiated
         case WasApproved(_) => RecoveryApproved
         case WasTimedOut(_, _, _, _) => RecoveryApproved
         case WasRejected(_) => Confirmed
  }

  predicate Fits(r: Record, evs: Events) {
    && r.grantor == GrantorOf(evs) && r.grantee == GranteeOf(evs) && r.email == EmailOf(evs)
    && r.key == KeyOf(evs) && r.access == AccessOf(evs) && r.waitDays == WaitOf(evs)
    && r.status == StatusOf(evs) && r.initiatedAt == InitiatedOf(evs)
  }

  // ---------------------------------------------------------------- legal histories

  /** The grantor updates, confirms, approves and rejects; the grantee initiates; whoever has the
      invited email accepts; each in its place. A timeout found a recovery whose wait was over. */
  predicate Legal(evs: Events, ev: Event) {
    match ev
    case WasInvited(_, _, _, _) => false
    case WasAccepted(_, email) => StatusOf(evs) == Invited && EmailOf(evs) == Some(email)
    case WasUpdated(caller, _, _, _) => caller == GrantorOf(evs)
    case WasConfirmed(caller, _) => caller == GrantorOf(evs) && StatusOf(evs) == Accepted
    case WasInitiated(_, caller) => Some(caller) == GranteeOf(evs) && StatusOf(evs) == Confirmed
    case WasApproved(caller) => caller == GrantorOf(evs) && StatusOf(evs) == RecoveryInitiated
    case WasTimedOut(at, waitDays, now, known) =>
      && known <= |evs| && StatusOf(evs[..known]) == RecoveryInitiated
      && InitiatedOf(evs[..known]) == Some(at) && WaitOf(evs[..known]) == waitDays
      && at + waitDays * (24 * 60 * 60 * 1_000_000_000) <= now
    case WasRejected(caller) =>
      caller == GrantorOf(evs) && (StatusOf(evs) == RecoveryInitiated || StatusOf(evs) == RecoveryApproved)
  }

  predicate LegalRun(evs: Events) {
    && evs != []
    && if |evs| == 1 then evs[0].WasInvited? else LegalRun(Front(evs)) && Legal(Front(evs), Last(evs))
  }

  predicate IsConfirmed(status: Status) {
    status == Confirmed || status == RecoveryInitiated || status == RecoveryApproved
  }

  lemma LegalGrows(evs: Events, ev: Event)
    requires LegalRun(evs) && Legal(evs, ev)
    ensures LegalRun(evs + [ev]) && GrantorOf(evs + [ev]) == GrantorOf(evs)
  {
    assert Front(evs + [ev]) == evs;
  }

  /** Once confirmed, for good and for the same grantee. */
  lemma {:induction false} ConfirmedStays(evs: Events, k: nat)
    requires LegalRun(evs) && k <= |evs| && IsConfirmed(StatusOf(evs[..k]))
    ensures IsConfirmed(StatusOf(evs)) && GranteeOf(evs) == GranteeOf(evs[..k])
    ensures InitiatedOf(evs[..k]).Some? ==> InitiatedOf(evs).Some?
    decreases |evs|
  {
    if k == |evs| {
      assert evs[..k] == evs;
    } else {
      assert evs[..k] == Front(evs)[..k];
      if |evs| > 1 { ConfirmedStays(Front(evs), k); }
    }
  }

  /** What goes together in the columns of a legal history. */
  lemma {:induction false} LegalShape(evs: Events)
    requires LegalRun(evs)
    ensures StatusOf(evs) == Invited <==> EmailOf(evs).Some?
    ensures StatusOf(evs) == Invited <==> GranteeOf(evs).None?
    ensures IsConfirmed(StatusOf(evs)) ==> KeyOf(evs).Some?
    ensures StatusOf(evs) == RecoveryInitiated || StatusOf(evs) == RecoveryApproved ==> InitiatedOf(evs).Some?
    decreases |evs|
  {
    if |evs| > 1 {
      LegalShape(Front(evs));
      if Last(evs).WasTimedOut? { ConfirmedStays(Front(evs), Last(evs).known); }
    }
  }

  /** The grantor confirmed the grantee `user`, once, and nobody else was ever confirmed. */
  ghost predicate ConfirmedFor(evs: Events, user: UserId) {
    exists i | 0 <= i < |evs| ::
      && evs[i].WasConfirmed? && evs[i].caller == GrantorOf(evs) && GranteeOf(evs[..i]) == Some(user)
      && forall j | 0 <= j < |evs| && evs[j].WasConfirmed? :: j == i
  }

  lemma ConfirmedForGrows(evs: Events, ev: Event, user: UserId)
    requires evs != [] && ConfirmedFor(evs, user) && !ev.WasConfirmed?
    ensures ConfirmedFor(evs + [ev], user)
  {
    var i :| 0 <= i < |evs| && evs[i].WasConfirmed? && evs[i].caller == GrantorOf(evs)
             && GranteeOf(evs[..i]) == Some(user) && forall j | 0 <= j < |evs| && evs[j].WasConfirmed? :: j == i;
    assert (evs + [ev])[i] == evs[i] && (evs + [ev])[..i] == evs[..i];
  }

  lemma {:induction false} ConfirmedOnce(evs: Events)
    requires LegalRun(evs)
    ensures if IsConfirmed(StatusOf(evs)) then GranteeOf(evs).Some? && ConfirmedFor(evs, GranteeOf(evs).value)
            else forall j | 0 <= j < |evs| :: !evs[j].WasConfirmed?
    decreases |evs|
  {
    LegalShape(evs);
    if |evs| > 1 {
      var before, ev := Front(evs), Last(evs);
      assert evs == before + [ev];
      ConfirmedOnce(before);
      LegalShape(before);
      if ev.WasTimedOut? { ConfirmedStays(before, ev.known); }
      if IsConfirmed(StatusOf(before)) {
        ConfirmedForGrows(before, ev, GranteeOf(before).value);
      } else if ev.WasConfirmed? {
        assert evs[|before|].WasConfirmed? && evs[..|before|] == before;
      }
    }
  }

  // ---------------------------------------------------------------- the handlers

  /** What a call is remembered as, by its own arguments. */
  function EventOf(c: Call): Option<Event> {
    match c
    case Accept(_, user, email) => Some(WasAccepted(user, email))
    case Confirm(_, caller, key) => Some(WasConfirmed(caller, key))
    case Update(_, caller, asked, waitDays, newKey) =>
      if asked.Some? then Some(WasUpdated(caller, asked.value, waitDays, newKey)) else None
    case Initiate(_, caller, now) => Some(WasInitiated(now, caller))
    case Approve(_, caller) => Some(WasApproved(caller))
    case Reject(_, caller) => Some(WasRejected(caller))
    case _ => None
  }

  /** A handler succeeds on a record exactly when its event is legal by the record's history, and
      leaves the record that the longer history tells. */
  lemma HandledByHistory(r: Record, evs: Events, c: Call)
    requires LegalRun(evs) && Fits(r, evs)
    ensures Handled(r, c).Some? <==> EventOf(c).Some? && Legal(evs, EventOf(c).value)
    ensures Handled(r, c).Some? ==> Fits(Handled(r, c).value, evs + [EventOf(c).value])
  {
    LegalShape(evs);
    if EventOf(c).Some? { assert Front(evs + [EventOf(c).value]) == evs; }
  }

  /** So does a job's write of the status. */
  lemma TimeoutByHistory(r: Record, evs: Events, ev: Event)
    requires LegalRun(evs) && Fits(r, evs) && ev.WasTimedOut?
    ensures Fits(r.(status := RecoveryApproved), evs + [ev])
  {
    assert Front(evs + [ev]) == evs;
  }

  /** The events of a new record; with mail off a registered user accepts at once. */
  function Invitation(c: Call): Events
    requires c.Invite? && c.asked.Some?
  {
    var invited := [WasInvited(c.grantor, c.email, c.asked.value, c.waitDays)];
    if c.invitee.Registered? && !c.mailEnabled then invited + [WasAccepted(c.invitee.user, c.email)] else invited
  }

  lemma InvitationIsLegal(c: Call)
    requires c.Invite? && c.asked.Some?
    ensures LegalRun(Invitation(c))
  {
    var invited := [WasInvited(c.grantor, c.email, c.asked.value, c.waitDays)];
    assert LegalRun(invited);
    assert Front(invited + [WasAccepted(c.invitee.user, c.email)]) == invited;
  }
}
