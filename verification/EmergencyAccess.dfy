/**
 Emergency access (src/api/core/emergency_access.rs, src/db/models/emergency_access.rs): a
 grantor invites a grantee, escrows a key, and the grantee may recover the account once the
 grantor approves or the stored wait has elapsed.

 A handler is one atomic step. A background job is not: it reads all initiated recoveries once
 and later writes one column per due record, so handlers run between its read and its writes.
 */
module EmergencyAccess {
  import opened Common

  type Id = nat
  type UserId = nat
  type Email = string
  /** Nanoseconds. */
  type Instant = int

  const DAY: int := 86_400_000_000_000

  datatype Access = View | Takeover

  datatype Status = Invited | Accepted | Confirmed | RecoveryInitiated | RecoveryApproved

  datatype Record = Record(
    grantor: UserId,
    grantee: Option<UserId>,
    email: Option<Email>,
    key: Option<string>,
    access: Access,
    status: Status,
    waitDays: int,
    initiatedAt: Option<Instant>,
    notifiedAt: Option<Instant>)

  type Records = map<Id, Record>

  /** Who an invited email belongs to: nobody yet, with what the configuration says about
      inviting such an email; an account without a password; or a full account. */
  datatype Invitee =
    | Unknown(user: UserId, invitationsAllowed: bool, domainAllowed: bool)
    | Stub(user: UserId)
    | Registered(user: UserId)

  /** A type that does not parse is `None`. */
  datatype Call =
    | Invite(id: Id, grantor: UserId, grantorEmail: Email, email: Email, invitee: Invitee,
             asked: Option<Access>, waitDays: int, mailEnabled: bool)
    | Accept(id: Id, user: UserId, email: Email)
    | Confirm(id: Id, caller: UserId, key: string)
    | Update(id: Id, caller: UserId, asked: Option<Access>, waitDays: int, newKey: Option<string>)
    | Initiate(id: Id, caller: UserId, now: Instant)
    | Approve(id: Id, caller: UserId)
    | Reject(id: Id, caller: UserId)
    | Delete(id: Id, caller: UserId)

  // ---------------------------------------------------------------- handlers

  /** `EmergencyAccess::accept_invite`. */
  function Accepting(r: Record, user: UserId, email: Email): Option<Record> {
    if r.email != Some(email) || r.status == Accepted then None
    else Some(r.(status := Accepted, grantee := Some(user), email := None))
  }

  /** The record a handler leaves, or `None` when it answers with an error. */
  function Handled(r: Record, c: Call): Option<Record> {
    match c
    case Invite(_, _, _, _, _, _, _, _) => None
    case Accept(_, user, email) => Accepting(r, user, email)
    case Confirm(_, caller, key) =>
      if r.grantor != caller || r.status != Accepted || r.grantee.None? then None
      else Some(r.(status := Confirmed, key := Some(key), email := None))
    case Update(_, caller, asked, waitDays, newKey) =>
      if r.grantor != caller || asked.None? then None
      else Some(r.(access := asked.value, waitDays := waitDays, key := if newKey.Some? then newKey else r.key))
    case Initiate(_, caller, now) =>
      if r.grantee != Some(caller) || r.status != Confirmed then None
      else Some(r.(status := RecoveryInitiated, initiatedAt := Some(now), notifiedAt := Some(now)))
    case Approve(_, caller) =>
      if r.grantor != caller || r.status != RecoveryInitiated || r.grantee.None? then None
      else Some(r.(status := RecoveryApproved))
    case Reject(_, caller) =>
      if r.grantor != caller || r.grantee.None? then None
      else if r.status != RecoveryInitiated && r.status != RecoveryApproved then None
      else Some(r.(status := Confirmed))
    case Delete(_, _) => None
  }

  predicate AlreadyInvited(m: Records, grantor: UserId, grantee: UserId, email: Email) {
    exists id | id in m ::
      m[id].grantor == grantor && (m[id].grantee == Some(grantee) || m[id].email == Some(email))
  }

  predicate MayInvite(invitee: Invitee) {
    invitee.Unknown? ==> invitee.invitationsAllowed && invitee.domainAllowed
  }

  function NewRecord(grantor: UserId, email: Email, access: Access, waitDays: int): Record {
    Record(grantor, None, Some(email), None, access, Invited, waitDays, None, None)
  }

  /** The table after a call, or `None` when the call answers with an error. */
  function Called(m: Records, c: Call): Option<Records> {
    match c
    case Invite(id, grantor, grantorEmail, email, invitee, asked, waitDays, mailEnabled) =>
      if id in m || asked.None? || email == grantorEmail || !MayInvite(invitee) then None
      else if AlreadyInvited(m, grantor, invitee.user, email) then None
      else
        var r := NewRecord(grantor, email, asked.value, waitDays);
        Some(m[id := if !mailEnabled && invitee.Registered? then Accepting(r, invitee.user, email).value else r])
    case Delete(id, caller) =>
      if id in m && (m[id].grantor == caller) != (m[id].grantee == Some(caller)) then Some(m - {id}) else None
    case _ =>
      if c.id in m && Handled(m[c.id], c).Some? then Some(m[c.id := Handled(m[c.id], c).value]) else None
  }

  /** `is_valid_request`, which guards view, takeover, password reset and policies. */
  predicate ValidRequest(r: Record, user: UserId, access: Access) {
    r.grantee == Some(user) && r.status == RecoveryApproved && r.access == access
  }

  // ---------------------------------------------------------------- jobs

  /** `find_all_recoveries_initiated`. */
  predicate Initiated(r: Record) {
    r.status == RecoveryInitiated && r.initiatedAt.Some?
  }

  predicate TimeoutDue(r: Record, now: Instant) {
    Initiated(r) && r.initiatedAt.value + r.waitDays * DAY <= now
  }

  predicate ReminderDue(r: Record, now: Instant) {
    Initiated(r)
    && r.initiatedAt.value + (r.waitDays - 1) * DAY <= now
    && (if r.notifiedAt.Some? then r.notifiedAt.value + DAY <= now else true)
  }

  /** The handlers on the stored table, and the two jobs run without interruption. */
  class AccessTable {
    var records: Records

    method SendInvite(id: Id, grantor: UserId, grantorEmail: Email, email: Email, invitee: Invitee,
                      asked: Option<Access>, waitDays: int, mailEnabled: bool) returns (ok: bool)
      modifies this
      ensures var c := Invite(id, grantor, grantorEmail, email, invitee, asked, waitDays, mailEnabled);
              && (ok <==> Called(old(records), c).Some?)
              && records == if ok then Called(old(records), c).value else old(records)
    {
      if id in records || asked.None? || email == grantorEmail { return false; }
      if invitee.Unknown? && (!invitee.invitationsAllowed || !invitee.domainAllowed) { return false; }
      if AlreadyInvited(records, grantor, invitee.user, email) { return false; }
      records := records[id := NewRecord(grantor, email, asked.value, waitDays)];
      if !mailEnabled && invitee.Registered? {
        var _ := AcceptInvite(id, invitee.user, email);
      }
      ok := true;
    }

    method AcceptInvite(id: Id, user: UserId, email: Email) returns (ok: bool)
      modifies this
      ensures ok <==> Called(old(records), Accept(id, user, email)).Some?
      ensures records == if ok then Called(old(records), Accept(id, user, email)).value else old(records)
    {
      if id !in records || records[id].email != Some(email) { return false; }
      var r := records[id];
      if r.status == Accepted { return false; }
      r := r.(status := Accepted);
      r := r.(grantee := Some(user));
      r := r.(email := None);
      records := records[id := r];
      ok := true;
    }

    method ConfirmAccess(id: Id, caller: UserId, key: string) returns (ok: bool)
      modifies this
      ensures ok <==> Called(old(records), Confirm(id, caller, key)).Some?
      ensures records == if ok then Called(old(records), Confirm(id, caller, key)).value else old(records)
    {
      if id !in records || records[id].grantor != caller { return false; }
      var r := records[id];
      if r.status != Accepted || r.grantee.None? { return false; }
      r := r.(status := Confirmed);
      r := r.(key := Some(key));
      r := r.(email := None);
      records := records[id := r];
      ok := true;
    }

    method InitiateAccess(id: Id, caller: UserId, now: Instant) returns (ok: bool)
      modifies this
      ensures ok <==> Called(old(records), Initiate(id, caller, now)).Some?
      ensures records == if ok then Called(old(records), Initiate(id, caller, now)).value else old(records)
    {
      if id !in records || records[id].grantee != Some(caller) { return false; }
      var r := records[id];
      if r.status != Confirmed { return false; }
      r := r.(status := RecoveryInitiated);
      r := r.(initiatedAt := Some(now));
      r := r.(notifiedAt := Some(now));
      records := records[id := r];
      ok := true;
    }

    method DecideAccess(id: Id, caller: UserId, approve: bool) returns (ok: bool)
      modifies this
      ensures var c := if approve then Approve(id, caller) else Reject(id, caller);
              && (ok <==> Called(old(records), c).Some?)
              && records == if ok then Called(old(records), c).value else old(records)
    {
      if id !in records || records[id].grantor != caller { return false; }
      var r := records[id];
      if r.status != RecoveryInitiated && (approve || r.status != RecoveryApproved) { return false; }
      if r.grantee.None? { return false; }
      records := records[id := r.(status := if approve then RecoveryApproved else Confirmed)];
      ok := true;
    }

    method UpdateAccess(id: Id, caller: UserId, asked: Option<Access>, waitDays: int, newKey: Option<string>)
      returns (ok: bool)
      modifies this
      ensures var c := Update(id, caller, asked, waitDays, newKey);
              && (ok <==> Called(old(records), c).Some?)
              && records == if ok then Called(old(records), c).value else old(records)
    {
      if id !in records || records[id].grantor != caller || asked.None? { return false; }
      var r := records[id];
      r := r.(access := asked.value);
      r := r.(waitDays := waitDays);
      if newKey.Some? {
        r := r.(key := newKey);
      }
      records := records[id := r];
      ok := true;
    }

    method DeleteAccess(id: Id, caller: UserId) returns (ok: bool)
      modifies this
      ensures ok <==> Called(old(records), Delete(id, caller)).Some?
      ensures records == if ok then Called(old(records), Delete(id, caller)).value else old(records)
    {
      if id !in records { return false; }
      var asGrantor, asGrantee := records[id].grantor == caller, records[id].grantee == Some(caller);
      if asGrantor == asGrantee { return false; }
      records := records - {id};
      ok := true;
    }

    /** `emergency_request_timeout_job`: one status update for every due record. */
    method TimeoutJob(now: Instant)
      modifies this
      ensures records.Keys == old(records.Keys)
      ensures forall id | id in records ::
                records[id] == if TimeoutDue(old(records)[id], now) then old(records)[id].(status := RecoveryApproved)
                               else old(records)[id]
    {
      var pending := set id | id in records && Initiated(records[id]);
      while pending != {}
        invariant records.Keys == old(records.Keys) && pending <= records.Keys
        invariant forall id | id in pending :: records[id] == old(records)[id] && Initiated(records[id])
        invariant forall id | id in records && id !in pending ::
                    records[id] == if TimeoutDue(old(records)[id], now)
                                   then old(records)[id].(status := RecoveryApproved)
                                   else old(records)[id]
        decreases pending
      {
        var id :| id in pending;
        pending := pending - {id};
        if records[id].initiatedAt.value + records[id].waitDays * DAY <= now {
          records := records[id := records[id].(status := RecoveryApproved)];
        }
      }
    }

    /** `emergency_notification_reminder_job`: one date update for every due record. */
    method ReminderJob(now: Instant) returns (notified: set<Id>)
      modifies this
      ensures records.Keys == old(records.Keys)
      ensures notified == set id | id in old(records) && ReminderDue(old(records)[id], now)
      ensures forall id | id in records ::
                records[id] == if id in notified then old(records)[id].(notifiedAt := Some(now)) else old(records)[id]
    {
      var pending := set id | id in records && Initiated(records[id]);
      notified := {};
      while pending != {}
        invariant records.Keys == old(records.Keys) && pending <= records.Keys && notified !! pending
        invariant forall id | id in pending :: records[id] == old(records)[id] && Initiated(records[id])
        invariant notified == set id | id in old(records) && id !in pending && ReminderDue(old(records)[id], now)
        invariant forall id | id in records ::
                    records[id] == if id in notified then old(records)[id].(notifiedAt := Some(now))
                                   else old(records)[id]
        decreases pending
      {
        var id :| id in pending;
        pending := pending - {id};
        var r := records[id];
        var next := if r.notifiedAt.Some? then r.notifiedAt.value + DAY else now;
        if r.initiatedAt.value + (r.waitDays - 1) * DAY <= now && next <= now {
          records := records[id := r.(notifiedAt := Some(now))];
          notified := notified + {id};
        }
      }
    }
  }
}
