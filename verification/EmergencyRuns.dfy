/**
 What every run of the emergency-access protocol keeps: who gets in and why, that confirmation is
 final, that a rejection lasts, and how often the grantor is reminded.
 */
module EmergencyRuns {
  import opened Common
  import opened EmergencyAccess
  import opened EmergencyHistory

  /** A record a job found due when it read the table at `now`; `scan` numbers the jobs' reads,
      `recovery` the initiations of the record, `known` the events of the record by then, and
      `clean` is explained at `Remembered` below. */
  datatype Due = Due(id: Id, now: Instant, seen: Record, recovery: nat, clean: bool, scan: nat, known: nat)

  /** The history of one record: its events, how often recovery was initiated, and whether the
      latest recovery is clean. */
  datatype History = History(events: Events, recovery: nat, clean: bool)

  const NONE := History([], 0, true)

  /** `used`, `history`, `sent` and `scans` are history. */
  datatype State = State(
    records: Records,
    used: set<Id>,
    history: map<Id, History>,
    timeouts: set<Due>,
    reminders: set<Due>,
    sent: seq<Due>,
    scans: nat)

  /** The scheduler starts a job whether or not the previous one has finished, so entries of
      several reads can be pending; a job that panics abandons the entries it has left. */
  datatype Step =
    | Request(call: Call)
    | ScanTimeouts(now: Instant)
    | WriteTimeout(due: Due)
    | AbandonTimeouts(dropped: set<Due>)
    | ScanReminders(now: Instant)
    | WriteReminder(due: Due)
    | AbandonReminders(dropped: set<Due>)

  const EMPTY := State(map[], {}, map[], {}, {}, [], 0)

  /** Identifiers are new at each invitation. */
  predicate Possible(s: State, e: Step) {
    match e
    case Request(c) => c.Invite? ==> c.id !in s.used
    case WriteTimeout(d) => d in s.timeouts
    case WriteReminder(d) => d in s.reminders
    case _ => true
  }

  function HistoryOf(s: State, id: Id): History {
    if id in s.history then s.history[id] else NONE
  }

  predicate Reminding(s: State, id: Id) {
    exists d | d in s.reminders :: d.id == id
  }

  /** How a successful call is remembered. A recovery is clean when no reminder of an earlier
      one is still being written. */
  function Remembered(h: History, c: Call, reminding: bool): History {
    var h' := if EventOf(c).Some? then h.(events := h.events + [EventOf(c).value]) else h;
    if c.Initiate? then h'.(recovery := h.recovery + 1, clean := !reminding) else h'
  }

  function Entry(s: State, id: Id, now: Instant): Due
    requires id in s.records
  {
    var h := HistoryOf(s, id);
    Due(id, now, s.records[id], h.recovery, h.clean, s.scans, |h.events|)
  }

  function DueRecords(s: State, now: Instant, reminder: bool): set<Due> {
    set id | id in s.records && (if reminder then ReminderDue(s.records[id], now) else TimeoutDue(s.records[id], now))
      :: Entry(s, id, now)
  }

  function TimedOut(d: Due): Event {
    WasTimedOut(if d.seen.initiatedAt.Some? then d.seen.initiatedAt.value else 0, d.seen.waitDays, d.now, d.known)
  }

  /** A job's write touches one column, of whatever the record has become meanwhile. */
  function Apply(s: State, e: Step): State
    requires Possible(s, e)
  {
    match e
    case Request(c) =>
      if Called(s.records, c).None? then s
      else
        var m := Called(s.records, c).value;
        if c.Invite? then
          var h := if c.asked.Some? then NONE.(events := Invitation(c)) else NONE;
          s.(records := m, used := s.used + {c.id}, history := s.history[c.id := h])
        else if c.Delete? then s.(records := m)
        else
          var h := Remembered(HistoryOf(s, c.id), c, Reminding(s, c.id));
          s.(records := m, history := s.history[c.id := h])
    case ScanTimeouts(now) => s.(timeouts := s.timeouts + DueRecords(s, now, false), scans := s.scans + 1)
    case WriteTimeout(d) =>
      var s' := s.(timeouts := s.timeouts - {d});
      if d.id !in s.records then s'
      else
        var h := HistoryOf(s, d.id);
        s'.(records := s.records[d.id := s.records[d.id].(status := RecoveryApproved)],
            history := s.history[d.id := h.(events := h.events + [TimedOut(d)])])
    case AbandonTimeouts(dropped) => s.(timeouts := s.timeouts - dropped)
    case ScanReminders(now) => s.(reminders := s.reminders + DueRecords(s, now, true), scans := s.scans + 1)
    case WriteReminder(d) =>
      var s' := s.(reminders := s.reminders - {d}, sent := s.sent + [d]);
      if d.id !in s.records then s'
      else s'.(records := s.records[d.id := s.records[d.id].(notifiedAt := Some(d.now))])
    case AbandonReminders(dropped) => s.(reminders := s.reminders - dropped)
  }

  predicate Run(s: State, es: seq<Step>)
    decreases |es|
  {
    es == [] || (Possible(s, es[0]) && Run(Apply(s, es[0]), es[1..]))
  }

  function After(s: State, es: seq<Step>): State
    requires Run(s, es)
    decreases |es|
  {
    if es == [] then s else After(Apply(s, es[0]), es[1..])
  }

  lemma RunCons(s: State, e: Step, es: seq<Step>)
    requires Possible(s, e) && Run(Apply(s, e), es)
    ensures Run(s, [e] + es) && After(s, [e] + es) == After(Apply(s, e), es)
  {
    assert ([e] + es)[1..] == es;
  }

  lemma {:induction false} RunConcat(s: State, es: seq<Step>, es': seq<Step>)
    requires Run(s, es) && Run(After(s, es), es')
    ensures Run(s, es + es') && After(s, es + es') == After(After(s, es), es')
    decreases |es|
  {
    if es == [] {
      assert es + es' == es';
    } else {
      RunConcat(Apply(s, es[0]), es[1..], es');
      RunCons(s, es[0], es[1..] + es');
      assert [es[0]] + (es[1..] + es') == es + es';
    }
  }

  // ---------------------------------------------------------------- one record at a time

  datatype Cell = Cell(record: Record, history: History)

  function CellOf(s: State, id: Id): Cell
    requires id in s.records
  {
    Cell(s.records[id], HistoryOf(s, id))
  }

  /** What a step does to the record it is about. */
  function Moved(c: Cell, e: Step, reminding: bool): Cell {
    match e
    case Request(call) =>
      if Handled(c.record, call).None? then c
      else Cell(Handled(c.record, call).value, Remembered(c.history, call, reminding))
    case WriteTimeout(d) =>
      Cell(c.record.(status := RecoveryApproved), c.history.(events := c.history.events + [TimedOut(d)]))
    case WriteReminder(d) => c.(record := c.record.(notifiedAt := Some(d.now)))
    case _ => c
  }

  predicate About(e: Step, id: Id) {
    match e
    case Request(c) => c.id == id
    case WriteTimeout(d) => d.id == id
    case WriteReminder(d) => d.id == id
    case _ => false
  }

  /** Every surviving record moves as above, or not at all; new ones start fresh. */
  lemma StepMoves(s: State, e: Step, id: Id)
    requires Possible(s, e) && s.records.Keys <= s.used && id in Apply(s, e).records
    ensures id in s.records ==>
              var c := CellOf(s, id);
              CellOf(Apply(s, e), id) == if About(e, id) then Moved(c, e, Reminding(s, id)) else c
    ensures id !in s.records ==>
              && e.Request? && e.call.Invite? && e.call.id == id && id !in s.used && e.call.asked.Some?
              && HistoryOf(Apply(s, e), id) == NONE.(events := Invitation(e.call))
              && Fits(Apply(s, e).records[id], Invitation(e.call)) && Apply(s, e).records[id].notifiedAt.None?
  {
    if id !in s.records { InvitedFits(e.call); }
  }

  lemma InvitedFits(c: Call)
    requires c.Invite? && c.asked.Some?
    ensures var r := NewRecord(c.grantor, c.email, c.asked.value, c.waitDays);
            Fits(if !c.mailEnabled && c.invitee.Registered? then Accepting(r, c.invitee.user, c.email).value else r,
                 Invitation(c))
  {
    var invited := [WasInvited(c.grantor, c.email, c.asked.value, c.waitDays)];
    assert Front(invited) == [] && KeyOf(invited) == None && InitiatedOf(invited) == None;
    assert Front(invited + [WasAccepted(c.invitee.user, c.email)]) == invited;
  }

  // ---------------------------------------------------------------- records are their histories

  predicate CellSound(c: Cell) {
    LegalRun(c.history.events) && Fits(c.record, c.history.events)
  }

  /** A job's entry was due when read, and is what the record's history told by then. */
  predicate TimeoutSound(s: State, d: Due) {
    d.id in s.used && TimeoutDue(d.seen, d.now)
    && (d.id in s.records ==>
          var evs := HistoryOf(s, d.id).events;
          d.known <= |evs| && Fits(d.seen, evs[..d.known]))
  }

  predicate Sound(s: State) {
    && s.records.Keys <= s.used
    && (forall id | id in s.records :: CellSound(CellOf(s, id)))
    && (forall d | d in s.timeouts :: TimeoutSound(s, d))
  }

  /** What a step about a record remembers is legal; the events only grow. */
  lemma MoveIsLegal(c: Cell, e: Step, reminding: bool)
    requires CellSound(c)
    requires e.WriteTimeout? ==> Legal(c.history.events, TimedOut(e.due))
    ensures CellSound(Moved(c, e, reminding))
    ensures var evs, evs' := c.history.events, Moved(c, e, reminding).history.events;
            evs' == evs || exists ev :: Legal(evs, ev) && evs' == evs + [ev]
  {
    var evs := c.history.events;
    match e
    case Request(call) =>
      HandledByHistory(c.record, evs, call);
      if Handled(c.record, call).Some? { LegalGrows(evs, EventOf(call).value); }
    case WriteTimeout(d) =>
      TimeoutByHistory(c.record, evs, TimedOut(d));
      LegalGrows(evs, TimedOut(d));
    case _ =>
  }

  lemma TimeoutIsLegal(s: State, d: Due)
    requires Sound(s) && d in s.timeouts && d.id in s.records
    ensures Legal(HistoryOf(s, d.id).events, TimedOut(d))
    ensures IsConfirmed(s.records[d.id].status)
  {
    assert TimeoutSound(s, d) && CellSound(CellOf(s, d.id));
    ConfirmedStays(HistoryOf(s, d.id).events, d.known);
  }

  lemma StepKeepsCell(s: State, e: Step, id: Id)
    requires Sound(s) && Possible(s, e) && id in Apply(s, e).records
    ensures CellSound(CellOf(Apply(s, e), id))
    ensures id in s.records ==> HistoryOf(s, id).events <= HistoryOf(Apply(s, e), id).events
  {
    StepMoves(s, e, id);
    if id in s.records {
      assert CellSound(CellOf(s, id));
      if About(e, id) {
        if e.WriteTimeout? { TimeoutIsLegal(s, e.due); }
        MoveIsLegal(CellOf(s, id), e, Reminding(s, id));
      }
    } else {
      InvitationIsLegal(e.call);
    }
  }

  /** The parts of the state a step leaves alone or only extends. */
  lemma StepFrame(s: State, e: Step)
    requires Possible(s, e) && s.records.Keys <= s.used
    ensures s.used <= Apply(s, e).used && Apply(s, e).records.Keys <= Apply(s, e).used
    ensures Apply(s, e).records.Keys <= s.records.Keys + (Apply(s, e).used - s.used)
    ensures Apply(s, e).timeouts <= s.timeouts + (if e.ScanTimeouts? then DueRecords(s, e.now, false) else {})
    ensures e.ScanTimeouts? ==> Apply(s, e).records == s.records && Apply(s, e).history == s.history
  {
  }

  lemma StepKeepsTimeout(s: State, e: Step, d: Due)
    requires Sound(s) && Possible(s, e) && d in Apply(s, e).timeouts
    ensures TimeoutSound(Apply(s, e), d)
  {
    var s' := Apply(s, e);
    StepFrame(s, e);
    if d in s.timeouts {
      assert TimeoutSound(s, d);
      if d.id in s'.records {
        StepKeepsCell(s, e, d.id);
        var evs, evs' := HistoryOf(s, d.id).events, HistoryOf(s', d.id).events;
        assert evs'[..d.known] == evs[..d.known];
      }
    } else {
      assert CellSound(CellOf(s, d.id));
      var evs := HistoryOf(s, d.id).events;
      assert evs[..|evs|] == evs;
    }
  }

  lemma StepKeepsSound(s: State, e: Step)
    requires Sound(s) && Possible(s, e)
    ensures Sound(Apply(s, e))
  {
    var s' := Apply(s, e);
    StepFrame(s, e);
    forall id | id in s'.records ensures CellSound(CellOf(s', id)) { StepKeepsCell(s, e, id); }
    forall d | d in s'.timeouts ensures TimeoutSound(s', d) { StepKeepsTimeout(s, e, d); }
  }

  lemma {:induction false} RunKeepsSound(s: State, es: seq<Step>)
    requires Sound(s) && Run(s, es)
    ensures Sound(After(s, es))
    decreases |es|
  {
    if es != [] {
      StepKeepsSound(s, es[0]);
      RunKeepsSound(Apply(s, es[0]), es[1..]);
    }
  }

  /** In every run, whatever jobs do meanwhile: the history of a stored record is legal, and each
      of its columns is what the history tells. */
  lemma RecordsAreTheirHistories(es: seq<Step>, id: Id)
    requires Run(EMPTY, es) && id in After(EMPTY, es).records
    ensures var evs := HistoryOf(After(EMPTY, es), id).events;
            LegalRun(evs) && Fits(After(EMPTY, es).records[id], evs)
  {
    RunKeepsSound(EMPTY, es);
    assert CellSound(CellOf(After(EMPTY, es), id));
  }

  /** And a call on a stored record succeeds exactly when its event is legal by that history, and
      is then remembered; a deletion exactly for one of the two parties, and for good. */
  lemma CallsAreJudgedByHistory(es: seq<Step>, c: Call)
    requires Run(EMPTY, es) && c.id in After(EMPTY, es).records && !c.Invite?
    ensures var s := After(EMPTY, es);
            var evs := HistoryOf(s, c.id).events;
            var s' := Apply(s, Request(c));
            if c.Delete? then
              var allowed := (c.caller == GrantorOf(evs)) != (GranteeOf(evs) == Some(c.caller));
              s'.records == if allowed then s.records - {c.id} else s.records
            else if EventOf(c).Some? && Legal(evs, EventOf(c).value) then
              c.id in s'.records && HistoryOf(s', c.id).events == evs + [EventOf(c).value]
            else s' == s
  {
    RecordsAreTheirHistories(es, c.id);
    var s := After(EMPTY, es);
    HandledByHistory(s.records[c.id], HistoryOf(s, c.id).events, c);
  }

  /** The grantor already has a record for the email, or for the user. */
  predicate Taken(s: State, grantor: UserId, user: UserId, email: Email) {
    exists id | id in s.records ::
      var evs := HistoryOf(s, id).events;
      GrantorOf(evs) == grantor && (GranteeOf(evs) == Some(user) || EmailOf(evs) == Some(email))
  }

  /** An invitation is made exactly if its type is known, it is not to oneself, the invited email
      belongs to somebody or may be invited, and the grantor has no record for it yet. */
  lemma InvitationsAreJudged(es: seq<Step>, c: Call)
    requires Run(EMPTY, es) && c.Invite? && c.id !in After(EMPTY, es).used
    ensures var s := After(EMPTY, es);
            var s' := Apply(s, Request(c));
            if c.asked.Some? && c.email != c.grantorEmail && !Taken(s, c.grantor, c.invitee.user, c.email)
               && (c.invitee.Unknown? ==> c.invitee.invitationsAllowed && c.invitee.domainAllowed)
            then s'.records.Keys == s.records.Keys + {c.id} && HistoryOf(s', c.id).events == Invitation(c)
            else s' == s
  {
    RunKeepsSound(EMPTY, es);
    var s := After(EMPTY, es);
    forall id | id in s.records ensures Fits(s.records[id], HistoryOf(s, id).events) {
      assert CellSound(CellOf(s, id));
    }
    assert AlreadyInvited(s.records, c.grantor, c.invitee.user, c.email) <==>
           Taken(s, c.grantor, c.invitee.user, c.email) by {
      if AlreadyInvited(s.records, c.grantor, c.invitee.user, c.email) {
        var id :| id in s.records && s.records[id].grantor == c.grantor
                  && (s.records[id].grantee == Some(c.invitee.user) || s.records[id].email == Some(c.email));
        assert Fits(s.records[id], HistoryOf(s, id).events);
      }
      if Taken(s, c.grantor, c.invitee.user, c.email) {
        var id :| id in s.records && GrantorOf(HistoryOf(s, id).events) == c.grantor
                  && (GranteeOf(HistoryOf(s, id).events) == Some(c.invitee.user)
                      || EmailOf(HistoryOf(s, id).events) == Some(c.email));
        assert Fits(s.records[id], HistoryOf(s, id).events);
      }
    }
  }

  // ---------------------------------------------------------------- confirmation is final

  lemma StepKeepsConfirmed(s: State, e: Step, id: Id)
    requires Sound(s) && Possible(s, e) && id in s.records && id in Apply(s, e).records
    requires IsConfirmed(s.records[id].status)
    ensures IsConfirmed(Apply(s, e).records[id].status) && Apply(s, e).records[id].grantee == s.records[id].grantee
  {
    StepKeepsCell(s, e, id);
    assert CellSound(CellOf(s, id));
    var evs, evs' := HistoryOf(s, id).events, HistoryOf(Apply(s, e), id).events;
    assert evs'[..|evs|] == evs;
    ConfirmedStays(evs', |evs|);
  }

  /** Whatever happens, a confirmed record stays confirmed, for the same grantee, until it is
      deleted; a deleted identifier never comes back. */
  lemma {:induction false} ConfirmationIsFinal(s: State, es: seq<Step>, id: Id)
    requires Sound(s) && Run(s, es) && id in s.used
    requires id in s.records ==> IsConfirmed(s.records[id].status)
    ensures id in After(s, es).records ==>
              && id in s.records && IsConfirmed(After(s, es).records[id].status)
              && After(s, es).records[id].grantee == s.records[id].grantee
    decreases |es|
  {
    if es != [] {
      var s' := Apply(s, es[0]);
      StepKeepsSound(s, es[0]);
      StepFrame(s, es[0]);
      if id in s'.records { StepKeepsConfirmed(s, es[0], id); }
      ConfirmationIsFinal(s', es[1..], id);
    }
  }

  // ---------------------------------------------------------------- access and consent

  /** The event is a consent to the recovery initiated at `at`: the grantor's, or a wait that
      had elapsed. */
  predicate Consent(grantor: UserId, at: Instant, ev: Event) {
    ev == WasApproved(grantor) || (ev.WasTimedOut? && ev.at == at && at + ev.waitDays * DAY <= ev.now)
  }

  /** Since the initiation at index `i` nothing was initiated or rejected. */
  predicate OpenSince(evs: Events, i: nat) {
    i < |evs| && evs[i].WasInitiated? && forall k | i < k < |evs| :: !evs[k].WasInitiated? && !evs[k].WasRejected?
  }

  ghost predicate InRecovery(evs: Events, at: Instant) {
    exists i: nat | i < |evs| :: OpenSince(evs, i) && evs[i].at == at
  }

  /** Since the latest initiation there was a consent to it and no rejection. */
  ghost predicate Entitled(evs: Events) {
    exists i: nat, j: nat | i < j < |evs| :: OpenSince(evs, i) && Consent(GrantorOf(evs), evs[i].at, evs[j])
  }

  ghost predicate CellEntitled(c: Cell) {
    (c.record.status == RecoveryInitiated || c.record.status == RecoveryApproved ==>
       c.record.initiatedAt.Some? && InRecovery(c.history.events, c.record.initiatedAt.value))
    && (c.record.status == RecoveryApproved ==> Entitled(c.history.events))
  }

  /** The recovery a job found due is still the record's recovery. */
  predicate TimeoutCurrent(s: State, d: Due) {
    d.id in s.records ==>
      (s.records[d.id].status == RecoveryInitiated || s.records[d.id].status == RecoveryApproved)
      && s.records[d.id].initiatedAt == d.seen.initiatedAt
  }

  ghost predicate ConsentedAt(s: State, id: Id) {
    && Sound(s)
    && (id in s.records ==> CellEntitled(CellOf(s, id)))
    && (forall d | d in s.timeouts && d.id == id :: TimeoutCurrent(s, d))
  }

  predicate TimeoutOwed(s: State, id: Id) {
    exists d | d in s.timeouts :: d.id == id
  }

  /** The record is rejected only while no timeout job still has to write it. */
  predicate RejectGuard(s: State, e: Step, id: Id) {
    e.Request? && e.call.Reject? && e.call.id == id ==> !TimeoutOwed(s, id)
  }

  predicate RejectGuarded(s: State, es: seq<Step>, id: Id)
    requires Run(s, es)
    decreases |es|
  {
    es == [] || (RejectGuard(s, es[0], id) && RejectGuarded(Apply(s, es[0]), es[1..], id))
  }

  /** An event that neither initiates nor rejects leaves a recovery open, and a consent at the
      end of an open recovery entitles. */
  lemma RecoveryGrows(evs: Events, ev: Event, at: Instant)
    requires evs != [] && InRecovery(evs, at) && !ev.WasInitiated? && !ev.WasRejected?
    ensures InRecovery(evs + [ev], at)
    ensures Consent(GrantorOf(evs), at, ev) ==> Entitled(evs + [ev])
    ensures Entitled(evs) ==> Entitled(evs + [ev])
  {
    var evs' := evs + [ev];
    var i: nat :| i < |evs| && OpenSince(evs, i) && evs[i].at == at;
    assert OpenSince(evs', i) && evs'[i].at == at && GrantorOf(evs') == GrantorOf(evs);
    if Consent(GrantorOf(evs), at, ev) {
      assert OpenSince(evs', i) && Consent(GrantorOf(evs'), evs'[i].at, evs'[|evs|]);
    }
    if Entitled(evs) {
      var i': nat, j: nat :| i' < j < |evs| && OpenSince(evs, i') && Consent(GrantorOf(evs), evs[i'].at, evs[j]);
      assert OpenSince(evs', i') && Consent(GrantorOf(evs'), evs'[i'].at, evs'[j]);
    }
  }

  lemma MoveKeepsEntitled(c: Cell, e: Step, reminding: bool)
    requires CellSound(c) && CellEntitled(c)
    requires e.WriteTimeout? ==>
               && TimeoutDue(e.due.seen, e.due.now) && c.record.initiatedAt == e.due.seen.initiatedAt
               && (c.record.status == RecoveryInitiated || c.record.status == RecoveryApproved)
    ensures CellEntitled(Moved(c, e, reminding))
  {
    var c' := Moved(c, e, reminding);
    var evs := c.history.events;
    if e.Request? { HandledByHistory(c.record, evs, e.call); }
    if c'.history.events != evs {
      var ev := c'.history.events[|evs|];
      assert c'.history.events == evs + [ev];
      if ev.WasInitiated? {
        assert OpenSince(evs + [ev], |evs|);
      } else if c'.record.status == RecoveryInitiated || c'.record.status == RecoveryApproved {
        RecoveryGrows(evs, ev, c.record.initiatedAt.value);
      }
    }
  }

  lemma StepKeepsTimeoutCurrent(s: State, e: Step, d: Due)
    requires ConsentedAt(s, d.id) && Possible(s, e) && RejectGuard(s, e, d.id) && d in Apply(s, e).timeouts
    ensures TimeoutCurrent(Apply(s, e), d)
  {
    StepFrame(s, e);
    if d.id in Apply(s, e).records {
      StepMoves(s, e, d.id);
      if d.id in s.records {
        assert CellSound(CellOf(s, d.id));
        LegalShape(HistoryOf(s, d.id).events);
      }
      if d in s.timeouts { assert TimeoutSound(s, d) && TimeoutCurrent(s, d); }
    }
  }

  lemma StepKeepsEntitled(s: State, e: Step, id: Id)
    requires ConsentedAt(s, id) && Possible(s, e) && id in Apply(s, e).records
    ensures CellEntitled(CellOf(Apply(s, e), id))
  {
    StepMoves(s, e, id);
    if id in s.records {
      assert CellSound(CellOf(s, id));
      if About(e, id) {
        if e.WriteTimeout? { assert TimeoutSound(s, e.due) && TimeoutCurrent(s, e.due); }
        MoveKeepsEntitled(CellOf(s, id), e, Reminding(s, id));
      }
    }
  }

  lemma {:induction false} GuardedRunKeepsConsented(s: State, es: seq<Step>, id: Id)
    requires ConsentedAt(s, id) && Run(s, es) && RejectGuarded(s, es, id)
    ensures ConsentedAt(After(s, es), id)
    decreases |es|
  {
    if es != [] {
      var s' := Apply(s, es[0]);
      StepKeepsSound(s, es[0]);
      forall d | d in s'.timeouts && d.id == id ensures TimeoutCurrent(s', d) {
        StepKeepsTimeoutCurrent(s, es[0], d);
      }
      if id in s'.records { StepKeepsEntitled(s, es[0], id); }
      GuardedRunKeepsConsented(s', es[1..], id);
    }
  }

  /** View, takeover and password reset succeed only for the access that the latest invitation or
      update gave, for the grantee the grantor confirmed, with the key that was last put in
      escrow, and only if since the latest initiation the grantor approved or the stored wait
      elapsed, with no rejection since. What happens to other records, or jobs finding them due
      as they are rejected, does not matter. */
  lemma AccessNeedsConsent(es: seq<Step>, id: Id, user: UserId, access: Access)
    requires Run(EMPTY, es) && RejectGuarded(EMPTY, es, id)
    requires id in After(EMPTY, es).records && ValidRequest(After(EMPTY, es).records[id], user, access)
    ensures var s := After(EMPTY, es);
            var evs := HistoryOf(s, id).events;
            && LegalRun(evs) && Entitled(evs) && ConfirmedFor(evs, user)
            && access == AccessOf(evs) && GranteeOf(evs) == Some(user)
            && KeyOf(evs).Some? && s.records[id].key == KeyOf(evs)
  {
    GuardedRunKeepsConsented(EMPTY, es, id);
    var s := After(EMPTY, es);
    assert CellSound(CellOf(s, id)) && CellEntitled(CellOf(s, id));
    LegalShape(HistoryOf(s, id).events);
    ConfirmedOnce(HistoryOf(s, id).events);
  }

  /** One record never opens to two kinds of access. */
  lemma AccessIsOneKind(r: Record, user: UserId, other: UserId)
    ensures !(ValidRequest(r, user, View) && ValidRequest(r, other, Takeover))
  {
  }

  // ---------------------------------------------------------------- how long a rejection lasts

  predicate Rejectable(s: State, id: Id, caller: UserId) {
    id in s.records && Handled(s.records[id], Reject(id, caller)).Some?
  }

  /** A rejection is overwritten by a job if and only if a job still has to write the record. */
  lemma RejectionHoldsExactly(s: State, id: Id, caller: UserId)
    requires Sound(s) && Rejectable(s, id, caller)
    ensures var s' := Apply(s, Request(Reject(id, caller)));
            && id in s'.records && s'.records[id].status == Confirmed
            && (TimeoutOwed(s, id) <==>
                exists d | d in s'.timeouts ::
                  var s'' := Apply(s', WriteTimeout(d));
                  id in s''.records && s''.records[id].status == RecoveryApproved)
  {
    var s' := Apply(s, Request(Reject(id, caller)));
    if TimeoutOwed(s, id) {
      var d :| d in s.timeouts && d.id == id;
      assert Apply(s', WriteTimeout(d)).records[id].status == RecoveryApproved;
    }
  }

  /** So a rejected record can be open to its grantee: the job read it before the rejection. */
  lemma RejectionCanBeOverwritten(s: State, id: Id, now: Instant)
    requires id in s.records && TimeoutDue(s.records[id], now) && s.records[id].grantee.Some?
    ensures var r := s.records[id];
            var d := Entry(s, id, now);
            var es := [ScanTimeouts(now), Request(Reject(id, r.grantor)), WriteTimeout(d)];
            && Run(s, es) && id in After(s, es).records
            && ValidRequest(After(s, es).records[id], r.grantee.value, r.access)
            && !Entitled(HistoryOf(After(s, es), id).events)
  {
    var r := s.records[id];
    var d := Entry(s, id, now);
    var scan, reject, write := ScanTimeouts(now), Request(Reject(id, r.grantor)), WriteTimeout(d);
    var s1 := Apply(s, scan);
    assert d in DueRecords(s, now, false);
    var s2 := Apply(s1, reject);
    RunCons(s2, write, []);
    RunCons(s1, reject, [write]);
    RunCons(s, scan, [reject] + [write]);
    assert [scan] + ([reject] + [write]) == [scan, reject, write];
    var evs := HistoryOf(s, id).events;
    assert HistoryOf(Apply(s2, write), id).events == evs + [WasRejected(r.grantor)] + [TimedOut(d)];
    NotEntitledAfterRejection(evs, r.grantor, TimedOut(d));
  }

  /** And the condition is needed wherever it is broken: rejecting a record that a job still has
      to write can end with its grantee having access without consent. */
  lemma RejectGuardIsNeeded(s: State, d: Due, caller: UserId)
    requires Sound(s) && d in s.timeouts && Rejectable(s, d.id, caller)
    ensures var r := s.records[d.id];
            var es := [Request(Reject(d.id, caller)), WriteTimeout(d)];
            && Run(s, es) && d.id in After(s, es).records && r.grantee.Some?
            && ValidRequest(After(s, es).records[d.id], r.grantee.value, r.access)
            && !Entitled(HistoryOf(After(s, es), d.id).events)
  {
    var reject, write := Request(Reject(d.id, caller)), WriteTimeout(d);
    var s1 := Apply(s, reject);
    RunCons(s1, write, []);
    RunCons(s, reject, [write]);
    assert [reject] + [write] == [reject, write];
    var evs := HistoryOf(s, d.id).events;
    assert HistoryOf(Apply(s1, write), d.id).events == evs + [WasRejected(caller)] + [TimedOut(d)];
    NotEntitledAfterRejection(evs, caller, TimedOut(d));
  }

  lemma NotEntitledAfterRejection(evs: Events, caller: UserId, ev: Event)
    requires !ev.WasInitiated?
    ensures !Entitled(evs + [WasRejected(caller)] + [ev])
  {
    var all := evs + [WasRejected(caller)] + [ev];
    forall i: nat | i < |all| ensures !OpenSince(all, i) {
      assert all[|evs|].WasRejected? && all[|evs| + 1] == ev;
    }
  }

  lemma StepKeepsRejected(s: State, e: Step, id: Id)
    requires Sound(s) && Possible(s, e) && id in s.records && id in Apply(s, e).records
    requires s.records[id].status == Confirmed && !TimeoutOwed(s, id)
    requires !(e.Request? && e.call.Initiate? && e.call.id == id)
    ensures Apply(s, e).records[id].status == Confirmed && !TimeoutOwed(Apply(s, e), id)
  {
    StepFrame(s, e);
    StepMoves(s, e, id);
    assert CellSound(CellOf(s, id));
    if e.Request? && e.call.id == id {
      LegalShape(HistoryOf(s, id).events);
      HandledByHistory(s.records[id], HistoryOf(s, id).events, e.call);
    }
  }

  /** With no such job, the record stays out of reach until its grantee initiates again. */
  lemma {:induction false} RejectionLasts(s: State, es: seq<Step>, id: Id)
    requires Sound(s) && Run(s, es)
    requires id in s.records && s.records[id].status == Confirmed && !TimeoutOwed(s, id)
    requires forall e | e in es :: !(e.Request? && e.call.Initiate? && e.call.id == id)
    ensures id in After(s, es).records ==>
              After(s, es).records[id].status == Confirmed
              && forall user, access :: !ValidRequest(After(s, es).records[id], user, access)
    decreases |es|
  {
    if es != [] {
      var s' := Apply(s, es[0]);
      StepKeepsSound(s, es[0]);
      StepFrame(s, es[0]);
      assert CellSound(CellOf(s, id));
      if id in s'.records {
        StepKeepsRejected(s, es[0], id);
        RejectionLasts(s', es[1..], id);
      } else {
        ConfirmationIsFinal(s', es[1..], id);
      }
    }
  }

  // ---------------------------------------------------------------- the two jobs together

  /** The jobs write different columns: in either order both writes are kept. */
  lemma JobWritesCommute(s: State, timeout: Due, reminder: Due)
    requires timeout in s.timeouts && reminder in s.reminders
    ensures var one := Apply(Apply(s, WriteTimeout(timeout)), WriteReminder(reminder));
            && one == Apply(Apply(s, WriteReminder(reminder)), WriteTimeout(timeout))
            && (timeout.id in s.records ==>
                  timeout.id in one.records && one.records[timeout.id].status == RecoveryApproved)
            && (reminder.id in s.records ==>
                  reminder.id in one.records && one.records[reminder.id].notifiedAt == Some(reminder.now))
  {
    var one := Apply(Apply(s, WriteTimeout(timeout)), WriteReminder(reminder));
    var other := Apply(Apply(s, WriteReminder(reminder)), WriteTimeout(timeout));
    assert one.records == other.records;
    assert one.history == other.history;
  }

  // ---------------------------------------------------------------- reminders

  /** The entry was due a reminder when it was read; in a clean recovery that is at least a day
      after the initiation. */
  predicate WasDue(s: State, d: Due) {
    && ReminderDue(d.seen, d.now) && d.scan < s.scans
    && d.id in s.used && d.recovery <= HistoryOf(s, d.id).recovery
    && (d.clean ==> d.seen.initiatedAt.value + DAY <= d.now)
  }

  /** An entry still to be written, against the record as it is now. */
  predicate EntryFits(s: State, d: Due) {
    d.id in s.records ==>
      var h := HistoryOf(s, d.id);
      && (d.recovery == h.recovery ==> d.clean == h.clean && d.seen.initiatedAt == s.records[d.id].initiatedAt)
      && (s.records[d.id].status == RecoveryInitiated && h.clean ==> d.recovery == h.recovery)
  }

  predicate DatesFit(c: Cell) {
    c.record.status == RecoveryInitiated ==>
      && c.record.initiatedAt.Some? && c.record.notifiedAt.Some?
      && (c.history.clean ==> c.record.initiatedAt.value <= c.record.notifiedAt.value)
  }

  /** What every run keeps, however the reminder jobs overlap. */
  predicate Dated(s: State) {
    && s.records.Keys <= s.used
    && (forall d | d in s.reminders :: WasDue(s, d) && EntryFits(s, d))
    && (forall k | 0 <= k < |s.sent| :: WasDue(s, s.sent[k]))
    && (forall id | id in s.records :: DatesFit(CellOf(s, id)))
  }

  /** Recoveries are numbered upwards, one more at each initiation. */
  lemma RecoveryFrame(s: State, e: Step, id: Id)
    requires Possible(s, e) && s.records.Keys <= s.used && id in s.used
    ensures var h, h' := HistoryOf(s, id), HistoryOf(Apply(s, e), id);
            if e.Request? && e.call.Initiate? && e.call.id == id && Called(s.records, e.call).Some?
            then h'.recovery == h.recovery + 1 && h'.clean == !Reminding(s, id)
            else h'.recovery == h.recovery && h'.clean == h.clean
  {
  }

  lemma StepKeepsWasDue(s: State, e: Step, d: Due)
    requires Possible(s, e) && s.records.Keys <= s.used && WasDue(s, d)
    ensures WasDue(Apply(s, e), d)
  {
    RecoveryFrame(s, e, d.id);
    StepFrame(s, e);
  }

  lemma StepKeepsDates(s: State, e: Step, id: Id)
    requires Dated(s) && Possible(s, e) && id in Apply(s, e).records
    ensures DatesFit(CellOf(Apply(s, e), id))
  {
    StepMoves(s, e, id);
    if id in s.records {
      assert DatesFit(CellOf(s, id));
      if e.WriteReminder? && e.due.id == id { assert WasDue(s, e.due) && EntryFits(s, e.due); }
    }
  }

  lemma StepKeepsEntry(s: State, e: Step, d: Due)
    requires Dated(s) && Possible(s, e) && d in s.reminders
    ensures EntryFits(Apply(s, e), d)
  {
    assert WasDue(s, d) && EntryFits(s, d);
    StepFrame(s, e);
    if d.id in Apply(s, e).records {
      StepMoves(s, e, d.id);
      RecoveryFrame(s, e, d.id);
    }
  }

  /** A step adds no reminder but those a scan reads, and sends none but the one it writes. */
  lemma ReminderFrame(s: State, e: Step)
    requires Possible(s, e)
    ensures Apply(s, e).reminders <= s.reminders + (if e.ScanReminders? then DueRecords(s, e.now, true) else {})
    ensures Apply(s, e).sent == if e.WriteReminder? then s.sent + [e.due] else s.sent
  {
  }

  lemma EntryIsDue(s: State, id: Id, now: Instant)
    requires Dated(s) && id in s.records && ReminderDue(s.records[id], now)
    ensures var s' := Apply(s, ScanReminders(now));
            WasDue(s', Entry(s, id, now)) && EntryFits(s', Entry(s, id, now))
  {
    assert DatesFit(CellOf(s, id));
  }

  lemma StepKeepsDated(s: State, e: Step)
    requires Dated(s) && Possible(s, e)
    ensures Dated(Apply(s, e))
  {
    var s' := Apply(s, e);
    StepFrame(s, e);
    ReminderFrame(s, e);
    forall d | d in s'.reminders ensures WasDue(s', d) && EntryFits(s', d) {
      if d in s.reminders {
        StepKeepsWasDue(s, e, d);
        StepKeepsEntry(s, e, d);
      } else {
        EntryIsDue(s, d.id, e.now);
      }
    }
    forall k | 0 <= k < |s'.sent| ensures WasDue(s', s'.sent[k]) { StepKeepsWasDue(s, e, s'.sent[k]); }
    forall id | id in s'.records ensures DatesFit(CellOf(s', id)) { StepKeepsDates(s, e, id); }
  }

  lemma {:induction false} RunKeepsDated(s: State, es: seq<Step>)
    requires Dated(s) && Run(s, es)
    ensures Dated(After(s, es))
    decreases |es|
  {
    if es != [] {
      StepKeepsDated(s, es[0]);
      RunKeepsDated(Apply(s, es[0]), es[1..]);
    }
  }

  function DueAt(d: Due): Instant
    requires d.seen.initiatedAt.Some?
  {
    d.seen.initiatedAt.value + d.seen.waitDays * DAY
  }

  /** No reminder ever comes more than a day before the recovery becomes due; and in a clean
      recovery with a wait of a day or less none comes before that moment. */
  lemma ShortWaitsAreNotReminded(es: seq<Step>, k: nat)
    requires Run(EMPTY, es) && k < |After(EMPTY, es).sent|
    ensures var d := After(EMPTY, es).sent[k];
            && d.seen.initiatedAt.Some?
            && DueAt(d) - DAY <= d.now
            && (d.clean && d.seen.waitDays <= 1 ==> DueAt(d) <= d.now)
  {
    RunKeepsDated(EMPTY, es);
    assert WasDue(After(EMPTY, es), After(EMPTY, es).sent[k]);
  }

  // ---------------------------------------------------------------- how often a recovery is reminded of

  /** A reminder at least a day earlier, of the same initiation. */
  predicate DayBefore(earlier: Due, later: Due) {
    earlier.seen.initiatedAt == later.seen.initiatedAt && earlier.now + DAY <= later.now
  }

  predicate Spaced(earlier: Due, later: Due) {
    earlier.recovery <= later.recovery && (earlier.recovery == later.recovery ==> DayBefore(earlier, later))
  }

  /** The stored date of the latest reminder covers every reminder of the current recovery. */
  predicate SentFits(s: State, d: Due) {
    d.id in s.records && s.records[d.id].status == RecoveryInitiated && d.recovery == HistoryOf(s, d.id).recovery ==>
      && d.seen.initiatedAt == s.records[d.id].initiatedAt
      && s.records[d.id].notifiedAt.Some? && d.now <= s.records[d.id].notifiedAt.value
  }

  /** At most one reminder of the record is pending, after all that were sent; those are spaced. */
  predicate PacedAt(s: State, id: Id) {
    && (forall d, d' | d in s.reminders && d' in s.reminders && d.id == id == d'.id :: d == d')
    && (forall k | 0 <= k < |s.sent| && s.sent[k].id == id :: SentFits(s, s.sent[k]))
    && (forall k, d | 0 <= k < |s.sent| && d in s.reminders && s.sent[k].id == id == d.id :: Spaced(s.sent[k], d))
    && (forall i, j | 0 <= i < j < |s.sent| && s.sent[i].id == id == s.sent[j].id :: Spaced(s.sent[i], s.sent[j]))
  }

  /** No scan finds the record due while a reminder of it is still to be written. */
  predicate ScanGuard(s: State, e: Step, id: Id) {
    e.ScanReminders? && Reminding(s, id) ==> !(id in s.records && ReminderDue(s.records[id], e.now))
  }

  predicate ScanGuarded(s: State, es: seq<Step>, id: Id)
    requires Run(s, es)
    decreases |es|
  {
    es == [] || (ScanGuard(s, es[0], id) && ScanGuarded(Apply(s, es[0]), es[1..], id))
  }

  lemma StepKeepsSent(s: State, e: Step, d: Due)
    requires Dated(s) && Possible(s, e) && WasDue(s, d) && SentFits(s, d)
    requires e.WriteReminder? && e.due.id == d.id ==> Spaced(d, e.due)
    ensures SentFits(Apply(s, e), d)
  {
    if d.id in Apply(s, e).records {
      StepMoves(s, e, d.id);
      RecoveryFrame(s, e, d.id);
      if e.WriteReminder? && e.due.id == d.id { assert WasDue(s, e.due) && EntryFits(s, e.due); }
    }
  }

  /** The reminder a step writes becomes the latest one sent. */
  lemma WrittenFits(s: State, d: Due)
    requires Dated(s) && d in s.reminders
    ensures SentFits(Apply(s, WriteReminder(d)), d)
  {
    assert WasDue(s, d) && EntryFits(s, d);
  }

  lemma EntryIsSpaced(s: State, id: Id, now: Instant, sent: Due)
    requires id in s.records && ReminderDue(s.records[id], now)
    requires sent.id == id && WasDue(s, sent) && SentFits(s, sent)
    ensures Spaced(sent, Entry(s, id, now))
  {
  }

  lemma StepKeepsPaced(s: State, e: Step, id: Id)
    requires Dated(s) && PacedAt(s, id) && Possible(s, e) && ScanGuard(s, e, id)
    ensures PacedAt(Apply(s, e), id)
  {
    var s' := Apply(s, e);
    ReminderFrame(s, e);
    forall k | 0 <= k < |s'.sent| && s'.sent[k].id == id ensures SentFits(s', s'.sent[k]) {
      if k < |s.sent| {
        assert WasDue(s, s.sent[k]);
        StepKeepsSent(s, e, s.sent[k]);
      } else {
        WrittenFits(s, e.due);
      }
    }
    forall k, d | 0 <= k < |s'.sent| && d in s'.reminders && s'.sent[k].id == id == d.id ensures Spaced(s'.sent[k], d) {
      if d !in s.reminders {
        assert WasDue(s, s.sent[k]);
        EntryIsSpaced(s, id, e.now, s.sent[k]);
      }
    }
  }

  lemma {:induction false} GuardedRunKeepsPaced(s: State, es: seq<Step>, id: Id)
    requires Dated(s) && PacedAt(s, id) && Run(s, es) && ScanGuarded(s, es, id)
    ensures Dated(After(s, es)) && PacedAt(After(s, es), id)
    decreases |es|
  {
    if es != [] {
      StepKeepsDated(s, es[0]);
      StepKeepsPaced(s, es[0], id);
      GuardedRunKeepsPaced(Apply(s, es[0]), es[1..], id);
    }
  }

  /** Reminders of one recovery are at least a day apart, and while the wait is unchanged at
      most one precedes the moment the recovery becomes due: the second never does. */
  lemma RemindersArePaced(es: seq<Step>, i: nat, j: nat)
    requires Run(EMPTY, es) && i < j < |After(EMPTY, es).sent|
    requires ScanGuarded(EMPTY, es, After(EMPTY, es).sent[i].id)
    ensures var s := After(EMPTY, es);
            var a, b := s.sent[i], s.sent[j];
            && a.seen.initiatedAt.Some? && b.seen.initiatedAt.Some?
            && (a.id == b.id && a.recovery == b.recovery ==>
                  && a.seen.initiatedAt == b.seen.initiatedAt
                  && a.now + DAY <= b.now
                  && (a.seen.waitDays == b.seen.waitDays ==> DueAt(b) <= b.now))
  {
    var s := After(EMPTY, es);
    GuardedRunKeepsPaced(EMPTY, es, s.sent[i].id);
    assert WasDue(s, s.sent[i]) && WasDue(s, s.sent[j]);
  }

  /** Two reminders of one recovery less than a day apart. */
  predicate Crowded(s: State, id: Id) {
    exists i, j | 0 <= i < j < |s.sent| ::
      && s.sent[i].id == id == s.sent[j].id && s.sent[i].recovery == s.sent[j].recovery
      && s.sent[j].now < s.sent[i].now + DAY
  }

  lemma TwoWrites(s: State, a: Due, b: Due)
    requires a in s.reminders && b in s.reminders && a != b
    ensures var es := [WriteReminder(a), WriteReminder(b)];
            && Run(s, es) && After(s, es) == Apply(Apply(s, WriteReminder(a)), WriteReminder(b))
            && After(s, es).sent == s.sent + [a, b]
  {
    var s1 := Apply(s, WriteReminder(a));
    RunCons(s1, WriteReminder(b), []);
    RunCons(s, WriteReminder(a), [WriteReminder(b)]);
    assert [WriteReminder(a)] + [WriteReminder(b)] == [WriteReminder(a), WriteReminder(b)];
    assert s.sent + [a] + [b] == s.sent + [a, b];
  }

  /** A scan that finds the record due while a reminder of the same recovery is pending: written
      in one of the two orders, the two reminders crowd. */
  lemma OverlappingScansCrowd(s: State, d: Due, now: Instant)
    requires Dated(s) && d in s.reminders && d.id in s.records && ReminderDue(s.records[d.id], now)
    requires d.recovery == HistoryOf(s, d.id).recovery
    ensures var e := Entry(s, d.id, now);
            var a, b := if now < d.now + DAY then d else e, if now < d.now + DAY then e else d;
            var es := [ScanReminders(now)] + [WriteReminder(a), WriteReminder(b)];
            Run(s, es) && Crowded(After(s, es), d.id)
  {
    assert WasDue(s, d);
    var e := Entry(s, d.id, now);
    var s1 := Apply(s, ScanReminders(now));
    assert e in DueRecords(s, now, true);
    var a, b := if now < d.now + DAY then d else e, if now < d.now + DAY then e else d;
    TwoWrites(s1, a, b);
    var writes := [WriteReminder(a), WriteReminder(b)];
    RunCons(s, ScanReminders(now), writes);
    var sent := After(s1, writes).sent;
    assert sent[|s.sent|] == a && sent[|s.sent| + 1] == b;
  }

  /** A record that is due gets its reminder by one scan and one write. */
  lemma DueIsReminded(s: State, id: Id, now: Instant)
    requires id in s.records && ReminderDue(s.records[id], now)
    ensures var es := [ScanReminders(now), WriteReminder(Entry(s, id, now))];
            Run(s, es) && After(s, es).sent == s.sent + [Entry(s, id, now)]
  {
    var s1 := Apply(s, ScanReminders(now));
    var write := WriteReminder(Entry(s, id, now));
    assert Entry(s, id, now) in DueRecords(s, now, true);
    RunCons(s1, write, []);
    RunCons(s, ScanReminders(now), [write]);
    assert [ScanReminders(now)] + [write] == [ScanReminders(now), write];
  }

  /** The pending reminder may also be of an earlier recovery. Written last it sets the stored
      date back, and a scan within the day finds the record due once more. */
  lemma StaleReminderCrowds(s: State, d: Due, now: Instant) returns (es: seq<Step>)
    requires Dated(s) && d in s.reminders && d.id in s.records && ReminderDue(s.records[d.id], now)
    requires d.now < now
    ensures Run(s, [ScanReminders(now)] + es) && Crowded(After(s, [ScanReminders(now)] + es), d.id)
  {
    assert WasDue(s, d);
    var e := Entry(s, d.id, now);
    var s1 := Apply(s, ScanReminders(now));
    assert e in DueRecords(s, now, true);
    TwoWrites(s1, e, d);
    var s3 := After(s1, [WriteReminder(e), WriteReminder(d)]);
    var again := if now < d.now + DAY then d.now + DAY else now;
    var next := Entry(s3, d.id, again);
    DueIsReminded(s3, d.id, again);
    es := [WriteReminder(e), WriteReminder(d)] + [ScanReminders(again), WriteReminder(next)];
    RunConcat(s1, [WriteReminder(e), WriteReminder(d)], [ScanReminders(again), WriteReminder(next)]);
    RunCons(s, ScanReminders(now), es);
    var sent := After(s1, es).sent;
    assert sent[|s.sent|] == e && sent[|s.sent| + 2] == next;
  }

  /** So the guard is needed: from every reachable state in which a scan breaks it, some
      continuation crowds two reminders of the record. All that is asked of the clock is that a
      reminder of an earlier recovery was read before this scan. */
  lemma ScanGuardIsNeeded(s: State, now: Instant, id: Id)
    requires Dated(s) && !ScanGuard(s, ScanReminders(now), id)
    requires forall d | d in s.reminders && d.id == id :: d.recovery == HistoryOf(s, id).recovery || d.now < now
    ensures exists es :: Run(s, [ScanReminders(now)] + es) && Crowded(After(s, [ScanReminders(now)] + es), id)
  {
    var d :| d in s.reminders && d.id == id;
    if d.now < now {
      var es := StaleReminderCrowds(s, d, now);
    } else {
      OverlappingScansCrowd(s, d, now);
    }
  }

  /** Why a clean recovery is asked for: whenever a reminder read before the latest initiation
      is still to be written, three steps lead to a reminder before the due moment, even though
      the wait is one day. */
  lemma StaleReminderBringsNextForward(s: State, d: Due)
    requires d in s.reminders && d.id in s.records && s.records[d.id].waitDays == 1
    requires Initiated(s.records[d.id]) && d.now < s.records[d.id].initiatedAt.value
    ensures var at := s.records[d.id].initiatedAt.value;
            var n := if at < d.now + DAY then d.now + DAY else at;
            var next := Entry(Apply(s, WriteReminder(d)), d.id, n);
            var es := [WriteReminder(d), ScanReminders(n), WriteReminder(next)];
            && Run(s, es) && After(s, es).sent == s.sent + [d, next] && n < DueAt(next)
  {
    var at := s.records[d.id].initiatedAt.value;
    var n := if at < d.now + DAY then d.now + DAY else at;
    var s1 := Apply(s, WriteReminder(d));
    var next := Entry(s1, d.id, n);
    DueIsReminded(s1, d.id, n);
    RunCons(s, WriteReminder(d), [ScanReminders(n), WriteReminder(next)]);
    assert [WriteReminder(d)] + [ScanReminders(n), WriteReminder(next)]
        == [WriteReminder(d), ScanReminders(n), WriteReminder(next)];
    assert s.sent + [d] + [next] == s.sent + [d, next];
  }

  /** A job writes each entry once, and what it abandons is not written; the records it read stay as
      they are until then. */
  lemma EntriesAreUsedUp(s: State, d: Due, dropped: set<Due>)
    ensures d in s.timeouts ==> Apply(s, WriteTimeout(d)).timeouts == s.timeouts - {d}
    ensures d in s.reminders ==> Apply(s, WriteReminder(d)).reminders == s.reminders - {d}
    ensures Apply(s, AbandonTimeouts(dropped)) == s.(timeouts := s.timeouts - dropped)
    ensures Apply(s, AbandonReminders(dropped)) == s.(reminders := s.reminders - dropped)
  {
  }

  // ---------------------------------------------------------------- a whole recovery

  lemma {:induction false} RunSnoc(s: State, es: seq<Step>, e: Step)
    requires Run(s, es) && Possible(After(s, es), e)
    ensures Run(s, es + [e]) && After(s, es + [e]) == Apply(After(s, es), e)
    decreases |es|
  {
    if es == [] {
      assert es + [e] == [e] && [e][1..] == [];
    } else {
      assert (es + [e])[1..] == es[1..] + [e];
      RunSnoc(Apply(s, es[0]), es[1..], e);
    }
  }

  /** A legal call after a run: the longer run, and its record. */
  lemma CallExtends(es: seq<Step>, c: Call)
    requires Run(EMPTY, es) && c.id in After(EMPTY, es).records && !c.Invite?
    requires EventOf(c).Some? && Legal(HistoryOf(After(EMPTY, es), c.id).events, EventOf(c).value)
    ensures var es' := es + [Request(c)];
            && Run(EMPTY, es') && c.id in After(EMPTY, es').records
            && HistoryOf(After(EMPTY, es'), c.id).events
               == HistoryOf(After(EMPTY, es), c.id).events + [EventOf(c).value]
            && Fits(After(EMPTY, es').records[c.id], HistoryOf(After(EMPTY, es'), c.id).events)
            && (c.Initiate? ==> After(EMPTY, es').records[c.id].notifiedAt == Some(c.now))
  {
    CallsAreJudgedByHistory(es, c);
    RunSnoc(EMPTY, es, Request(c));
    RecordsAreTheirHistories(es + [Request(c)], c.id);
  }

  /** An invitation by mail that the rules allow. */
  predicate Invites(s: State, c: Call) {
    && c.Invite? && c.id !in s.used && c.asked.Some? && c.email != c.grantorEmail && c.mailEnabled
    && (c.invitee.Unknown? ==> c.invitee.invitationsAllowed && c.invitee.domainAllowed)
    && !Taken(s, c.grantor, c.invitee.user, c.email)
  }

  function UpToRecovery(c: Call, user: UserId, key: string, at: Instant): seq<Step>
    requires c.Invite?
  {
    [Request(c)] + [Request(Accept(c.id, user, c.email))] + [Request(Confirm(c.id, c.grantor, key))]
    + [Request(Initiate(c.id, user, at))]
  }

  lemma RecoveryIsInitiated(es: seq<Step>, c: Call, user: UserId, key: string, at: Instant)
    requires Run(EMPTY, es) && Invites(After(EMPTY, es), c)
    ensures var es' := es + UpToRecovery(c, user, key, at);
            && Run(EMPTY, es') && c.id in After(EMPTY, es').records
            && HistoryOf(After(EMPTY, es'), c.id).events
               == [WasInvited(c.grantor, c.email, c.asked.value, c.waitDays), WasAccepted(user, c.email),
                   WasConfirmed(c.grantor, key), WasInitiated(at, user)]
            && Fits(After(EMPTY, es').records[c.id], HistoryOf(After(EMPTY, es'), c.id).events)
            && After(EMPTY, es').records[c.id].notifiedAt == Some(at)
  {
    RecordIsConfirmed(es, c, user, key);
    var e3 := es + [Request(c)] + [Request(Accept(c.id, user, c.email))] + [Request(Confirm(c.id, c.grantor, key))];
    CallExtends(e3, Initiate(c.id, user, at));
    assert e3 + [Request(Initiate(c.id, user, at))] == es + UpToRecovery(c, user, key, at);
  }

  lemma RecordIsConfirmed(es: seq<Step>, c: Call, user: UserId, key: string)
    requires Run(EMPTY, es) && Invites(After(EMPTY, es), c)
    ensures var es' := es + [Request(c)] + [Request(Accept(c.id, user, c.email))]
                       + [Request(Confirm(c.id, c.grantor, key))];
            var evs := [WasInvited(c.grantor, c.email, c.asked.value, c.waitDays), WasAccepted(user, c.email),
                        WasConfirmed(c.grantor, key)];
            && Run(EMPTY, es') && c.id in After(EMPTY, es').records
            && HistoryOf(After(EMPTY, es'), c.id).events == evs
            && StatusOf(evs) == Confirmed && GranteeOf(evs) == Some(user)
  {
    InvitationIsAccepted(es, c, user);
    var h2 := [WasInvited(c.grantor, c.email, c.asked.value, c.waitDays), WasAccepted(user, c.email)];
    CallExtends(es + [Request(c)] + [Request(Accept(c.id, user, c.email))], Confirm(c.id, c.grantor, key));
    assert Front(h2 + [WasConfirmed(c.grantor, key)]) == h2;
    assert h2 + [WasConfirmed(c.grantor, key)]
        == [WasInvited(c.grantor, c.email, c.asked.value, c.waitDays), WasAccepted(user, c.email),
            WasConfirmed(c.grantor, key)];
  }

  lemma InvitationIsAccepted(es: seq<Step>, c: Call, user: UserId)
    requires Run(EMPTY, es) && Invites(After(EMPTY, es), c)
    ensures var es' := es + [Request(c)] + [Request(Accept(c.id, user, c.email))];
            var evs := [WasInvited(c.grantor, c.email, c.asked.value, c.waitDays), WasAccepted(user, c.email)];
            && Run(EMPTY, es') && c.id in After(EMPTY, es').records
            && HistoryOf(After(EMPTY, es'), c.id).events == evs
            && StatusOf(evs) == Accepted && GranteeOf(evs) == Some(user) && GrantorOf(evs) == c.grantor
  {
    InvitationsAreJudged(es, c);
    RunSnoc(EMPTY, es, Request(c));
    CallExtends(es + [Request(c)], Accept(c.id, user, c.email));
    assert Invitation(c) + [WasAccepted(user, c.email)]
        == [WasInvited(c.grantor, c.email, c.asked.value, c.waitDays), WasAccepted(user, c.email)];
  }

  /** The columns that decide access after such a recovery. */
  lemma RecoveryColumns(c: Call, user: UserId, key: string, at: Instant)
    requires c.Invite? && c.asked.Some?
    ensures var evs := [WasInvited(c.grantor, c.email, c.asked.value, c.waitDays), WasAccepted(user, c.email),
                        WasConfirmed(c.grantor, key), WasInitiated(at, user)];
            && GrantorOf(evs) == c.grantor && GranteeOf(evs) == Some(user) && AccessOf(evs) == c.asked.value
            && KeyOf(evs) == Some(key) && WaitOf(evs) == c.waitDays && InitiatedOf(evs) == Some(at)
            && StatusOf(evs) == RecoveryInitiated
  {
    var h1 := [WasInvited(c.grantor, c.email, c.asked.value, c.waitDays)];
    var h2, h3 := h1 + [WasAccepted(user, c.email)], h1 + [WasAccepted(user, c.email), WasConfirmed(c.grantor, key)];
    var h4 := h3 + [WasInitiated(at, user)];
    assert Front(h2) == h1 && Front(h3) == h2 && Front(h4) == h3;
    assert AccessOf(h2) == c.asked.value && WaitOf(h2) == c.waitDays && GranteeOf(h2) == Some(user);
    assert AccessOf(h3) == c.asked.value && WaitOf(h3) == c.waitDays && GranteeOf(h3) == Some(user);
    assert h4 == [WasInvited(c.grantor, c.email, c.asked.value, c.waitDays), WasAccepted(user, c.email),
                  WasConfirmed(c.grantor, key), WasInitiated(at, user)];
  }

  /** A recovery that the grantor approves: invited, accepted, confirmed, initiated and approved in
      turn, whatever happened before, the grantee has the access of the invitation and the key of
      the confirmation. */
  lemma RecoveryByApproval(es: seq<Step>, c: Call, user: UserId, key: string, at: Instant)
    requires Run(EMPTY, es) && Invites(After(EMPTY, es), c)
    ensures var es' := es + UpToRecovery(c, user, key, at) + [Request(Approve(c.id, c.grantor))];
            && Run(EMPTY, es') && c.id in After(EMPTY, es').records
            && ValidRequest(After(EMPTY, es').records[c.id], user, c.asked.value)
            && After(EMPTY, es').records[c.id].key == Some(key)
  {
    RecoveryIsInitiated(es, c, user, key, at);
    RecoveryColumns(c, user, key, at);
    var e4 := es + UpToRecovery(c, user, key, at);
    var evs := HistoryOf(After(EMPTY, e4), c.id).events;
    CallExtends(e4, Approve(c.id, c.grantor));
    assert Front(evs + [WasApproved(c.grantor)]) == evs;
  }

  /** And one that nobody answers: the timeout job opens it from the moment the wait is over. */
  lemma RecoveryByWait(es: seq<Step>, c: Call, user: UserId, key: string, at: Instant, now: Instant)
    requires Run(EMPTY, es) && Invites(After(EMPTY, es), c) && at + c.waitDays * DAY <= now
    ensures var e4 := es + UpToRecovery(c, user, key, at);
            && Run(EMPTY, e4) && c.id in After(EMPTY, e4).records
            && var es' := e4 + [ScanTimeouts(now)] + [WriteTimeout(Entry(After(EMPTY, e4), c.id, now))];
               && Run(EMPTY, es') && c.id in After(EMPTY, es').records
               && ValidRequest(After(EMPTY, es').records[c.id], user, c.asked.value)
               && After(EMPTY, es').records[c.id].key == Some(key)
  {
    RecoveryIsInitiated(es, c, user, key, at);
    RecoveryColumns(c, user, key, at);
    var e4 := es + UpToRecovery(c, user, key, at);
    var s := After(EMPTY, e4);
    var d := Entry(s, c.id, now);
    RunSnoc(EMPTY, e4, ScanTimeouts(now));
    assert d in DueRecords(s, now, false);
    RunSnoc(EMPTY, e4 + [ScanTimeouts(now)], WriteTimeout(d));
  }

  /** The first reminder of a recovery goes out once it is a day old and within a day of its end. */
  lemma FirstReminderComes(es: seq<Step>, c: Call, user: UserId, key: string, at: Instant, now: Instant)
    requires Run(EMPTY, es) && Invites(After(EMPTY, es), c)
    requires at + DAY <= now && at + (c.waitDays - 1) * DAY <= now
    ensures var e4 := es + UpToRecovery(c, user, key, at);
            && Run(EMPTY, e4) && c.id in After(EMPTY, e4).records
            && var s := After(EMPTY, e4);
               var es' := [ScanReminders(now), WriteReminder(Entry(s, c.id, now))];
               Run(s, es') && After(s, es').sent == s.sent + [Entry(s, c.id, now)]
  {
    RecoveryIsInitiated(es, c, user, key, at);
    RecoveryColumns(c, user, key, at);
    DueIsReminded(After(EMPTY, es + UpToRecovery(c, user, key, at)), c.id, now);
  }
}
