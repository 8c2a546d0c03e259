/**
 Database connections (src/db/mod.rs): a semaphore hands out as many permits as the pool has
 connections, `get` takes a permit and then checks a connection out on a blocking thread, and a
 dropped `DbConn` gives the connection back first and the permit after it.
 */
module DbPool {
  type RequestId = nat

  /** `Abandoned` is a `get` that was dropped while its blocking thread was still at the pool:
      the permit is back, the thread is not. `Stray` is that thread with a connection that
      nobody receives. */
  datatype Phase =
    | Waiting
    | Fetching
    | InUse
    | Dropping
    | Returning
    | Abandoned
    | Stray
    | Done

  /** `free` counts the semaphore's permits, `idle` the connections the pool may still give. */
  datatype Pool = Pool(max: nat, free: nat, idle: nat, requests: map<RequestId, Phase>)

  datatype Step =
    | Ask(r: RequestId)
    | Acquire(r: RequestId)
    | TimeOut(r: RequestId)
    | CheckOut(r: RequestId)
    | Fail(r: RequestId)
    | Drop(r: RequestId)
    | ReturnConnection(r: RequestId)
    | ReturnPermit(r: RequestId)
    | Cancel(r: RequestId)

  function Start(max: nat): Pool {
    Pool(max, max, max, map[])
  }

  predicate Possible(p: Pool, e: Step) {
    if e.Ask? then e.r !in p.requests else e.r in p.requests && Takes(p, p.requests[e.r], e)
  }

  /** A request in phase `q` can take the step. */
  predicate Takes(p: Pool, q: Phase, e: Step) {
    match e
    case Ask(_) => false
    case Acquire(_) => q == Waiting && p.free > 0
    case TimeOut(_) => q == Waiting
    case CheckOut(_) => (q == Fetching || q == Abandoned) && p.idle > 0
    case Fail(_) => q == Fetching || q == Abandoned
    case Drop(_) => q == InUse
    case ReturnConnection(_) => q == Dropping || q == Stray
    case ReturnPermit(_) => q == Returning
    case Cancel(_) => q == Waiting || q == Fetching
  }

  function Apply(p: Pool, e: Step): Pool
    requires Possible(p, e)
  {
    match e
    case Ask(r) => p.(requests := p.requests[r := Waiting])
    case Acquire(r) => p.(free := p.free - 1, requests := p.requests[r := Fetching])
    case TimeOut(r) => p.(requests := p.requests[r := Done])
    case CheckOut(r) =>
      p.(idle := p.idle - 1, requests := p.requests[r := if p.requests[r] == Fetching then InUse else Stray])
    case Fail(r) =>
      p.(free := if p.requests[r] == Fetching then p.free + 1 else p.free, requests := p.requests[r := Done])
    case Drop(r) => p.(requests := p.requests[r := Dropping])
    case ReturnConnection(r) =>
      p.(idle := p.idle + 1, requests := p.requests[r := if p.requests[r] == Dropping then Returning else Done])
    case ReturnPermit(r) => p.(free := p.free + 1, requests := p.requests[r := Done])
    case Cancel(r) =>
      if p.requests[r] == Fetching then p.(free := p.free + 1, requests := p.requests[r := Abandoned])
      else p.(requests := p.requests[r := Done])
  }

  predicate Run(p: Pool, es: seq<Step>)
    decreases |es|
  {
    es == [] || (Possible(p, es[0]) && Run(Apply(p, es[0]), es[1..]))
  }

  function After(p: Pool, es: seq<Step>): Pool
    requires Run(p, es)
    decreases |es|
  {
    if es == [] then p else After(Apply(p, es[0]), es[1..])
  }

  // ---------------------------------------------------------------- accounting

  predicate HasPermit(q: Phase) {
    q == Fetching || q == InUse || q == Dropping || q == Returning
  }

  predicate HasConnection(q: Phase) {
    q == InUse || q == Dropping || q == Stray
  }

  function Permits(p: Pool): set<RequestId> {
    set r | r in p.requests && HasPermit(p.requests[r])
  }

  function CheckedOut(p: Pool): set<RequestId> {
    set r | r in p.requests && HasConnection(p.requests[r])
  }

  function Strays(p: Pool): set<RequestId> {
    set r | r in p.requests && p.requests[r] == Stray
  }

  /** Permits and connections are conserved. */
  predicate Balanced(p: Pool) {
    p.free + |Permits(p)| == p.max && p.idle + |CheckedOut(p)| == p.max
  }

  lemma StepMovesPermit(p: Pool, e: Step)
    requires Possible(p, e)
    ensures var before, after := Permits(p), Permits(Apply(p, e));
            if e.Acquire? then e.r !in before && after == before + {e.r}
            else if e.ReturnPermit? || ((e.Fail? || e.Cancel?) && p.requests[e.r] == Fetching)
            then e.r in before && after == before - {e.r}
            else after == before
  {
    var p' := Apply(p, e);
    assert forall r | r in p.requests && r != e.r :: p'.requests[r] == p.requests[r];
  }

  lemma StepMovesConnection(p: Pool, e: Step)
    requires Possible(p, e)
    ensures var before, after := CheckedOut(p), CheckedOut(Apply(p, e));
            if e.CheckOut? then e.r !in before && after == before + {e.r}
            else if e.ReturnConnection? then e.r in before && after == before - {e.r}
            else after == before
  {
    var p' := Apply(p, e);
    assert forall r | r in p.requests && r != e.r :: p'.requests[r] == p.requests[r];
  }

  lemma {:induction false} RunKeepsBalance(p: Pool, es: seq<Step>)
    requires Balanced(p) && Run(p, es)
    ensures Balanced(After(p, es)) && After(p, es).max == p.max
    decreases |es|
  {
    if es != [] {
      StepMovesPermit(p, es[0]);
      StepMovesConnection(p, es[0]);
      RunKeepsBalance(Apply(p, es[0]), es[1..]);
    }
  }

  lemma {:induction false} SubsetSize(a: set<RequestId>, b: set<RequestId>)
    requires a <= b
    ensures |a| <= |b|
    decreases |a|
  {
    if a != {} {
      var x :| x in a;
      SubsetSize(a - {x}, b - {x});
    }
  }

  /** Every connection out is covered by a permit or is a stray. */
  lemma ConnectionsAreCovered(p: Pool)
    ensures CheckedOut(p) <= Permits(p) + Strays(p)
    ensures |CheckedOut(p)| <= |Permits(p)| + |Strays(p)|
  {
    SubsetSize(CheckedOut(p), Permits(p) + Strays(p));
    UnionSize(Permits(p), Strays(p));
  }

  lemma UnionSize(a: set<RequestId>, b: set<RequestId>)
    ensures |a + b| <= |a| + |b|
  {
    assert a + b == a + (b - a) && a !! (b - a);
    SubsetSize(b - a, b);
  }

  /** In every run, cancellations included: at most `max` permits are held and at most `max`
      connections are out, and a connection is out without a permit only as a stray. */
  lemma PoolIsNeverOverdrawn(max: nat, es: seq<Step>)
    requires Run(Start(max), es)
    ensures var p := After(Start(max), es);
            && |Permits(p)| <= max && |CheckedOut(p)| <= max
            && |CheckedOut(p)| <= |Permits(p)| + |Strays(p)|
  {
    assert Permits(Start(max)) == {} && CheckedOut(Start(max)) == {};
    RunKeepsBalance(Start(max), es);
    ConnectionsAreCovered(After(Start(max), es));
  }

  lemma PermitBeyondConnections(p: Pool, r: RequestId)
    requires r in p.requests && p.requests[r] == Fetching && Strays(p) == {}
    ensures |CheckedOut(p)| < |Permits(p)|
  {
    forall x | x in CheckedOut(p) ensures x in Permits(p) - {r} { assert x !in Strays(p); }
    SubsetSize(CheckedOut(p), Permits(p) - {r});
  }

  predicate NoneAbandoned(p: Pool) {
    forall r | r in p.requests :: p.requests[r] != Abandoned && p.requests[r] != Stray
  }

  /** No `get` is cancelled while its blocking thread is at the pool; it may be while it waits
      for its permit. */
  predicate FetchesFinish(p: Pool, es: seq<Step>)
    requires Run(p, es)
    decreases |es|
  {
    es == []
    || (!(es[0].Cancel? && p.requests[es[0].r] == Fetching) && FetchesFinish(Apply(p, es[0]), es[1..]))
  }

  lemma {:induction false} FinishedFetchesLeaveNone(p: Pool, es: seq<Step>)
    requires NoneAbandoned(p) && Run(p, es) && FetchesFinish(p, es)
    ensures NoneAbandoned(After(p, es))
    decreases |es|
  {
    if es != [] {
      FinishedFetchesLeaveNone(Apply(p, es[0]), es[1..]);
    }
  }

  /** Then connections out <= permits held <= `max`, and whoever holds a permit can check a
      connection out. */
  lemma PermitsGuardConnections(max: nat, es: seq<Step>)
    requires Run(Start(max), es) && FetchesFinish(Start(max), es)
    ensures var p := After(Start(max), es);
            && |CheckedOut(p)| <= |Permits(p)| <= max
            && (forall r | r in p.requests && p.requests[r] == Fetching :: Possible(p, CheckOut(r)))
  {
    var p := After(Start(max), es);
    FinishedFetchesLeaveNone(Start(max), es);
    PoolIsNeverOverdrawn(max, es);
    assert Strays(p) == {};
    assert Permits(Start(max)) == {} && CheckedOut(Start(max)) == {};
    RunKeepsBalance(Start(max), es);
    forall r | r in p.requests && p.requests[r] == Fetching ensures Possible(p, CheckOut(r)) {
      PermitBeyondConnections(p, r);
    }
  }

  /** Once every request is over, every permit and every connection is back. */
  lemma EverythingComesBack(max: nat, es: seq<Step>)
    requires Run(Start(max), es)
    requires forall r | r in After(Start(max), es).requests :: After(Start(max), es).requests[r] == Done
    ensures After(Start(max), es).free == max && After(Start(max), es).idle == max
  {
    var p := After(Start(max), es);
    assert Permits(Start(max)) == {} && CheckedOut(Start(max)) == {};
    RunKeepsBalance(Start(max), es);
    assert Permits(p) == {} && CheckedOut(p) == {};
  }

  /** How a request that is in phase `q` can come to its end by itself. */
  function WayOut(q: Phase, r: RequestId): seq<Step> {
    match q
    case Waiting => [TimeOut(r)]
    case Fetching => [Fail(r)]
    case InUse => [Drop(r), ReturnConnection(r), ReturnPermit(r)]
    case Dropping => [ReturnConnection(r), ReturnPermit(r)]
    case Returning => [ReturnPermit(r)]
    case Abandoned => [Fail(r)]
    case Stray => [ReturnConnection(r)]
    case Done => []
  }

  /** The pool once the request is over and has given back what it had. */
  function Ended(p: Pool, r: RequestId): Pool
    requires r in p.requests
  {
    var q := p.requests[r];
    p.(free := p.free + (if HasPermit(q) then 1 else 0), idle := p.idle + (if HasConnection(q) then 1 else 0),
       requests := p.requests[r := Done])
  }

  lemma OneStepOut(p: Pool, r: RequestId)
    requires r in p.requests && |WayOut(p.requests[r], r)| == 1
    ensures Run(p, WayOut(p.requests[r], r)) && After(p, WayOut(p.requests[r], r)) == Ended(p, r)
  {
    var e := WayOut(p.requests[r], r)[0];
    RunCons(p, e, []);
    assert [e] + [] == WayOut(p.requests[r], r);
  }

  lemma DroppingEnds(p: Pool, r: RequestId)
    requires r in p.requests && p.requests[r] == Dropping
    ensures Run(p, WayOut(Dropping, r)) && After(p, WayOut(Dropping, r)) == Ended(p, r)
  {
    var p1 := Apply(p, ReturnConnection(r));
    OneStepOut(p1, r);
    RunCons(p, ReturnConnection(r), [ReturnPermit(r)]);
    assert [ReturnConnection(r)] + [ReturnPermit(r)] == WayOut(Dropping, r);
    assert p1.requests[r := Done] == p.requests[r := Done];
  }

  /** Every request can always come to its end, whatever the others do, and gives back exactly the
      permit and the connection it has; one that still waits can also be cancelled. */
  lemma RequestsCanEnd(p: Pool, r: RequestId)
    requires r in p.requests
    ensures Run(p, WayOut(p.requests[r], r)) && After(p, WayOut(p.requests[r], r)) == Ended(p, r)
    ensures p.requests[r] == Waiting ==> Run(p, [Cancel(r)]) && After(p, [Cancel(r)]) == Ended(p, r)
  {
    if p.requests[r] == InUse {
      var p1 := Apply(p, Drop(r));
      DroppingEnds(p1, r);
      RunCons(p, Drop(r), WayOut(Dropping, r));
      assert [Drop(r)] + WayOut(Dropping, r) == WayOut(InUse, r);
      assert p1.requests[r := Done] == p.requests[r := Done];
    } else if p.requests[r] == Dropping {
      DroppingEnds(p, r);
    } else if p.requests[r] == Done {
      assert p.requests[r := Done] == p.requests;
    } else {
      OneStepOut(p, r);
      assert [Cancel(r)][1..] == [];
    }
  }

  lemma RunCons(p: Pool, e: Step, es: seq<Step>)
    requires Possible(p, e) && Run(Apply(p, e), es)
    ensures Run(p, [e] + es) && After(p, [e] + es) == After(Apply(p, e), es)
  {
    assert ([e] + es)[1..] == es;
  }

  // ---------------------------------------------------------------- who can starve

  /** A request that holds a permit is before an empty pool. */
  predicate Starved(p: Pool) {
    p.idle == 0 && exists r | r in p.requests :: p.requests[r] == Fetching
  }

  /** It can come to that without any further cancellation at the pool. */
  ghost predicate CanStarve(p: Pool) {
    exists es :: Run(p, es) && FetchesFinish(p, es) && Starved(After(p, es))
  }

  lemma CanStarveAfter(p: Pool, e: Step)
    requires Possible(p, e) && !(e.Cancel? && p.requests[e.r] == Fetching) && CanStarve(Apply(p, e))
    ensures CanStarve(p)
  {
    var es :| Run(Apply(p, e), es) && FetchesFinish(Apply(p, e), es) && Starved(After(Apply(p, e), es));
    assert ([e] + es)[1..] == es;
    assert Run(p, [e] + es) && FetchesFinish(p, [e] + es) && Starved(After(p, [e] + es));
  }

  lemma StarvedCanStarve(p: Pool)
    requires Starved(p)
    ensures CanStarve(p)
  {
    assert Run(p, []) && FetchesFinish(p, []) && After(p, []) == p;
  }

  lemma {:induction false} Bound(ids: set<RequestId>) returns (n: nat)
    ensures forall i | i in ids :: i < n
    decreases |ids|
  {
    n := 0;
    if ids != {} {
      var i :| i in ids;
      var m := Bound(ids - {i});
      n := if i < m then m else i + 1;
      forall x | x in ids ensures x < n { assert x == i || x in ids - {i}; }
    }
  }

  /** With more permits than connections, new requests take all connections and one more waits. */
  lemma {:induction false} SparePermitsStarve(p: Pool)
    requires p.idle < p.free
    ensures CanStarve(p)
    decreases p.idle
  {
    var r := Bound(p.requests.Keys);
    var p1 := Apply(p, Ask(r));
    var p2 := Apply(p1, Acquire(r));
    if p.idle == 0 {
      assert p2.requests[r] == Fetching;
      StarvedCanStarve(p2);
    } else {
      SparePermitsStarve(Apply(p2, CheckOut(r)));
      CanStarveAfter(p2, CheckOut(r));
    }
    CanStarveAfter(p1, Acquire(r));
    CanStarveAfter(p, Ask(r));
  }

  /** The requests whose permit covers no connection. */
  function Bare(p: Pool): set<RequestId> {
    set r | r in p.requests && (p.requests[r] == Fetching || p.requests[r] == Returning)
  }

  lemma BalancedStep(p: Pool, e: Step)
    requires Balanced(p) && Possible(p, e)
    ensures Balanced(Apply(p, e))
  {
    StepMovesPermit(p, e);
    StepMovesConnection(p, e);
  }

  /** A stray has a connection that no permit covers. */
  lemma StrayIsUncovered(p: Pool)
    requires Balanced(p) && Strays(p) != {} && Bare(p) == {}
    ensures p.idle < p.free
  {
    forall r | r in Permits(p) ensures r in CheckedOut(p) { assert r !in Bare(p); }
    assert Permits(p) !! Strays(p);
    SubsetSize(Permits(p) + Strays(p), CheckedOut(p));
  }

  /** So once the other requests have their connections or have given their permits back, there
      are more permits than connections. */
  lemma {:induction false} StrayStarves(p: Pool, stray: RequestId)
    requires Balanced(p) && stray in p.requests && p.requests[stray] == Stray
    ensures CanStarve(p)
    decreases |Bare(p)|
  {
    if r :| r in Bare(p) {
      if p.requests[r] == Fetching && p.idle == 0 {
        StarvedCanStarve(p);
      } else {
        var e := if p.requests[r] == Fetching then CheckOut(r) else ReturnPermit(r);
        var p' := Apply(p, e);
        BalancedStep(p, e);
        assert Bare(p') == Bare(p) - {r};
        StrayStarves(p', stray);
        CanStarveAfter(p, e);
      }
    } else {
      assert stray in Strays(p);
      StrayIsUncovered(p);
      SparePermitsStarve(p);
    }
  }

  /** An abandoned thread becomes a stray as soon as there is a connection for it. */
  lemma AbandonedStarves(p: Pool, a: RequestId)
    requires Balanced(p) && a in p.requests && p.requests[a] == Abandoned && p.idle > 0
    ensures CanStarve(p)
  {
    BalancedStep(p, CheckOut(a));
    StrayStarves(Apply(p, CheckOut(a)), a);
    CanStarveAfter(p, CheckOut(a));
  }

  /** And there can be one: a connection in use comes back. */
  lemma AbandonedWaitsAndStarves(p: Pool, a: RequestId, r: RequestId)
    requires Balanced(p) && a in p.requests && p.requests[a] == Abandoned && r in CheckedOut(p)
    ensures CanStarve(p)
  {
    match p.requests[r]
    case Stray => StrayStarves(p, r);
    case Dropping =>
      BalancedStep(p, ReturnConnection(r));
      AbandonedStarves(Apply(p, ReturnConnection(r)), a);
      CanStarveAfter(p, ReturnConnection(r));
    case InUse =>
      BalancedStep(p, Drop(r));
      var p' := Apply(p, Drop(r));
      BalancedStep(p', ReturnConnection(r));
      AbandonedStarves(Apply(p', ReturnConnection(r)), a);
      CanStarveAfter(p', ReturnConnection(r));
      CanStarveAfter(p, Drop(r));
  }

  /** Without connections nobody gets past the semaphore. */
  predicate Barred(p: Pool) {
    p.max == 0 && p.free == 0 && forall r | r in p.requests :: p.requests[r] == Waiting || p.requests[r] == Done
  }

  lemma {:induction false} EmptyPoolStaysBarred(p: Pool, es: seq<Step>)
    requires Barred(p) && Run(p, es)
    ensures Barred(After(p, es))
    decreases |es|
  {
    if es != [] { EmptyPoolStaysBarred(Apply(p, es[0]), es[1..]); }
  }

  lemma FinishedFetchesFindConnections(p: Pool, es: seq<Step>)
    requires Balanced(p) && NoneAbandoned(p) && Run(p, es) && FetchesFinish(p, es)
    ensures !Starved(After(p, es))
  {
    RunKeepsBalance(p, es);
    FinishedFetchesLeaveNone(p, es);
    var q := After(p, es);
    assert Strays(q) == {};
    if r :| r in q.requests && q.requests[r] == Fetching { PermitBeyondConnections(q, r); }
  }

  /** In every reachable state: a permit holder can come before an empty pool, with no further
      cancellation at the pool, if and only if the thread of a cancelled request is still at the
      pool or has a connection; and when it comes to that, some such thread has one. */
  lemma StarvationIsPossibleExactly(max: nat, es: seq<Step>)
    requires Run(Start(max), es)
    ensures CanStarve(After(Start(max), es)) <==> !NoneAbandoned(After(Start(max), es))
    ensures Starved(After(Start(max), es)) ==> Strays(After(Start(max), es)) != {}
  {
    var p := After(Start(max), es);
    assert Permits(Start(max)) == {} && CheckedOut(Start(max)) == {};
    RunKeepsBalance(Start(max), es);
    if Starved(p) && Strays(p) == {} {
      var r :| r in p.requests && p.requests[r] == Fetching;
      PermitBeyondConnections(p, r);
    }
    if NoneAbandoned(p) {
      forall es' | Run(p, es') && FetchesFinish(p, es') ensures !Starved(After(p, es')) {
        FinishedFetchesFindConnections(p, es');
      }
    } else {
      var a :| a in p.requests && (p.requests[a] == Abandoned || p.requests[a] == Stray);
      if max == 0 { EmptyPoolStaysBarred(Start(max), es); }
      if p.requests[a] == Stray {
        StrayStarves(p, a);
      } else if p.idle > 0 {
        AbandonedStarves(p, a);
      } else {
        assert CheckedOut(p) != {};
        var r :| r in CheckedOut(p);
        AbandonedWaitsAndStarves(p, a, r);
      }
    }
  }

  /** So the condition on cancellations is needed: wherever a request is cancelled at the pool, a
      permit holder can come before an empty pool afterwards. */
  lemma CancelAtPoolCanStarve(max: nat, es: seq<Step>, r: RequestId)
    requires Run(Start(max), es)
    requires r in After(Start(max), es).requests && After(Start(max), es).requests[r] == Fetching
    ensures CanStarve(Apply(After(Start(max), es), Cancel(r)))
  {
    var p := After(Start(max), es);
    RunSnoc(Start(max), es, Cancel(r));
    assert Apply(p, Cancel(r)).requests[r] == Abandoned;
    StarvationIsPossibleExactly(max, es + [Cancel(r)]);
  }

  lemma {:induction false} RunSnoc(p: Pool, es: seq<Step>, e: Step)
    requires Run(p, es) && Possible(After(p, es), e)
    ensures Run(p, es + [e]) && After(p, es + [e]) == Apply(After(p, es), e)
    decreases |es|
  {
    if es == [] {
      assert es + [e] == [e] && [e][1..] == [];
    } else {
      assert (es + [e])[1..] == es[1..] + [e];
      RunSnoc(Apply(p, es[0]), es[1..], e);
    }
  }

  /** The semaphore and the pool, with the steps of `get` and of the drop. */
  class Connections {
    const max: nat
    var free: nat
    var idle: nat
    ghost var requests: map<RequestId, Phase>

    ghost function View(): Pool
      reads this
    {
      Pool(max, free, idle, requests)
    }

    constructor (max: nat)
      ensures View() == Start(max)
    {
      this.max, free, idle, requests := max, max, max, map[];
    }

    /** The semaphore half of `get`: a permit, or a time-out when none becomes free. */
    method AcquirePermit(r: RequestId) returns (ok: bool)
      requires r in requests && requests[r] == Waiting
      modifies this
      ensures ok <==> old(free) > 0
      ensures View() == Apply(old(View()), if ok then Acquire(r) else TimeOut(r))
    {
      if free == 0 {
        requests := requests[r := Done];
        return false;
      }
      free := free - 1;
      requests := requests[r := Fetching];
      ok := true;
    }

    /** The pool half of `get`; on failure the permit goes back with the error. */
    method GetConnection(r: RequestId, reachable: bool) returns (ok: bool)
      requires r in requests && requests[r] == Fetching
      modifies this
      ensures ok <==> reachable && old(idle) > 0
      ensures View() == Apply(old(View()), if ok then CheckOut(r) else Fail(r))
    {
      if !reachable || idle == 0 {
        free := free + 1;
        requests := requests[r := Done];
        return false;
      }
      idle := idle - 1;
      requests := requests[r := InUse];
      ok := true;
    }

    /** The blocking task of the drop: the connection first, the permit after it. */
    method DropConnection(r: RequestId)
      requires r in requests && requests[r] == Dropping
      modifies this
      ensures View() == Apply(Apply(old(View()), ReturnConnection(r)), ReturnPermit(r))
    {
      idle := idle + 1;
      requests := requests[r := Returning];
      free := free + 1;
      requests := requests[r := Done];
    }
  }
}
