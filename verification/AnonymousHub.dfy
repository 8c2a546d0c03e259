/**
 The anonymous notification hub (src/api/notifications.rs): every connection takes a slot of its
 address, joins the subscriber list of its token, and on closing leaves the list and gives the
 slot back. Both tables are shared; each table access is atomic, a whole close is not.
 */
module AnonymousHub {
  type Address = nat
  type Token = string
  /** A connection; it stands for the random identifier of its list entry as well. */
  type ConnId = nat

  const MAX_ANONYMOUS_CONNECTIONS_PER_IP: nat := 25

  /** How far a connection has come. Closing takes four accesses: leave the list, drop an empty
      list, decrement the count, drop a zero count. */
  datatype Phase =
    | Reserved(addr: Address, token: Token)
    | Live(addr: Address, token: Token)
    | LeftList(addr: Address, token: Token)
    | ListDone(addr: Address, token: Token)
    | Zeroed(addr: Address)
    | Closed
    | TurnedAway

  datatype Hub = Hub(counts: map<Address, nat>, lists: map<Token, seq<ConnId>>, conns: map<ConnId, Phase>)

  datatype Step =
    | Reserve(c: ConnId, addr: Address, token: Token)
    | Subscribe(c: ConnId)
    | LeaveList(c: ConnId)
    | DropEmptyList(c: ConnId)
    | Decrement(c: ConnId)
    | DropZero(c: ConnId)

  const EMPTY := Hub(map[], map[], map[])

  function CountOf(h: Hub, addr: Address): nat {
    if addr in h.counts then h.counts[addr] else 0
  }

  function ListOf(h: Hub, token: Token): seq<ConnId> {
    if token in h.lists then h.lists[token] else []
  }

  /** `retain(|entry| entry != c)`. */
  function Without(cs: seq<ConnId>, c: ConnId): seq<ConnId> {
    if cs == [] then [] else (if cs[0] == c then [] else [cs[0]]) + Without(cs[1..], c)
  }

  function SaturatingPred(n: nat): nat {
    if n == 0 then 0 else n - 1
  }

  predicate At(h: Hub, c: ConnId, e: Step) {
    c in h.conns &&
    match e
    case Subscribe(_) => h.conns[c].Reserved?
    case LeaveList(_) => h.conns[c].Live?
    case DropEmptyList(_) => h.conns[c].LeftList?
    case Decrement(_) => h.conns[c].ListDone?
    case DropZero(_) => h.conns[c].Zeroed?
    case _ => false
  }

  predicate Possible(h: Hub, e: Step) {
    if e.Reserve? then e.c !in h.conns else At(h, e.c, e)
  }

  function Apply(h: Hub, e: Step): Hub
    requires Possible(h, e)
  {
    match e
    case Reserve(c, addr, token) =>
      if CountOf(h, addr) >= MAX_ANONYMOUS_CONNECTIONS_PER_IP then h.(conns := h.conns[c := TurnedAway])
      else h.(counts := h.counts[addr := CountOf(h, addr) + 1], conns := h.conns[c := Reserved(addr, token)])
    case Subscribe(c) =>
      var p := h.conns[c];
      h.(lists := h.lists[p.token := ListOf(h, p.token) + [c]], conns := h.conns[c := Live(p.addr, p.token)])
    case LeaveList(c) =>
      var p := h.conns[c];
      h.(lists := if p.token in h.lists then h.lists[p.token := Without(h.lists[p.token], c)] else h.lists,
         conns := h.conns[c := LeftList(p.addr, p.token)])
    case DropEmptyList(c) =>
      var p := h.conns[c];
      h.(lists := if p.token in h.lists && h.lists[p.token] == [] then h.lists - {p.token} else h.lists,
         conns := h.conns[c := ListDone(p.addr, p.token)])
    case Decrement(c) =>
      var p := h.conns[c];
      if p.addr !in h.counts then h.(conns := h.conns[c := Closed])
      else
        var n := SaturatingPred(h.counts[p.addr]);
        h.(counts := h.counts[p.addr := n], conns := h.conns[c := if n == 0 then Zeroed(p.addr) else Closed])
    case DropZero(c) =>
      var p := h.conns[c];
      h.(counts := if p.addr in h.counts && h.counts[p.addr] == 0 then h.counts - {p.addr} else h.counts,
         conns := h.conns[c := Closed])
  }

  // ---------------------------------------------------------------- what every state keeps

  /** The connection holds a slot of the address. */
  predicate Holds(p: Phase, addr: Address) {
    (p.Reserved? || p.Live? || p.LeftList? || p.ListDone?) && p.addr == addr
  }

  /** The connections that hold a slot of an address: what the count is judged by. */
  function Holders(h: Hub, addr: Address): set<ConnId> {
    set c | c in h.conns && Holds(h.conns[c], addr)
  }

  /** The connections subscribed to a token: what the list is judged by. */
  function Subscribers(h: Hub, token: Token): set<ConnId> {
    set c | c in h.conns && h.conns[c].Live? && h.conns[c].token == token
  }

  predicate CountExact(h: Hub, addr: Address) {
    && CountOf(h, addr) == |Holders(h, addr)| <= 25
    && (addr in h.counts && h.counts[addr] == 0 ==> exists c | c in h.conns :: h.conns[c] == Zeroed(addr))
  }

  predicate Distinct(cs: seq<ConnId>) {
    forall i, j | 0 <= i < j < |cs| :: cs[i] != cs[j]
  }

  ghost predicate ListExact(h: Hub, token: Token) {
    var cs := ListOf(h, token);
    && Distinct(cs)
    && (forall c :: c in cs <==> c in Subscribers(h, token))
    && (token in h.lists && cs == [] ==>
          exists c | c in h.conns :: h.conns[c].LeftList? && h.conns[c].token == token)
  }

  ghost predicate Exact(h: Hub) {
    (forall addr :: CountExact(h, addr)) && (forall token :: ListExact(h, token))
  }

  lemma StepMovesHolder(h: Hub, e: Step, addr: Address)
    requires Possible(h, e)
    ensures var h' := Apply(h, e);
            var before, after := Holders(h, addr), Holders(h', addr);
            if e.Reserve? && e.addr == addr && CountOf(h, addr) < MAX_ANONYMOUS_CONNECTIONS_PER_IP
            then e.c !in before && after == before + {e.c}
            else if e.Decrement? && h.conns[e.c].addr == addr then e.c in before && after == before - {e.c}
            else after == before
  {
    var h' := Apply(h, e);
    if e.Decrement? && h.conns[e.c].addr == addr {
      assert Holders(h', addr) == Holders(h, addr) - {e.c};
    } else if e.Reserve? && e.addr == addr && CountOf(h, addr) < MAX_ANONYMOUS_CONNECTIONS_PER_IP {
      assert Holders(h', addr) == Holders(h, addr) + {e.c};
    } else {
      assert forall c | c in h'.conns :: Holds(h'.conns[c], addr) <==> c in h.conns && Holds(h.conns[c], addr);
      assert Holders(h', addr) == Holders(h, addr);
    }
  }

  /** A zero count stays only while the connection that is to remove it does. */
  lemma StepKeepsZero(h: Hub, e: Step, addr: Address)
    requires Possible(h, e) && CountExact(h, addr) && CountOf(Apply(h, e), addr) == 0 && addr in Apply(h, e).counts
    ensures exists c | c in Apply(h, e).conns :: Apply(h, e).conns[c] == Zeroed(addr)
  {
    var h' := Apply(h, e);
    if e.Decrement? && h.conns[e.c].addr == addr {
      assert h'.conns[e.c] == Zeroed(addr);
    } else {
      var c :| c in h.conns && h.conns[c] == Zeroed(addr);
      assert h'.conns[c] == Zeroed(addr);
    }
  }

  lemma StepKeepsCount(h: Hub, e: Step, addr: Address)
    requires Possible(h, e) && CountExact(h, addr)
    ensures CountExact(Apply(h, e), addr)
  {
    StepMovesHolder(h, e, addr);
    var h' := Apply(h, e);
    if addr in h'.counts && h'.counts[addr] == 0 { StepKeepsZero(h, e, addr); }
  }

  lemma {:induction false} WithoutExact(cs: seq<ConnId>, c: ConnId)
    requires Distinct(cs)
    ensures forall x :: x in Without(cs, c) <==> x in cs && x != c
    ensures Distinct(Without(cs, c))
  {
    if cs != [] {
      var rest := Without(cs[1..], c);
      WithoutExact(cs[1..], c);
      assert cs == [cs[0]] + cs[1..];
      assert cs[0] !in cs[1..];
      assert forall i | 0 <= i < |rest| :: rest[i] in rest && rest[i] != cs[0];
    }
  }

  lemma StepMovesSubscriber(h: Hub, e: Step, token: Token)
    requires Possible(h, e)
    ensures var before, after := Subscribers(h, token), Subscribers(Apply(h, e), token);
            if e.Subscribe? && h.conns[e.c].token == token then e.c !in before && after == before + {e.c}
            else if e.LeaveList? && h.conns[e.c].token == token then after == before - {e.c}
            else after == before
  {
  }

  lemma StepKeepsList(h: Hub, e: Step, token: Token)
    requires Possible(h, e) && ListExact(h, token)
    ensures ListExact(Apply(h, e), token)
  {
    var h' := Apply(h, e);
    var cs := ListOf(h, token);
    StepMovesSubscriber(h, e, token);
    WithoutExact(cs, e.c);
    if e.Subscribe? && h.conns[e.c].token == token {
      assert e.c !in cs;
      assert forall i | 0 <= i < |cs| :: cs[i] in cs;
    }
    if token in h'.lists && ListOf(h', token) == [] {
      if e.LeaveList? && h.conns[e.c].token == token {
        assert h'.conns[e.c].LeftList?;
      } else {
        var c :| c in h.conns && h.conns[c].LeftList? && h.conns[c].token == token;
        assert h'.conns[c] == h.conns[c];
      }
    }
  }

  lemma StepKeepsExact(h: Hub, e: Step)
    requires Possible(h, e) && Exact(h)
    ensures Exact(Apply(h, e))
  {
    forall addr ensures CountExact(Apply(h, e), addr) { StepKeepsCount(h, e, addr); }
    forall token ensures ListExact(Apply(h, e), token) { StepKeepsList(h, e, token); }
  }

  predicate Run(h: Hub, es: seq<Step>)
    decreases |es|
  {
    es == [] || (Possible(h, es[0]) && Run(Apply(h, es[0]), es[1..]))
  }

  function After(h: Hub, es: seq<Step>): Hub
    requires Run(h, es)
    decreases |es|
  {
    if es == [] then h else After(Apply(h, es[0]), es[1..])
  }

  lemma {:induction false} RunKeepsExact(h: Hub, es: seq<Step>)
    requires Exact(h) && Run(h, es)
    ensures Exact(After(h, es))
    decreases |es|
  {
    if es != [] {
      StepKeepsExact(h, es[0]);
      RunKeepsExact(Apply(h, es[0]), es[1..]);
    }
  }

  /** In every interleaving each count is the number of connections holding a slot, at most 25,
      and zero only while a release is pending; each list is exactly the live subscribers. */
  lemma TablesAreExact(es: seq<Step>)
    requires Run(EMPTY, es)
    ensures Exact(After(EMPTY, es))
  {
    forall addr ensures CountExact(EMPTY, addr) { assert Holders(EMPTY, addr) == {}; }
    forall token ensures ListExact(EMPTY, token) {
      assert Subscribers(EMPTY, token) == {} && ListOf(EMPTY, token) == [];
    }
    RunKeepsExact(EMPTY, es);
  }

  /** The decrement never saturates and always finds its entry; a connection is turned away
      exactly when 25 others hold the address's slots. */
  lemma SlotsAreHonest(es: seq<Step>, e: Step)
    requires Run(EMPTY, es) && Possible(After(EMPTY, es), e)
    ensures var h := After(EMPTY, es);
            && (e.Decrement? ==> h.conns[e.c].addr in h.counts && h.counts[h.conns[e.c].addr] > 0)
            && (e.Reserve? ==> (Apply(h, e).conns[e.c].TurnedAway? <==> |Holders(h, e.addr)| == 25))
  {
    TablesAreExact(es);
    var h := After(EMPTY, es);
    if e.Decrement? {
      assert CountExact(h, h.conns[e.c].addr);
      assert e.c in Holders(h, h.conns[e.c].addr);
    } else if e.Reserve? {
      assert CountExact(h, e.addr);
    }
  }

  lemma FirstSubscribes(h: Hub, token: Token)
    requires ListExact(h, token)
    ensures ListOf(h, token) != [] ==> ListOf(h, token)[0] in Subscribers(h, token)
  {
  }

  /** When every connection has closed or was turned away, neither table keeps anything. */
  lemma NothingIsLeaked(es: seq<Step>)
    requires Run(EMPTY, es)
    requires forall c | c in After(EMPTY, es).conns ::
               After(EMPTY, es).conns[c].Closed? || After(EMPTY, es).conns[c].TurnedAway?
    ensures After(EMPTY, es).counts == map[] && After(EMPTY, es).lists == map[]
  {
    TablesAreExact(es);
    var h := After(EMPTY, es);
    forall addr ensures addr !in h.counts { assert CountExact(h, addr) && Holders(h, addr) == {}; }
    forall token ensures token !in h.lists {
      FirstSubscribes(h, token);
      assert Subscribers(h, token) == {};
    }
  }

  // ---------------------------------------------------------------- a connection's life

  lemma RunCons(h: Hub, e: Step, es: seq<Step>)
    requires Possible(h, e) && Run(Apply(h, e), es)
    ensures Run(h, [e] + es) && After(h, [e] + es) == After(Apply(h, e), es)
  {
    assert ([e] + es)[1..] == es;
  }

  lemma {:induction false} WithoutLast(cs: seq<ConnId>, c: ConnId)
    requires c !in cs
    ensures Without(cs + [c], c) == cs
  {
    if cs == [] {
      assert [c][1..] == [];
    } else {
      assert (cs + [c])[1..] == cs[1..] + [c];
      WithoutLast(cs[1..], c);
    }
  }

  /** Leaving the list, after the connection has joined as the last. */
  lemma LeavesTheList(h: Hub, c: ConnId)
    requires c in h.conns && h.conns[c].Live? && h.conns[c].token in h.lists && h.lists[h.conns[c].token] != []
    requires var cs := h.lists[h.conns[c].token]; cs[|cs| - 1] == c && c !in cs[..|cs| - 1]
    ensures var p := h.conns[c];
            var es := [LeaveList(c), DropEmptyList(c)];
            && Run(h, es) && After(h, es).counts == h.counts
            && After(h, es).conns == h.conns[c := ListDone(p.addr, p.token)]
            && ListOf(After(h, es), p.token) == h.lists[p.token][..|h.lists[p.token]| - 1]
            && (forall t | t != p.token :: ListOf(After(h, es), t) == ListOf(h, t))
  {
    var token := h.conns[c].token;
    var before := h.lists[token][..|h.lists[token]| - 1];
    assert h.lists[token] == before + [c];
    WithoutLast(before, c);
    var h1 := Apply(h, LeaveList(c));
    RunCons(h1, DropEmptyList(c), []);
    RunCons(h, LeaveList(c), [DropEmptyList(c)]);
    assert [LeaveList(c)] + [DropEmptyList(c)] == [LeaveList(c), DropEmptyList(c)];
    assert Apply(h1, DropEmptyList(c)).conns == h.conns[c := ListDone(h.conns[c].addr, token)];
  }

  /** Giving the slot back. */
  lemma GivesTheSlotBack(h: Hub, c: ConnId)
    requires c in h.conns && h.conns[c].ListDone? && h.conns[c].addr in h.counts && h.counts[h.conns[c].addr] > 0
    ensures var addr := h.conns[c].addr;
            var es := [Decrement(c)] + if h.counts[addr] == 1 then [DropZero(c)] else [];
            && Run(h, es) && After(h, es).lists == h.lists && After(h, es).conns == h.conns[c := Closed]
            && CountOf(After(h, es), addr) == h.counts[addr] - 1
            && (forall a | a != addr :: CountOf(After(h, es), a) == CountOf(h, a))
  {
    var h1 := Apply(h, Decrement(c));
    if h.counts[h.conns[c].addr] == 1 {
      RunCons(h1, DropZero(c), []);
      assert [DropZero(c)] + [] == [DropZero(c)];
      RunCons(h, Decrement(c), [DropZero(c)]);
      assert Apply(h1, DropZero(c)).conns == h.conns[c := Closed];
    } else {
      RunCons(h, Decrement(c), []);
    }
  }

  lemma {:induction false} RunConcat(h: Hub, es: seq<Step>, es': seq<Step>)
    requires Run(h, es) && Run(After(h, es), es')
    ensures Run(h, es + es') && After(h, es + es') == After(After(h, es), es')
    decreases |es|
  {
    if es == [] {
      assert es + es' == es';
    } else {
      assert (es + es')[1..] == es[1..] + es';
      RunConcat(Apply(h, es[0]), es[1..], es');
    }
  }

  /** Leaving the list and giving the slot back. */
  lemma LeavesAsItCame(h: Hub, c: ConnId, addr: Address, token: Token)
    requires c in h.conns && h.conns[c] == Live(addr, token) && addr in h.counts && h.counts[addr] > 0
    requires token in h.lists && h.lists[token] != [] && h.lists[token][|h.lists[token]| - 1] == c
    requires c !in h.lists[token][..|h.lists[token]| - 1]
    ensures var es := [LeaveList(c), DropEmptyList(c), Decrement(c)]
                      + if h.counts[addr] == 1 then [DropZero(c)] else [];
            && Run(h, es)
            && After(h, es).conns == h.conns[c := Closed]
            && CountOf(After(h, es), addr) == h.counts[addr] - 1
            && ListOf(After(h, es), token) == h.lists[token][..|h.lists[token]| - 1]
            && (forall a | a != addr :: CountOf(After(h, es), a) == CountOf(h, a))
            && (forall t | t != token :: ListOf(After(h, es), t) == ListOf(h, t))
  {
    LeavesTheList(h, c);
    var one := [LeaveList(c), DropEmptyList(c)];
    var h1 := After(h, one);
    GivesTheSlotBack(h1, c);
    var two := [Decrement(c)] + if h.counts[addr] == 1 then [DropZero(c)] else [];
    RunConcat(h, one, two);
    assert one + two == [LeaveList(c), DropEmptyList(c), Decrement(c)]
                        + if h.counts[addr] == 1 then [DropZero(c)] else [];
    assert h1.conns[c := Closed] == h.conns[c := Closed];
    var t := After(h1, two);
    forall a | a != addr ensures CountOf(t, a) == CountOf(h, a) {
      assert CountOf(t, a) == CountOf(h1, a) == CountOf(h, a);
    }
    forall x | x != token ensures ListOf(t, x) == ListOf(h, x) {
      assert ListOf(t, x) == ListOf(h1, x) == ListOf(h, x);
    }
  }

  /** Taking a slot and joining a list. */
  lemma JoinsAsLast(h: Hub, c: ConnId, addr: Address, token: Token)
    requires c !in h.conns && CountOf(h, addr) < 25
    ensures var es := [Reserve(c, addr, token), Subscribe(c)];
            && Run(h, es)
            && After(h, es).conns == h.conns[c := Live(addr, token)]
            && After(h, es).counts == h.counts[addr := CountOf(h, addr) + 1]
            && After(h, es).lists == h.lists[token := ListOf(h, token) + [c]]
  {
    var h1 := Apply(h, Reserve(c, addr, token));
    RunCons(h1, Subscribe(c), []);
    RunCons(h, Reserve(c, addr, token), [Subscribe(c)]);
    assert [Reserve(c, addr, token)] + [Subscribe(c)] == [Reserve(c, addr, token), Subscribe(c)];
    assert h1.conns[c := Live(addr, token)] == h.conns[c := Live(addr, token)];
  }

  predicate SameTables(h: Hub, h': Hub) {
    && (forall a | a in h.counts.Keys + h'.counts.Keys :: CountOf(h', a) == CountOf(h, a))
    && (forall x | x in h.lists.Keys + h'.lists.Keys :: ListOf(h', x) == ListOf(h, x))
  }

  lemma BackToTheSameTables(h: Hub, h': Hub, t: Hub, addr: Address, token: Token)
    requires CountOf(t, addr) == CountOf(h, addr) && ListOf(t, token) == ListOf(h, token)
    requires h'.counts == h.counts[addr := CountOf(h', addr)] && h'.lists == h.lists[token := ListOf(h', token)]
    requires forall a | a != addr :: CountOf(t, a) == CountOf(h', a)
    requires forall x | x != token :: ListOf(t, x) == ListOf(h', x)
    ensures SameTables(h, t)
  {
    forall a | a in h.counts.Keys + t.counts.Keys ensures CountOf(t, a) == CountOf(h, a) {
      if a != addr { assert CountOf(t, a) == CountOf(h', a); }
    }
    forall x | x in h.lists.Keys + t.lists.Keys ensures ListOf(t, x) == ListOf(h, x) {
      if x != token { assert ListOf(t, x) == ListOf(h', x); }
    }
  }

  function Opening(c: ConnId, addr: Address, token: Token): seq<Step> {
    [Reserve(c, addr, token), Subscribe(c)]
  }

  /** The last one out also drops the count. */
  function Closing(c: ConnId, last: bool): seq<Step> {
    [LeaveList(c), DropEmptyList(c), Decrement(c)] + if last then [DropZero(c)] else []
  }

  lemma RoundTrip(h: Hub, c: ConnId, addr: Address, token: Token)
    requires c !in h.conns && CountOf(h, addr) < 25 && c !in ListOf(h, token)
    ensures var open, close := Opening(c, addr, token), Closing(c, CountOf(h, addr) == 0);
            && Run(h, open) && Run(After(h, open), close)
            && CountOf(After(h, open), addr) == CountOf(h, addr) + 1
            && ListOf(After(h, open), token) == ListOf(h, token) + [c]
            && After(After(h, open), close).conns == h.conns[c := Closed]
            && SameTables(h, After(After(h, open), close))
  {
    JoinsAsLast(h, c, addr, token);
    var h2 := After(h, Opening(c, addr, token));
    assert h2.lists[token][..|h2.lists[token]| - 1] == ListOf(h, token);
    LeavesAsItCame(h2, c, addr, token);
    assert h2.conns[c := Closed] == h.conns[c := Closed];
    BackToTheSameTables(h, h2, After(h2, Closing(c, CountOf(h, addr) == 0)), addr, token);
  }

  lemma NewcomerIsNowhere(h: Hub, c: ConnId, addr: Address, token: Token)
    requires CountExact(h, addr) && ListExact(h, token) && c !in h.conns && |Holders(h, addr)| < 25
    ensures CountOf(h, addr) < 25 && c !in ListOf(h, token)
  {
    assert c !in Subscribers(h, token);
  }

  /** A connection of an address with a free slot gets it, joins its list as the last, and when it
      closes leaves every count and every list as it found them. */
  lemma ConnectionComesAndGoes(es: seq<Step>, c: ConnId, addr: Address, token: Token)
    requires Run(EMPTY, es) && c !in After(EMPTY, es).conns && |Holders(After(EMPTY, es), addr)| < 25
    ensures var h := After(EMPTY, es);
            var open, close := Opening(c, addr, token), Closing(c, CountOf(h, addr) == 0);
            && Run(h, open) && Run(After(h, open), close)
            && CountOf(After(h, open), addr) == CountOf(h, addr) + 1
            && ListOf(After(h, open), token) == ListOf(h, token) + [c]
            && After(After(h, open), close).conns == h.conns[c := Closed]
            && SameTables(h, After(After(h, open), close))
  {
    TablesAreExact(es);
    NewcomerIsNowhere(After(EMPTY, es), c, addr, token);
    RoundTrip(After(EMPTY, es), c, addr, token);
  }

  // ---------------------------------------------------------------- the shared tables

  /** The two shared tables; every method is one table access of one connection. */
  class Subscriptions {
    var connections: map<Address, nat>
    var senders: map<Token, seq<ConnId>>
    ghost var conns: map<ConnId, Phase>

    ghost function View(): Hub
      reads this
    {
      Hub(connections, senders, conns)
    }

    constructor ()
      ensures View() == EMPTY
    {
      connections, senders, conns := map[], map[], map[];
    }

    method TryReserve(c: ConnId, addr: Address, ghost token: Token) returns (ok: bool)
      requires Possible(View(), Reserve(c, addr, token))
      modifies this
      ensures View() == Apply(old(View()), Reserve(c, addr, token))
      ensures ok <==> conns[c].Reserved?
    {
      var count := if addr in connections then connections[addr] else 0;
      if count >= MAX_ANONYMOUS_CONNECTIONS_PER_IP {
        conns := conns[c := TurnedAway];
        return false;
      }
      connections := connections[addr := count + 1];
      conns := conns[c := Reserved(addr, token)];
      ok := true;
    }

    method Join(c: ConnId, token: Token)
      requires Possible(View(), Subscribe(c)) && conns[c].token == token
      modifies this
      ensures View() == Apply(old(View()), Subscribe(c))
    {
      senders := senders[token := (if token in senders then senders[token] else []) + [c]];
      conns := conns[c := Live(conns[c].addr, token)];
    }

    method Leave(c: ConnId, token: Token)
      requires Possible(View(), LeaveList(c)) && conns[c].token == token
      modifies this
      ensures View() == Apply(old(View()), LeaveList(c))
    {
      if token in senders {
        senders := senders[token := Without(senders[token], c)];
      }
      conns := conns[c := LeftList(conns[c].addr, token)];
    }

    method RemoveIfEmpty(c: ConnId, token: Token)
      requires Possible(View(), DropEmptyList(c)) && conns[c].token == token
      modifies this
      ensures View() == Apply(old(View()), DropEmptyList(c))
    {
      if token in senders && senders[token] == [] {
        senders := senders - {token};
      }
      conns := conns[c := ListDone(conns[c].addr, token)];
    }

    /** The first half of `release`; `empty` decides whether there is a second. */
    method ReleaseSlot(c: ConnId, addr: Address) returns (empty: bool)
      requires Possible(View(), Decrement(c)) && conns[c].addr == addr
      modifies this
      ensures View() == Apply(old(View()), Decrement(c))
      ensures empty <==> conns[c].Zeroed?
    {
      empty := false;
      if addr in connections {
        connections := connections[addr := SaturatingPred(connections[addr])];
        empty := connections[addr] == 0;
      }
      conns := conns[c := if empty then Zeroed(addr) else Closed];
    }

    method RemoveIfZero(c: ConnId, addr: Address)
      requires Possible(View(), DropZero(c)) && conns[c].addr == addr
      modifies this
      ensures View() == Apply(old(View()), DropZero(c))
    {
      if addr in connections && connections[addr] == 0 {
        connections := connections - {addr};
      }
      conns := conns[c := Closed];
    }
  }
}
