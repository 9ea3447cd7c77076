/** Whole runs of the address manager: whatever is called, Check_ has nothing to say. */
module AddrRun {
  import opened AddrTables
  import opened AddrMan
  import AddrCheck
  import AddrStore

  /** An address offered, whether it is routable, and the lots Add_ draws for it. */
  datatype Offer = Offer(addr: Address, routable: bool, lots: Lots)

  datatype Call =
    | Add(offers: seq<Offer>, source: NetAddr, penalty: int, now: int)
    | Good(s: Service, now: int, lots: Lots)
    | Attempt(s: Service, now: int)
    | Connected(s: Service, now: int)
    | GetAddr
    | Reload

  /** The clock reading that goes with the call is one Check_ can live with. */
  predicate Timely(c: Call) {
    (c.Good? ==> c.now > 0) && (c.Attempt? ==> c.now >= 0)
  }

  /** Entries keep the times Check_ looks at; new ones have none. */
  ghost predicate TimesKept(info: map<int, Info>, other: map<int, Info>) {
    forall id :: id in other ==> SameTimes(info, id, other[id])
  }

  predicate SameTimes(info: map<int, Info>, id: int, i: Info) {
    if id in info then
      i.lastTry == info[id].lastTry && i.lastSuccess == info[id].lastSuccess && i.inTried == info[id].inTried
    else i.lastTry == 0 && i.lastSuccess == 0 && !i.inTried
  }

  lemma KeptStamped(t: Tables, u: Tables)
    requires Stamped(t) && TimesKept(t.info, u.info)
    ensures Stamped(u)
  {
    forall id | id in u.info ensures SameTimes(t.info, id, u.info[id]) {}
  }

  lemma PreparedTimes(t: Tables, addr: Address, source: NetAddr, penalty: int, now: int)
    requires addr.service.ip in t.byAddr ==> t.byAddr[addr.service.ip] in t.info
    requires t.idCount !in t.info
    ensures TimesKept(t.info, Prepared(t, addr, source, penalty, now).info)
  {
    hide Time32;
  }

  lemma ReleasedTimes(t: Tables, b: nat, id: int)
    requires b < |t.untried| && id in t.info && 0 <= t.info[id].pos < |t.random|
    requires t.random[t.info[id].pos] in t.info && t.random[|t.random| - 1] in t.info
    ensures forall x :: x in Released(t, b, id).info ==> x in t.info && SameTimes(t.info, x, Released(t, b, id).info[x])
  {
  }

  lemma AddsStamped(t: Tables, u: Tables, h: Hasher, addr: Address, source: NetAddr, penalty: int, now: int, lots: Lots,
                    fate: Fate)
    requires Consistent(t, h, NONE) && Stamped(t) && Adds(t, u, h, addr, source, penalty, now, lots, fate)
    ensures Stamped(u)
  {
    assert t.idCount !in t.info;
    hide Consistent, Stamped, NewBucket, Time32, Released, Prepared, Asks, Dropped;
    if fate.Stored? {
      var p := Prepared(t, addr, source, penalty, now);
      PreparedTimes(t, addr, source, penalty, now);
      KeptStamped(t, p);
      if fate.evicted.Some? {
        ReleasedTimes(p, NewBucket(h, p.info[EntryId(t, addr)], source), fate.evicted.value);
      }
      KeptStamped(p, u);
    } else {
      KeptStamped(t, u);
    }
  }

  /** What one offer does; a ghost trace of such steps is what the vector form of Add leaves behind. */
  ghost predicate Taken(t: Tables, u: Tables, h: Hasher, o: Offer, source: NetAddr, penalty: int, now: int,
                        fate: Fate) {
    && Adds(t, u, h, o.addr, source, penalty, now, o.lots, fate)
    && (fate == Ignored <==> !o.routable)
  }

  predicate NewIn(t: Tables, o: Offer) {
    o.routable && o.addr.service.ip !in t.byAddr
  }

  ghost predicate TakenAll(states: seq<Tables>, h: Hasher, offers: seq<Offer>, source: NetAddr, penalty: int, now: int,
                           fates: seq<Fate>) {
    && |states| == |fates| + 1 && |fates| <= |offers|
    && forall i :: 0 <= i < |fates| ==> Taken(states[i], states[i + 1], h, offers[i], source, penalty, now, fates[i])
  }

  lemma TakenSnoc(states: seq<Tables>, h: Hasher, offers: seq<Offer>, source: NetAddr, penalty: int, now: int,
                  fates: seq<Fate>, u: Tables, fate: Fate)
    requires TakenAll(states, h, offers, source, penalty, now, fates) && |fates| < |offers|
    requires Taken(states[|fates|], u, h, offers[|fates|], source, penalty, now, fate)
    ensures TakenAll(states + [u], h, offers, source, penalty, now, fates + [fate])
  {
    hide Taken;
    var more, ends := states + [u], fates + [fate];
    forall i | 0 <= i < |ends| ensures Taken(more[i], more[i + 1], h, offers[i], source, penalty, now, ends[i]) {
      if i < |fates| {
        assert Taken(states[i], states[i + 1], h, offers[i], source, penalty, now, fates[i]);
      }
    }
  }

  lemma NoneTaken(t: Tables, h: Hasher, offers: seq<Offer>, source: NetAddr, penalty: int, now: int)
    ensures TakenAll([t], h, offers, source, penalty, now, [])
  {
  }

  lemma TakenOne(t: Tables, u: Tables, h: Hasher, o: Offer, source: NetAddr, penalty: int, now: int, fate: Fate)
    requires Adds(t, u, h, o.addr, source, penalty, now, o.lots, fate) && (fate == Ignored <==> !o.routable)
    ensures Taken(t, u, h, o, source, penalty, now, fate)
  {
  }

  /** The vector form of Add: every address is offered in turn; with one address it is the plain form. */
  method AddAll(m: AddrMan, offers: seq<Offer>, source: NetAddr, penalty: int, now: int)
    returns (added: bool, ghost states: seq<Tables>, ghost fates: seq<Fate>)
    requires m.Valid()
    modifies m
    ensures m.Valid() && (old(Stamped(m.T())) ==> Stamped(m.T()))
    ensures TakenAll(states, m.h, offers, source, penalty, now, fates) && |fates| == |offers|
    ensures states[0] == old(m.T()) && states[|offers|] == m.T()
    ensures added <==> exists i :: 0 <= i < |offers| && NewIn(states[i], offers[i])
  {
    hide Consistent, Adds, Stamped, Taken, TakenAll;
    var count := 0;
    states, fates := [m.T()], [];
    NoneTaken(m.T(), m.h, offers, source, penalty, now);
    for i := 0 to |offers|
      invariant m.Valid() && (old(Stamped(m.T())) ==> Stamped(m.T()))
      invariant |fates| == i && |states| == i + 1 && states[0] == old(m.T()) && states[i] == m.T()
      invariant TakenAll(states, m.h, offers, source, penalty, now, fates)
      invariant count >= 0 && (count > 0 <==> exists k :: 0 <= k < i && NewIn(states[k], offers[k]))
    {
      ghost var t, before := m.T(), states;
      var isNew;
      ghost var fate;
      isNew, fate := m.Add(offers[i].addr, source, penalty, now, offers[i].routable, offers[i].lots);
      TakenOne(t, m.T(), m.h, offers[i], source, penalty, now, fate);
      if Stamped(t) {
        AddsStamped(t, m.T(), m.h, offers[i].addr, source, penalty, now, offers[i].lots, fate);
      }
      TakenSnoc(states, m.h, offers, source, penalty, now, fates, m.T(), fate);
      states, fates := states + [m.T()], fates + [fate];
      assert isNew <==> NewIn(states[i], offers[i]);
      assert forall k :: 0 <= k < i ==> states[k] == before[k];
      if isNew {
        count := count + 1;
      }
    }
    added := count > 0;
  }

  /** Reloading forgets the last tries and keeps the other times. */
  lemma ReloadStamped(t: Tables, h: Hasher, u: Tables)
    requires Consistent(t, h, NONE) && Consistent(u, h, NONE) && AddrStore.Isomorphic(t, u) && Stamped(t)
    ensures Stamped(u)
  {
    hide Consistent, AddrStore.NewId, Homes;
    forall r | r in u.info
      ensures u.info[r].lastTry >= 0 && u.info[r].lastSuccess >= 0 && (u.info[r].inTried ==> u.info[r].lastSuccess != 0)
    {
      NamedEntry(u, h, r);
      var a := Ip(u, r);
      var x := t.byAddr[a];
      assert AddrStore.Counterpart(t, u, x, AddrStore.NewId(t, x));
    }
  }

  lemma NamedEntry(u: Tables, h: Hasher, r: int)
    requires Consistent(u, h, NONE) && r in u.info
    ensures Ip(u, r) in u.byAddr && u.byAddr[Ip(u, r)] == r
  {
    assert Named1(u.info, u.byAddr, r);
  }

  /** The manager written to a file and read back in its place, with the same key. */
  method SaveAndLoad(m: AddrMan)
    requires m.Valid()
    modifies m
    ensures m.Valid() && AddrStore.Isomorphic(old(m.T()), m.T())
  {
    hide Consistent, AddrStore.Isomorphic;
    var t := Tables(m.idCount, m.info, m.byAddr, m.random, m.tried, m.untried, m.triedCount, m.untriedCount);
    var u, lost := AddrStore.Reload(t, m.h);
    m.idCount, m.info, m.byAddr, m.random := u.idCount, u.info, u.byAddr, u.random;
    m.tried, m.untried, m.triedCount, m.untriedCount := u.tried, u.untried, u.triedCount, u.untriedCount;
    assert m.T() == u;
  }

  /** vRandom in another order, and nothing else. */
  ghost predicate Reordered(t: Tables, u: Tables) {
    && u.byAddr == t.byAddr && u.tried == t.tried && u.untried == t.untried
    && u.info.Keys == t.info.Keys && (forall id :: id in u.info ==> u.info[id] == t.info[id].(pos := u.info[id].pos))
    && multiset(u.random) == multiset(t.random)
  }

  /** What a call does to the tables. */
  ghost predicate Does(t: Tables, u: Tables, h: Hasher, c: Call) {
    match c
    case Add(offers, source, penalty, now) =>
      exists states, fates ::
        && TakenAll(states, h, offers, source, penalty, now, fates) && |fates| == |offers|
        && states[0] == t && states[|offers|] == u
    case Good(s, now, lots) =>
      if !Known(t, s) then u == t
      else var id := t.byAddr[s.ip];
        exists move :: Moves(Rewritten(t, id, Succeeded(t.info[id], now)), u, h, id, lots, move)
    case Attempt(s, now) =>
      if !Known(t, s) then u == t
      else var id := t.byAddr[s.ip];
        u == Rewritten(t, id, t.info[id].(lastTry := now, attempts := t.info[id].attempts + 1))
    case Connected(s, now) =>
      if !Known(t, s) then u == t
      else var id, i := t.byAddr[s.ip], t.info[t.byAddr[s.ip]];
        u == Rewritten(t, id, if now - i.addr.time > 20 * 60 then i.(addr := i.addr.(time := Time32(now))) else i)
    case GetAddr => Reordered(t, u)
    case Reload => AddrStore.Isomorphic(t, u)
  }

  ghost predicate DoesAll(states: seq<Tables>, h: Hasher, calls: seq<Call>) {
    && 1 <= |states| <= |calls| + 1
    && forall i :: 0 <= i < |states| - 1 ==> Does(states[i], states[i + 1], h, calls[i])
  }

  lemma DoesSnoc(states: seq<Tables>, h: Hasher, calls: seq<Call>, u: Tables)
    requires DoesAll(states, h, calls) && |states| <= |calls|
    requires Does(states[|states| - 1], u, h, calls[|states| - 1])
    ensures DoesAll(states + [u], h, calls)
  {
    hide Does;
    var more := states + [u];
    forall i | 0 <= i < |more| - 1 ensures Does(more[i], more[i + 1], h, calls[i]) {
      if i < |states| - 1 {
        assert Does(states[i], states[i + 1], h, calls[i]);
      }
    }
  }

  method Perform(m: AddrMan, c: Call)
    requires m.Valid()
    modifies m
    ensures m.Valid() && Does(old(m.T()), m.T(), m.h, c)
    ensures old(Stamped(m.T())) && Timely(c) ==> Stamped(m.T())
  {
    hide Consistent, TakenAll, Moves, Rewritten, AddrStore.Isomorphic;
    ghost var t := m.T();
    match c
    case Add(offers, source, penalty, now) =>
      var added;
      ghost var states, fates;
      added, states, fates := AddAll(m, offers, source, penalty, now);
    case Good(s, now, lots) =>
      ghost var hit, move := m.Good(s, now, lots);
    case Attempt(s, now) =>
      ghost var hit := m.Attempt(s, now);
    case Connected(s, now) =>
      ghost var hit := m.Connected(s, now);
    case GetAddr =>
      var out := m.GetAddr();
    case Reload =>
      SaveAndLoad(m);
      if Stamped(t) {
        ReloadStamped(t, m.h, m.T());
      }
  }

  /** Any sequence of calls on a new manager leaves tables that Check_ passes, with every entry in its place. */
  method Run(h: Hasher, calls: seq<Call>) returns (m: AddrMan, ghost states: seq<Tables>)
    ensures fresh(m) && m.h == h && m.Valid()
    ensures DoesAll(states, h, calls) && |states| == |calls| + 1
    ensures states[0].byAddr == map[] && states[0].random == [] && states[|calls|] == m.T()
    ensures (forall i :: 0 <= i < |calls| ==> Timely(calls[i])) ==>
              AddrCheck.Checks(m.T()) && AddrCheck.Placed(m.T(), h)
  {
    hide Consistent, Stamped, AddrCheck.Checks, AddrCheck.Placed, Does;
    m := new AddrMan(h);
    states := [m.T()];
    assert DoesAll(states, h, calls);
    hide DoesAll;
    for i := 0 to |calls|
      invariant m.Valid() && m.h == h
      invariant |states| == i + 1 && states[i] == m.T() && DoesAll(states, h, calls)
      invariant states[0].byAddr == map[] && states[0].random == []
      invariant (forall j :: 0 <= j < i ==> Timely(calls[j])) ==> Stamped(m.T())
    {
      Perform(m, calls[i]);
      DoesSnoc(states, h, calls, m.T());
      states := states + [m.T()];
    }
    AddrCheck.CheckIffConsistent(m.T(), h);
  }
}
