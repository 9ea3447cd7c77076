/** The key pool: reserving, keeping and returning keys. */
module KeyPool {
  import opened Bytes

  /** A key pair, known by its public key. */
  type Key = nat

  /** setKeyPool, the pool database, and every key the wallet has generated. */
  datatype Pool = Pool(indexes: set<int>, db: map<int, Key>, issued: set<Key>)

  // The end of an ordered set

  predicate IsMax(s: set<int>, m: int) {
    m in s && forall x :: x in s ==> x <= m
  }

  lemma {:induction false} MaxExists(s: set<int>) returns (m: int)
    requires s != {}
    ensures IsMax(s, m)
    decreases |s|
  {
    var x := Pick(s);
    m := x;
    if |s - {x}| > 0 {
      var n := MaxExists(s - {x});
      m := if x > n then x else n;
    }
    forall y | y in s ensures m >= y {
      assert y == x || y in s - {x};
    }
  }

  /** The index a new key gets. */
  ghost predicate IsEnd(s: set<int>, e: int) {
    if s == {} then e == 1 else IsMax(s, e - 1)
  }

  /** One generated key entered under an index. */
  function Entered(p: Pool, e: int, k: Key): Pool {
    Pool(p.indexes + {e}, p.db[e := k], p.issued + {k})
  }

  /** Keys were generated and entered one after another, each at the end. */
  ghost predicate Filled(p: Pool, q: Pool, n: nat)
    decreases n
  {
    if n == 0 then q == p
    else exists e, k :: IsEnd(p.indexes, e) && k !in p.issued && Filled(Entered(p, e, k), q, n - 1)
  }

  lemma {:induction false} FilledSnoc(p: Pool, q: Pool, n: nat, e: int, k: Key)
    requires Filled(p, q, n) && IsEnd(q.indexes, e) && k !in q.issued
    ensures Filled(p, Entered(q, e, k), n + 1)
    decreases n
  {
    hide IsEnd, Entered;
    if n == 0 {
      assert Filled(Entered(p, e, k), Entered(q, e, k), 0);
    } else {
      var d, j :| IsEnd(p.indexes, d) && j !in p.issued && Filled(Entered(p, d, j), q, n - 1);
      FilledSnoc(Entered(p, d, j), q, n - 1, e, k);
      assert Filled(Entered(p, d, j), Entered(q, e, k), n);
    }
  }

  /** What TopUpKeyPool does for a -keypool setting. */
  ghost predicate ToppedUp(p: Pool, q: Pool, target: nat) {
    Filled(p, q, if |p.indexes| < target + 1 then target + 1 - |p.indexes| else 0)
  }

  /** Keys were added: all new, each under an index behind those before, and nothing else changed. */
  ghost predicate Extends(p: Pool, q: Pool, n: nat) {
    && |q.indexes| == |p.indexes| + n && p.indexes <= q.indexes && |q.issued| == |p.issued| + n && p.issued <= q.issued
    && (forall i, j :: i in q.indexes && i !in p.indexes && j in p.indexes ==> j < i)
    && (forall i :: i in q.indexes && i !in p.indexes ==> AddedAt(p, q, i))
    && (forall i :: i in p.db && (i in q.indexes ==> i in p.indexes) ==> i in q.db && q.db[i] == p.db[i])
  }

  predicate AddedAt(p: Pool, q: Pool, i: int) {
    i in q.db && q.db[i] in q.issued && q.db[i] !in p.issued
  }

  lemma ExtendsMore(p: Pool, e: int, k: Key, q: Pool, n: nat)
    requires IsEnd(p.indexes, e) && k !in p.issued && Extends(Entered(p, e, k), q, n)
    ensures Extends(p, q, n + 1)
  {
    var m := Entered(p, e, k);
    assert e !in p.indexes && forall j :: j in p.indexes ==> j < e;
    assert q.db[e] == k;
    forall i | i in q.indexes && i !in p.indexes ensures AddedAt(p, q, i) && forall j :: j in p.indexes ==> j < i {
      if i != e {
        assert i !in m.indexes && AddedAt(m, q, i);
        assert forall j :: j in p.indexes ==> j in m.indexes;
      }
    }
  }

  lemma ExtendsSelf(p: Pool)
    ensures Extends(p, p, 0)
  {
  }

  lemma {:induction false} FilledAdds(p: Pool, q: Pool, n: nat)
    requires Filled(p, q, n)
    ensures Extends(p, q, n)
    decreases n
  {
    hide Extends, IsEnd, Entered;
    if n == 0 {
      ExtendsSelf(p);
    } else {
      var e, k :| IsEnd(p.indexes, e) && k !in p.issued && Filled(Entered(p, e, k), q, n - 1);
      FilledAdds(Entered(p, e, k), q, n - 1);
      ExtendsMore(p, e, k, q, n - 1);
    }
  }

  /** A pool that was topped up has one key more than the setting, or as many as before if those were more. */
  lemma ToppedUpSize(p: Pool, q: Pool, target: nat)
    requires ToppedUp(p, q, target)
    ensures |q.indexes| >= target + 1 && |q.indexes| >= |p.indexes|
    ensures |q.indexes| == target + 1 || q == p
  {
    FilledAdds(p, q, if |p.indexes| < target + 1 then target + 1 - |p.indexes| else 0);
  }

  /** What ReserveKeyFromKeyPool does once the pool is topped up. */
  ghost predicate Taken(p: Pool, q: Pool, index: int, key: Option<Key>) {
    if p.indexes == {} then q == p && index == -1 && key == None
    else
      && IsMin(p.indexes, index) && index in p.db && key == Some(p.db[index])
      && q == p.(indexes := p.indexes - {index})
  }

  /** ReserveKeyFromKeyPool: a locked wallet is not topped up. */
  ghost predicate Reserved(p: Pool, q: Pool, target: nat, locked: bool, index: int, key: Option<Key>) {
    exists mid :: (if locked then mid == p else ToppedUp(p, mid, target)) && Taken(mid, q, index, key)
  }

  // Reservations

  datatype Held = Held(index: int, key: Key)

  /** The pool, the reservations by holder, and the keys that were kept. */
  datatype System = System(pool: Pool, live: map<int, Held>, kept: set<Key>)

  /** Every pooled key is stored under its index, no key twice, and all of them are the wallet's own. */
  ghost predicate Stocked(p: Pool) {
    && p.indexes <= p.db.Keys
    && (forall i :: i in p.db ==> i >= 1 && p.db[i] in p.issued)
    && (forall i, j :: i in p.db && j in p.db && p.db[i] == p.db[j] ==> i == j)
  }

  /** A reserved index is out of the pool, still in the database, and below the end of the pool. */
  ghost predicate Out(p: Pool, r: Held) {
    && r.index in p.db && p.db[r.index] == r.key && r.index !in p.indexes
    && exists m :: m in p.indexes && r.index < m
  }

  ghost predicate Inv(s: System) {
    && Stocked(s.pool)
    && (forall h :: h in s.live ==> Out(s.pool, s.live[h]))
    && (forall g, h :: g in s.live && h in s.live && s.live[g].index == s.live[h].index ==> g == h)
    && (forall i :: i in s.pool.db ==> i in s.pool.indexes || exists h :: h in s.live && s.live[h].index == i)
    && s.kept <= s.pool.issued && (forall i :: i in s.pool.db ==> s.pool.db[i] !in s.kept)
  }

  lemma BelowEnd(s: System, e: int, i: int)
    requires Inv(s) && IsEnd(s.pool.indexes, e) && i in s.pool.db
    ensures i < e
  {
    if i !in s.pool.indexes {
      var h :| h in s.live && s.live[h].index == i;
      assert Out(s.pool, s.live[h]);
    }
  }

  /** A new key goes where nothing is. */
  lemma EndIsFree(s: System, e: int)
    requires Inv(s) && IsEnd(s.pool.indexes, e)
    ensures e !in s.pool.db && e !in s.pool.indexes && e >= 1
  {
    forall i | i in s.pool.db ensures i < e { BelowEnd(s, e, i); }
  }

  lemma EnterKeeps(s: System, e: int, k: Key)
    requires Inv(s) && IsEnd(s.pool.indexes, e) && k !in s.pool.issued
    ensures Inv(s.(pool := Entered(s.pool, e, k))) && |Entered(s.pool, e, k).indexes| == |s.pool.indexes| + 1
  {
    EndIsFree(s, e);
    var t := s.(pool := Entered(s.pool, e, k));
    forall h | h in t.live ensures Out(t.pool, t.live[h]) {
      assert Out(s.pool, s.live[h]);
      var m :| m in s.pool.indexes && s.live[h].index < m;
      assert m in t.pool.indexes;
    }
    forall i | i in t.pool.db ensures i in t.pool.indexes || exists h :: h in t.live && t.live[h].index == i {
      if i != e && i !in s.pool.indexes {
        assert i in s.pool.db;
        var h :| h in s.live && s.live[h].index == i;
        assert h in t.live && t.live[h].index == i;
      }
    }
  }

  lemma {:induction false} FillKeeps(s: System, q: Pool, n: nat)
    requires Inv(s) && Filled(s.pool, q, n)
    ensures Inv(s.(pool := q)) && |q.indexes| == |s.pool.indexes| + n
    decreases n
  {
    hide Inv, IsEnd, Entered;
    if n > 0 {
      var e, k :| IsEnd(s.pool.indexes, e) && k !in s.pool.issued && Filled(Entered(s.pool, e, k), q, n - 1);
      EnterKeeps(s, e, k);
      FillKeeps(s.(pool := Entered(s.pool, e, k)), q, n - 1);
    }
  }

  /** What taking the oldest key leads to. */
  function WithTaken(s: System, h: int, q: Pool, index: int, key: Key): System {
    s.(pool := q, live := s.live[h := Held(index, key)])
  }

  /** Every reservation is still below the end. */
  lemma TakeOut(s: System, h: int, q: Pool, index: int, key: Key, g: int)
    requires Inv(s) && Taken(s.pool, q, index, Some(key)) && |s.pool.indexes| >= 2
    requires g == h || g in s.live
    ensures Out(q, if g == h then Held(index, key) else s.live[g])
  {
    var m := MaxExists(s.pool.indexes);
    TwoEnds(s.pool.indexes, index, m);
    assert m in q.indexes;
    if g != h {
      assert Out(s.pool, s.live[g]);
    }
  }

  lemma TakeKeeps(s: System, h: int, q: Pool, index: int, key: Key)
    requires Inv(s) && h !in s.live && Taken(s.pool, q, index, Some(key)) && |s.pool.indexes| >= 2
    ensures Inv(WithTaken(s, h, q, index, key))
  {
    var t := WithTaken(s, h, q, index, key);
    assert Stocked(q);
    hide Stocked;
    forall g | g in t.live ensures Out(t.pool, t.live[g]) {
      TakeOut(s, h, q, index, key, g);
    }
    forall f, g | f in t.live && g in t.live && t.live[f].index == t.live[g].index ensures f == g {
      if f in s.live { assert Out(s.pool, s.live[f]); }
      if g in s.live { assert Out(s.pool, s.live[g]); }
    }
    forall i | i in t.pool.db ensures i in t.pool.indexes || exists g :: g in t.live && t.live[g].index == i {
      if i == index {
        assert t.live[h].index == i;
      } else if i !in s.pool.indexes {
        var g :| g in s.live && s.live[g].index == i;
        assert t.live[g].index == i;
      }
    }
  }

  lemma TwoEnds(s: set<int>, a: int, b: int)
    requires |s| >= 2 && IsMin(s, a) && IsMax(s, b)
    ensures a < b
  {
    assert |s - {a}| >= 1;
    var x := Pick(s - {a});
  }

  /** The last key of the pool must not be taken: exactly then the end of the pool is lost. */
  lemma TakeKeepsIff(s: System, h: int, q: Pool, index: int, key: Key)
    requires Inv(s) && h !in s.live && Taken(s.pool, q, index, Some(key))
    ensures Inv(WithTaken(s, h, q, index, key)) <==> |s.pool.indexes| != 1
  {
    assert |s.pool.indexes| == |q.indexes| + 1;
    if |s.pool.indexes| == 1 {
      var t := WithTaken(s, h, q, index, key);
      assert q.indexes == {};
      assert h in t.live && !Out(t.pool, t.live[h]);
    } else {
      TakeKeeps(s, h, q, index, key);
    }
  }

  /** Reserving, for every setting and lock state: harmless unless it empties the pool. */
  lemma ReserveKeeps(s: System, h: int, mid: Pool, q: Pool, target: nat, locked: bool, index: int, key: Option<Key>)
    requires Inv(s) && h !in s.live && Taken(mid, q, index, key)
    requires if locked then mid == s.pool else ToppedUp(s.pool, mid, target)
    ensures key == None ==> Inv(s.(pool := q))
    ensures key != None ==> (Inv(WithTaken(s, h, q, index, key.value)) <==>
                             if locked then |s.pool.indexes| != 1 else target >= 1 || |s.pool.indexes| >= 2)
  {
    hide Inv;
    if !locked {
      FillKeeps(s, mid, if |s.pool.indexes| < target + 1 then target + 1 - |s.pool.indexes| else 0);
    } else {
      assert s.(pool := mid) == s;
    }
    if key != None {
      TakeKeepsIff(s.(pool := mid), h, q, index, key.value);
      assert WithTaken(s.(pool := mid), h, q, index, key.value) == WithTaken(s, h, q, index, key.value);
      assert |mid.indexes| >= 1;
    }
  }

  /** KeepKey */
  function Kept(s: System, h: int): System
    requires h in s.live
  {
    var r := s.live[h];
    System(s.pool.(db := s.pool.db - {r.index}), s.live - {h}, s.kept + {r.key})
  }

  /** Removing an index that is neither pooled nor reserved by another. */
  lemma OutWithout(p: Pool, index: int, r: Held)
    requires Out(p, r) && r.index != index
    ensures Out(p.(db := p.db - {index}), r)
  {
  }

  lemma KeepKeeps(s: System, h: int)
    requires Inv(s) && h in s.live
    ensures Inv(Kept(s, h))
  {
    var t, r := Kept(s, h), s.live[h];
    assert Out(s.pool, r);
    assert Stocked(t.pool);
    forall g | g in t.live ensures Out(t.pool, t.live[g]) {
      OutWithout(s.pool, r.index, s.live[g]);
    }
    hide Stocked, Out;
    forall i | i in t.pool.db ensures i in t.pool.indexes || exists g :: g in t.live && t.live[g].index == i {
      if i !in s.pool.indexes {
        var g :| g in s.live && s.live[g].index == i;
        assert g in t.live;
      }
    }
    assert forall i :: i in t.pool.db ==> t.pool.db[i] !in t.kept by { KeptAlone(s, h); }
  }

  lemma KeptAlone(s: System, h: int)
    requires Inv(s) && h in s.live
    ensures forall i :: i in Kept(s, h).pool.db ==> Kept(s, h).pool.db[i] !in Kept(s, h).kept
  {
    assert Out(s.pool, s.live[h]);
  }

  /** ReturnKey */
  function Returned(s: System, h: int): System
    requires h in s.live
  {
    System(s.pool.(indexes := s.pool.indexes + {s.live[h].index}), s.live - {h}, s.kept)
  }

  lemma ReturnKeeps(s: System, h: int)
    requires Inv(s) && h in s.live
    ensures Inv(Returned(s, h))
  {
    var t, r := Returned(s, h), s.live[h];
    assert Out(s.pool, r);
    forall g | g in t.live ensures Out(t.pool, t.live[g]) {
      assert Out(s.pool, s.live[g]) && s.live[g].index != r.index;
      var m :| m in s.pool.indexes && s.live[g].index < m;
      assert m in t.pool.indexes;
    }
    forall i | i in t.pool.db ensures i in t.pool.indexes || exists g :: g in t.live && t.live[g].index == i {
      if i !in s.pool.indexes {
        var g :| g in s.live && s.live[g].index == i;
        if g != h { assert g in t.live; }
      }
    }
  }

  // Runs

  /**
   What the wallet and its reservations do; Get on a live reservation repeats its key, and keeping or returning
   without one is Idle.
   */
  datatype Event =
    | TopUp
    | Get(holder: int, got: Option<Key>)
    | Keep(holder: int, key: Key)
    | Return(holder: int)
    | Idle(holder: int)

  /** One step of an unlocked wallet with the given -keypool setting. */
  ghost predicate Next(s: System, t: System, target: nat, event: Event) {
    match event
    case TopUp => exists q :: ToppedUp(s.pool, q, target) && t == s.(pool := q)
    case Get(h, key) => if h in s.live then t == s && key == Some(s.live[h].key) else Gets(s, t, target, h, key)
    case Keep(h, key) => h in s.live && key == s.live[h].key && t == Kept(s, h)
    case Return(h) => h in s.live && t == Returned(s, h)
    case Idle(h) => h !in s.live && t == s
  }

  ghost predicate Gets(s: System, t: System, target: nat, h: int, key: Option<Key>) {
    exists mid, q, index ::
      && ToppedUp(s.pool, mid, target) && Taken(mid, q, index, key)
      && t == if key == None then s.(pool := q) else WithTaken(s, h, q, index, key.value)
  }

  ghost predicate Run(states: seq<System>, events: seq<Event>, target: nat) {
    |states| == |events| + 1 && forall i :: 0 <= i < |events| ==> Next(states[i], states[i + 1], target, events[i])
  }

  lemma NextKeeps(s: System, t: System, target: nat, event: Event)
    requires Inv(s) && Next(s, t, target, event) && target >= 1
    ensures Inv(t) && s.kept <= t.kept
  {
    hide Inv, Kept, Returned;
    match event
    case TopUp =>
      var q :| ToppedUp(s.pool, q, target) && t == s.(pool := q);
      FillKeeps(s, q, if |s.pool.indexes| < target + 1 then target + 1 - |s.pool.indexes| else 0);
    case Get(h, key) =>
      if h !in s.live {
        var mid, q, index :| ToppedUp(s.pool, mid, target) && Taken(mid, q, index, key) &&
                             t == if key == None then s.(pool := q) else WithTaken(s, h, q, index, key.value);
        ReserveKeeps(s, h, mid, q, target, false, index, key);
      }
    case Keep(h, key) =>
      KeepKeeps(s, h);
      assert s.kept <= Kept(s, h).kept by { KeptMore(s, h); }
    case Return(h) =>
      ReturnKeeps(s, h);
      ReturnedKept(s, h);
    case Idle(h) =>
  }

  lemma KeptMore(s: System, h: int)
    requires h in s.live
    ensures Kept(s, h).kept == s.kept + {s.live[h].key}
  {
  }

  lemma ReturnedKept(s: System, h: int)
    requires h in s.live
    ensures Returned(s, h).kept == s.kept
  {
  }

  lemma {:induction false} RunKeeps(states: seq<System>, events: seq<Event>, target: nat, i: nat, j: nat)
    requires Run(states, events, target) && target >= 1 && i <= j < |states| && Inv(states[i])
    ensures Inv(states[j]) && states[i].kept <= states[j].kept
    decreases j - i
  {
    hide Inv, Next;
    if i < j {
      NextKeeps(states[i], states[i + 1], target, events[i]);
      RunKeeps(states, events, target, i + 1, j);
    }
  }

  /** No index, and no key, is held by two reservations at any point of a run. */
  lemma HeldOnce(states: seq<System>, events: seq<Event>, target: nat, i: nat, g: int, h: int)
    requires Run(states, events, target) && target >= 1 && Inv(states[0]) && i < |states|
    requires g in states[i].live && h in states[i].live && g != h
    ensures states[i].live[g].index != states[i].live[h].index && states[i].live[g].key != states[i].live[h].key
  {
    RunKeeps(states, events, target, 0, i);
    assert Out(states[i].pool, states[i].live[g]) && Out(states[i].pool, states[i].live[h]);
  }

  lemma GotNotKept(s: System, t: System, target: nat, h: int, key: Key)
    requires Inv(s) && Next(s, t, target, Get(h, Some(key))) && target >= 1
    ensures key !in t.kept
  {
    NextKeeps(s, t, target, Get(h, Some(key)));
    if h in s.live {
      assert Out(s.pool, s.live[h]);
    } else {
      var mid, q, index :| ToppedUp(s.pool, mid, target) && Taken(mid, q, index, Some(key))
        && t == WithTaken(s, h, q, index, key);
      assert t.pool.db[index] == key;
    }
  }

  /** A key that was kept is never handed out again. */
  lemma KeptNeverAgain(states: seq<System>, events: seq<Event>, target: nat, i: nat, j: nat)
    requires Run(states, events, target) && target >= 1 && Inv(states[0])
    requires i < j < |events| && events[i].Keep? && events[j].Get?
    ensures events[j].got != Some(events[i].key)
  {
    hide Inv;
    RunKeeps(states, events, target, 0, j);
    RunKeeps(states, events, target, 0, i);
    assert Next(states[i], states[i + 1], target, events[i]) && Next(states[j], states[j + 1], target, events[j]);
    KeptMore(states[i], events[i].holder);
    NextKeeps(states[i], states[i + 1], target, events[i]);
    RunKeeps(states, events, target, i + 1, j + 1);
    if events[j].got != None {
      GotNotKept(states[j], states[j + 1], target, events[j].holder, events[j].got.value);
    }
  }

  /** With -keypool=0 the pool runs empty, and the next key is numbered as the one still out. */
  lemma EmptyPoolReuses() returns (states: seq<System>, events: seq<Event>)
    ensures Run(states, events, 0) && |events| == 2 && Inv(states[0])
    ensures 0 in states[2].live && 1 in states[2].live && states[2].live[0].index == states[2].live[1].index
  {
    hide Inv, Next, Run;
    var s0 := System(Pool({}, map[], {}), map[], {});
    EmptyInv();
    var s1 := AloneTaken(s0, 0, 0);
    var s2 := AloneTaken(s1, 1, 1);
    AloneGets(s0, 0, 0);
    AloneGets(s1, 1, 1);
    states, events := [s0, s1, s2], [Get(0, Some(0)), Get(1, Some(1))];
    TwoSteps(s0, s1, s2, 0, events[0], events[1]);
  }

  lemma EmptyInv()
    ensures Inv(System(Pool({}, map[], {}), map[], {}))
  {
  }

  lemma TwoSteps(s: System, t: System, u: System, target: nat, a: Event, b: Event)
    requires Next(s, t, target, a) && Next(t, u, target, b)
    ensures Run([s, t, u], [a, b], target)
  {
    hide Next;
  }

  /** An empty pool given one key, which is taken at once. */
  function AloneTaken(s: System, h: int, k: Key): System {
    System(Pool({}, s.pool.db[1 := k], s.pool.issued + {k}), s.live[h := Held(1, k)], s.kept)
  }

  lemma AloneGets(s: System, h: int, k: Key)
    requires s.pool.indexes == {} && k !in s.pool.issued && h !in s.live
    ensures Next(s, AloneTaken(s, h, k), 0, Get(h, Some(k)))
  {
    var mid, q := Entered(s.pool, 1, k), AloneTaken(s, h, k).pool;
    assert IsEnd(s.pool.indexes, 1) && Filled(Entered(s.pool, 1, k), mid, 0);
    assert ToppedUp(s.pool, mid, 0);
    assert mid.indexes == {1} && mid.indexes - {1} == q.indexes;
    assert Taken(mid, q, 1, Some(k));
    assert Gets(s, AloneTaken(s, h, k), 0, h, Some(k));
  }

  lemma {:induction false} KeysBounded(s: set<Key>) returns (k: Key)
    ensures forall x :: x in s ==> x < k
    decreases |s|
  {
    if s == {} {
      k := 0;
    } else {
      var x := Pick(s);
      var n := KeysBounded(s - {x});
      k := if x < n then n else x + 1;
      forall y | y in s ensures y < k {
        if y != x { assert y in s - {x}; }
      }
    }
  }

  lemma NothingFilled(p: Pool)
    ensures Filled(p, p, 0)
  {
  }

  class Wallet {
    /** The -keypool setting. */
    const target: nat
    var indexes: set<int>
    var db: map<int, Key>
    var keys: set<Key>

    ghost function P(): Pool
      reads this
    {
      Pool(indexes, db, keys)
    }

    /** GenerateNewKey: any key the wallet has not had before. */
    method GenerateNewKey() returns (k: Key)
      modifies this`keys
      ensures k !in old(keys) && keys == old(keys) + {k}
    {
      ghost var bound := KeysBounded(keys);
      assert bound !in keys;
      k :| k !in keys;
      keys := keys + {k};
    }

    /** One turn of the loop in TopUpKeyPool: a fresh key at the end of the pool. */
    method AddKey() returns (ghost e: int, ghost k: Key)
      modifies this
      ensures IsEnd(old(indexes), e) && e !in old(indexes) && k !in old(keys) && P() == Entered(old(P()), e, k)
    {
      hide IsMax;
      var end := 1;
      if indexes != {} {
        ghost var most := MaxExists(indexes);
        var last :| IsMax(indexes, last);
        end := last + 1;
      }
      EndIsNew(indexes, end);
      var fresher := GenerateNewKey();
      db := db[end := fresher];
      indexes := indexes + {end};
      e, k := end, fresher;
    }

    /** TopUpKeyPool; a locked wallet is left alone. */
    method TopUpKeyPool(locked: bool) returns (ok: bool)
      modifies this
      ensures ok == !locked
      ensures if locked then P() == old(P()) else ToppedUp(old(P()), P(), target)
    {
      hide IsEnd, Filled;
      if locked {
        return false;
      }
      ghost var n := 0;
      assert Filled(old(P()), P(), 0) by { NothingFilled(P()); }
      while |indexes| < target + 1
        invariant |indexes| == |old(indexes)| + n && Filled(old(P()), P(), n)
        invariant n == 0 || |indexes| <= target + 1
        decreases target + 1 - |indexes|
      {
        ghost var before := P();
        ghost var e, k := AddKey();
        FilledSnoc(old(P()), before, n, e, k);
        n := n + 1;
      }
      ok := true;
    }

    /** ReserveKeyFromKeyPool: the oldest key, or index -1 when there is none. */
    method ReserveKeyFromKeyPool(locked: bool) returns (index: int, key: Option<Key>)
      requires indexes <= db.Keys
      modifies this
      ensures Reserved(old(P()), P(), target, locked, index, key)
    {
      hide ToppedUp;
      var ok := TopUpKeyPool(locked);
      ghost var mid := P();
      if indexes == {} {
        assert Taken(mid, P(), -1, None);
        return -1, None;
      }
      assert indexes <= db.Keys by { if !locked { StillStored(old(P()), mid, target); } }
      ghost var least := MinExists(indexes);
      index :| IsMin(indexes, index);
      MinStored(mid, index);
      key := Some(db[index]);
      indexes := indexes - {index};
      assert Taken(mid, P(), index, key);
    }

    /** KeepKey */
    method KeepKey(index: int)
      modifies this
      ensures P() == old(P()).(db := old(db) - {index})
    {
      db := db - {index};
    }

    /** ReturnKey */
    method ReturnKey(index: int)
      modifies this
      ensures P() == old(P()).(indexes := old(indexes) + {index})
    {
      indexes := indexes + {index};
    }
  }

  lemma MinStored(p: Pool, m: int)
    requires p.indexes <= p.db.Keys && IsMin(p.indexes, m)
    ensures m in p.db
  {
  }

  lemma EndIsNew(s: set<int>, e: int)
    requires if s == {} then e == 1 else IsMax(s, e - 1)
    ensures e !in s && IsEnd(s, e)
  {
  }

  lemma {:induction false} FilledStored(p: Pool, q: Pool, n: nat)
    requires Filled(p, q, n) && p.indexes <= p.db.Keys
    ensures q.indexes <= q.db.Keys
    decreases n
  {
    if n > 0 {
      var e, k :| IsEnd(p.indexes, e) && k !in p.issued && Filled(Entered(p, e, k), q, n - 1);
      FilledStored(Entered(p, e, k), q, n - 1);
    }
  }

  lemma StillStored(p: Pool, q: Pool, target: nat)
    requires ToppedUp(p, q, target) && p.indexes <= p.db.Keys
    ensures q.indexes <= q.db.Keys
  {
    FilledStored(p, q, if |p.indexes| < target + 1 then target + 1 - |p.indexes| else 0);
  }

  /** CReserveKey: a reservation that ends by keeping or returning the key. */
  class ReserveKey {
    const wallet: Wallet
    var index: int
    var key: Option<Key>

    constructor (w: Wallet)
      ensures wallet == w && index == -1
    {
      wallet, index, key := w, -1, None;
    }

    /** GetReservedKey; None stands for the wallet's default key. */
    method GetReservedKey(locked: bool) returns (k: Option<Key>)
      requires wallet.indexes <= wallet.db.Keys
      modifies this, wallet
      ensures k == key
      ensures old(index) != -1 ==> wallet.P() == old(wallet.P()) && index == old(index) && key == old(key)
      ensures old(index) == -1 ==> Reserved(old(wallet.P()), wallet.P(), wallet.target, locked, index, key)
    {
      if index == -1 {
        index, key := wallet.ReserveKeyFromKeyPool(locked);
      }
      k := key;
    }

    method KeepKey()
      modifies this, wallet
      ensures index == -1 && key == None
      ensures wallet.P() == if old(index) == -1 then old(wallet.P())
                            else old(wallet.P()).(db := old(wallet.db) - {old(index)})
    {
      if index != -1 {
        wallet.KeepKey(index);
      }
      index, key := -1, None;
    }

    method ReturnKey()
      modifies this, wallet
      ensures index == -1 && key == None
      ensures wallet.P() == if old(index) == -1 then old(wallet.P())
                            else old(wallet.P()).(indexes := old(wallet.indexes) + {old(index)})
    {
      if index != -1 {
        wallet.ReturnKey(index);
      }
      index, key := -1, None;
    }
  }

  // Driving the classes

  /** Reservations on one wallet, each its own object. */
  ghost predicate Desk(w: Wallet, rs: seq<ReserveKey>)
    reads rs
  {
    && (forall h :: 0 <= h < |rs| ==> rs[h].wallet == w && (rs[h].index == -1 || rs[h].key.Some?))
    && (forall g, h :: 0 <= g < h < |rs| ==> rs[g] != rs[h])
  }

  datatype Slot = Slot(index: int, key: Option<Key>)

  ghost function Slots(rs: seq<ReserveKey>): (slots: seq<Slot>)
    reads rs
    ensures |slots| == |rs| && forall h :: 0 <= h < |rs| ==> slots[h] == Slot(rs[h].index, rs[h].key)
  {
    seq(|rs|, h requires 0 <= h < |rs| reads rs => Slot(rs[h].index, rs[h].key))
  }

  ghost function LiveSlots(slots: seq<Slot>): map<int, Held> {
    map h | 0 <= h < |slots| && slots[h].index != -1 && slots[h].key.Some? :: Held(slots[h].index, slots[h].key.value)
  }

  /** The reservations that hold a key, by holder. */
  ghost function Live(rs: seq<ReserveKey>): map<int, Held>
    reads rs
  {
    LiveSlots(Slots(rs))
  }

  lemma SlotSet(slots: seq<Slot>, h: nat, slot: Slot)
    requires h < |slots| && (slot.index == -1 || slot.key.Some?)
    ensures LiveSlots(slots[h := slot]) ==
            if slot.index == -1 then LiveSlots(slots) - {h} else LiveSlots(slots)[h := Held(slot.index, slot.key.value)]
    ensures slots[h].index == -1 ==> h !in LiveSlots(slots)
    ensures slots[h].index != -1 && slots[h].key.Some? ==>
              h in LiveSlots(slots) && LiveSlots(slots)[h] == Held(slots[h].index, slots[h].key.value)
  {
  }

  datatype Call = AskTopUp | AskGet(h: nat) | AskKeep(h: nat) | AskReturn(h: nat)

  predicate Within(c: Call, n: nat) {
    c.AskTopUp? || c.h < n
  }

  /** The event is one the call can be. */
  predicate Answers(c: Call, e: Event) {
    match c
    case AskTopUp => e == TopUp
    case AskGet(h) => e.Get? && e.holder == h
    case AskKeep(h) => (e.Keep? && e.holder == h) || e == Idle(h)
    case AskReturn(h) => e == Return(h) || e == Idle(h)
  }

  /** The system after a reservation was asked for, given what came of it. */
  ghost function AfterGet(s: System, w: Pool, h: int, index: int, key: Option<Key>): System {
    if key == None then s.(pool := w) else WithTaken(s, h, w, index, key.value)
  }

  lemma GetNext(s: System, w: Pool, target: nat, h: int, index: int, key: Option<Key>)
    requires Inv(s) && h !in s.live && Reserved(s.pool, w, target, false, index, key)
    ensures index == -1 <==> key == None
    ensures Next(s, AfterGet(s, w, h, index, key), target, Get(h, key))
  {
    hide Filled, WithTaken;
    var mid :| ToppedUp(s.pool, mid, target) && Taken(mid, w, index, key);
    FillKeeps(s, mid, if |s.pool.indexes| < target + 1 then target + 1 - |s.pool.indexes| else 0);
    assert Stocked(mid);
    assert Gets(s, AfterGet(s, w, h, index, key), target, h, key);
  }

  lemma GetAgain(s: System, target: nat, h: int)
    requires h in s.live
    ensures Next(s, s, target, Get(h, Some(s.live[h].key)))
  {
  }

  lemma ReservedSlots(s: System, w: Pool, h: nat, slots: seq<Slot>, index: int, key: Option<Key>)
    requires h < |slots| && s.live == LiveSlots(slots) && slots[h].index == -1 && (index == -1 <==> key == None)
    ensures var t := AfterGet(s, w, h, index, key);
            t.pool == w && t.live == LiveSlots(slots[h := Slot(index, key)])
  {
    hide LiveSlots;
    SlotSet(slots, h, Slot(index, key));
    if key == None {
      assert s.live - {h} == s.live;
    }
  }

  method ReserveIdle(w: Wallet, rs: seq<ReserveKey>, h: nat, ghost s: System)
    returns (ghost t: System, e: Event)
    requires Desk(w, rs) && h < |rs| && s.pool == w.P() && s.live == Live(rs) && Inv(s) && rs[h].index == -1
    modifies w, rs
    ensures Desk(w, rs) && t.pool == w.P() && t.live == Live(rs)
    ensures Answers(AskGet(h), e) && Next(s, t, w.target, e)
  {
    assert w.indexes <= w.db.Keys;
    hide Inv, Reserved, Next, LiveSlots, Slots, AfterGet;
    ghost var slots := Slots(rs);
    SlotSet(slots, h, slots[h]);
    var key := rs[h].GetReservedKey(false);
    ghost var index := rs[h].index;
    GetNext(s, w.P(), w.target, h, index, key);
    assert Slots(rs) == slots[h := Slot(index, key)];
    ReservedSlots(s, w.P(), h, slots, index, key);
    e, t := Get(h, key), AfterGet(s, w.P(), h, index, key);
  }

  method ServeGet(w: Wallet, rs: seq<ReserveKey>, h: nat, ghost s: System) returns (ghost t: System, e: Event)
    requires Desk(w, rs) && h < |rs| && s.pool == w.P() && s.live == Live(rs) && Inv(s)
    modifies w, rs
    ensures Desk(w, rs) && t.pool == w.P() && t.live == Live(rs)
    ensures Answers(AskGet(h), e) && Next(s, t, w.target, e)
  {
    if rs[h].index == -1 {
      hide Inv, Next, Live, Desk;
      t, e := ReserveIdle(w, rs, h, s);
    } else {
      assert w.indexes <= w.db.Keys;
      hide Inv, Next, LiveSlots, Slots;
      ghost var slots := Slots(rs);
      SlotSet(slots, h, slots[h]);
      GetAgain(s, w.target, h);
      var key := rs[h].GetReservedKey(false);
      e, t := Get(h, key), s;
      assert Slots(rs) == slots;
    }
  }

  method ServeKeep(w: Wallet, rs: seq<ReserveKey>, h: nat, ghost s: System) returns (ghost t: System, e: Event)
    requires Desk(w, rs) && h < |rs| && s.pool == w.P() && s.live == Live(rs) && Inv(s)
    modifies w, rs
    ensures Desk(w, rs) && t.pool == w.P() && t.live == Live(rs)
    ensures Answers(AskKeep(h), e) && Next(s, t, w.target, e)
  {
    hide Inv, LiveSlots, Slots;
    ghost var slots := Slots(rs);
    SlotSet(slots, h, Slot(-1, None));
    e, t := Idle(h), s;
    if rs[h].index != -1 {
      e, t := Keep(h, rs[h].key.value), Kept(s, h);
    } else {
      assert s.live - {h} == s.live;
    }
    rs[h].KeepKey();
    assert Slots(rs) == slots[h := Slot(-1, None)];
  }

  method ServeReturn(w: Wallet, rs: seq<ReserveKey>, h: nat, ghost s: System)
    returns (ghost t: System, e: Event)
    requires Desk(w, rs) && h < |rs| && s.pool == w.P() && s.live == Live(rs) && Inv(s)
    modifies w, rs
    ensures Desk(w, rs) && t.pool == w.P() && t.live == Live(rs)
    ensures Answers(AskReturn(h), e) && Next(s, t, w.target, e)
  {
    hide Inv, LiveSlots, Slots;
    ghost var slots := Slots(rs);
    SlotSet(slots, h, Slot(-1, None));
    e, t := Idle(h), s;
    if rs[h].index != -1 {
      e, t := Return(h), Returned(s, h);
    } else {
      assert s.live - {h} == s.live;
    }
    rs[h].ReturnKey();
    assert Slots(rs) == slots[h := Slot(-1, None)];
  }

  /** One call on the objects is one step of the system. */
  method Serve(w: Wallet, rs: seq<ReserveKey>, c: Call, ghost s: System) returns (ghost t: System, e: Event)
    requires Desk(w, rs) && Within(c, |rs|) && s.pool == w.P() && s.live == Live(rs) && Inv(s)
    modifies w, rs
    ensures Desk(w, rs) && t.pool == w.P() && t.live == Live(rs)
    ensures Answers(c, e) && Next(s, t, w.target, e)
  {
    hide Inv, ToppedUp, Live, Desk;
    match c
    case AskTopUp =>
      var ok := w.TopUpKeyPool(false);
      t, e := s.(pool := w.P()), TopUp;
    case AskGet(h) =>
      t, e := ServeGet(w, rs, h, s);
    case AskKeep(h) =>
      t, e := ServeKeep(w, rs, h, s);
    case AskReturn(h) =>
      t, e := ServeReturn(w, rs, h, s);
  }

  /** Every call was answered by its event. */
  ghost predicate AllAnswered(calls: seq<Call>, trace: seq<Event>) {
    |trace| <= |calls| && forall i :: 0 <= i < |trace| ==> Answers(calls[i], trace[i])
  }

  lemma AnsweredSnoc(calls: seq<Call>, trace: seq<Event>, e: Event)
    requires AllAnswered(calls, trace) && |trace| < |calls| && Answers(calls[|trace|], e)
    ensures AllAnswered(calls, trace + [e])
  {
  }

  /** The calls one after another, with the states they lead through. */
  method Play(w: Wallet, rs: seq<ReserveKey>, calls: seq<Call>) returns (trace: seq<Event>, ghost states: seq<System>)
    requires w.target >= 1 && Desk(w, rs) && Live(rs) == map[] && Inv(System(w.P(), map[], {}))
    requires forall i :: 0 <= i < |calls| ==> Within(calls[i], |rs|)
    modifies w, rs
    ensures Desk(w, rs) && |trace| == |calls| && AllAnswered(calls, trace)
    ensures Run(states, trace, w.target) && |states| == |trace| + 1 && states[0] == System(old(w.P()), map[], {})
    ensures states[|trace|].pool == w.P() && states[|trace|].live == Live(rs)
  {
    ghost var s := System(w.P(), map[], {});
    states, trace := [s], [];
    assert AllAnswered(calls, trace);
    RunStart(s, w.target);
    hide Inv, Next, Run, Live, Answers, Desk, AllAnswered;
    for n := 0 to |calls|
      invariant Desk(w, rs) && s.pool == w.P() && s.live == Live(rs) && Inv(s)
      invariant |trace| == n && |states| == n + 1 && states[0] == System(old(w.P()), map[], {}) && states[n] == s
      invariant AllAnswered(calls, trace) && Run(states, trace, w.target)
    {
      var e;
      ghost var t;
      t, e := Serve(w, rs, calls[n], s);
      NextKeeps(s, t, w.target, e);
      RunSnoc(states, trace, w.target, t, e);
      AnsweredSnoc(calls, trace, e);
      trace, states, s := trace + [e], states + [t], t;
    }
  }

  /**
   Any sequence of calls on an unlocked wallet with a setting of at least one, starting without live
   reservations on a pool that is stored in full: no two objects hold the same index, and no key is handed
   out after it was kept.
   */
  method Drive(w: Wallet, rs: seq<ReserveKey>, calls: seq<Call>)
    returns (trace: seq<Event>, ghost states: seq<System>)
    requires w.target >= 1 && Desk(w, rs) && Live(rs) == map[] && Stocked(w.P()) && w.db.Keys == w.indexes
    requires forall i :: 0 <= i < |calls| ==> Within(calls[i], |rs|)
    modifies w, rs
    ensures Desk(w, rs)
    ensures |trace| == |calls| && AllAnswered(calls, trace)
    ensures Run(states, trace, w.target) && states[0] == System(old(w.P()), map[], {})
    ensures states[|trace|].pool == w.P() && states[|trace|].live == Live(rs)
    ensures forall g, h :: 0 <= g < h < |rs| && rs[g].index != -1 && rs[h].index != -1 ==> rs[g].index != rs[h].index
    ensures forall i, j :: 0 <= i < j < |trace| && trace[i].Keep? && trace[j].Get? ==>
              trace[j].got != Some(trace[i].key)
  {
    assert Inv(System(w.P(), map[], {}));
    hide Inv, Run, Live, Desk, AllAnswered, Stocked;
    trace, states := Play(w, rs, calls);
    KeptApart(states, trace, w.target);
    HeldApart(w, rs, states, trace);
  }

  lemma KeptApart(states: seq<System>, trace: seq<Event>, target: nat)
    requires Run(states, trace, target) && target >= 1 && Inv(states[0])
    ensures forall i, j :: 0 <= i < j < |trace| && trace[i].Keep? && trace[j].Get? ==>
              trace[j].got != Some(trace[i].key)
  {
    hide Inv, Run;
    forall i, j | 0 <= i < j < |trace| && trace[i].Keep? && trace[j].Get? ensures trace[j].got != Some(trace[i].key) {
      KeptNeverAgain(states, trace, target, i, j);
    }
  }

  lemma HeldApart(w: Wallet, rs: seq<ReserveKey>, states: seq<System>, trace: seq<Event>)
    requires Run(states, trace, w.target) && w.target >= 1 && Inv(states[0])
    requires Desk(w, rs) && states[|trace|].live == Live(rs)
    ensures forall g, h :: 0 <= g < h < |rs| && rs[g].index != -1 && rs[h].index != -1 ==> rs[g].index != rs[h].index
  {
    assert |states| == |trace| + 1;
    hide Inv, Run, Live;
    forall g, h | 0 <= g < h < |rs| && rs[g].index != -1 && rs[h].index != -1 ensures rs[g].index != rs[h].index {
      LiveHolds(rs, g);
      LiveHolds(rs, h);
      HeldOnce(states, trace, w.target, |trace|, g, h);
    }
  }

  lemma LiveHolds(rs: seq<ReserveKey>, h: nat)
    requires h < |rs| && rs[h].index != -1 && rs[h].key.Some?
    ensures h in Live(rs) && Live(rs)[h].index == rs[h].index
  {
  }

  lemma RunStart(s: System, target: nat)
    ensures Run([s], [], target)
  {
  }

  lemma RunSnoc(states: seq<System>, events: seq<Event>, target: nat, t: System, e: Event)
    requires Run(states, events, target) && Next(states[|events|], t, target, e)
    ensures Run(states + [t], events + [e], target)
  {
    hide Next;
  }
}
