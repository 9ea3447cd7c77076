/** The stochastic address manager: every public step keeps the tables consistent. */
module AddrMan {
  import opened Bytes
  import opened Radix
  import opened AddrTables

  const INSPECT_ON_EVICT := 4
  const HORIZON_DAYS := 30
  const RETRIES := 3
  const MAX_FAILURES := 10
  const MIN_FAIL_DAYS := 7
  const GETADDR_MAX_PCT := 23
  const GETADDR_MAX := 2500

  /** Times are kept in 32 bits. */
  function Time32(n: int): int {
    n % 0x1_0000_0000
  }

  /** CAddrInfo::IsTerrible: bad enough to be dropped. */
  predicate IsTerrible(i: Info, now: int) {
    if i.lastTry != 0 && i.lastTry >= now - 60 then false
    else
      || i.addr.time > now + 10 * 60
      || i.addr.time == 0
      || now - i.addr.time > HORIZON_DAYS * 86400
      || (i.lastSuccess == 0 && i.attempts >= RETRIES)
      || (now - i.lastSuccess > MIN_FAIL_DAYS * 86400 && i.attempts >= MAX_FAILURES)
  }

  /** Good_'s note on the entry. */
  function Succeeded(i: Info, now: int): Info {
    i.(lastSuccess := now, lastTry := now, attempts := 0, addr := i.addr.(time := Time32(now)))
  }

  /** How an entry moved when it was marked good. */
  datatype Move = Stayed | Added | Swapped(bucket: seq<int>, n: nat, home: nat)

  /** What MakeTried may do to consistent tables. */
  ghost predicate Moves(t: Tables, u: Tables, h: Hasher, id: int, lots: Lots, move: Move) {
    && id in t.info && |t.tried| == TRIED_BUCKETS
    && match move
       case Stayed => t.info[id].inTried && u == t
       case Added =>
         !t.info[id].inTried && |t.tried[TriedBucket(h, t.info[id])]| < TRIED_SIZE && u == Promoted(t, h, id)
       case Swapped(bucket, n, home) =>
         && |t.tried[TriedBucket(h, t.info[id])]| >= TRIED_SIZE
         && Selects(t.info, t.tried[TriedBucket(h, t.info[id])], lots, bucket, n)
         && Evicts(t, h, id, bucket, n, home) && u == Replaced(t, h, id, bucket, n, home)
         && (home == NewBucket(h, t.info[bucket[n]], t.info[bucket[n]].source) || id in t.untried[home])
  }

  lemma MovesKeep(t: Tables, u: Tables, h: Hasher, id: int, lots: Lots, move: Move)
    requires Consistent(t, h, NONE) && Moves(t, u, h, id, lots, move)
    ensures Consistent(u, h, NONE) && id in u.info && u.info[id].inTried
    ensures u.byAddr == t.byAddr && u.random == t.random && u.info.Keys == t.info.Keys
    ensures u.triedCount + u.untriedCount == t.triedCount + t.untriedCount
  {
    hide Consistent, TriedBucket, NewBucket, Selects;
    match move
    case Stayed =>
    case Added => PromoteKeeps(t, h, id);
    case Swapped(bucket, n, home) => ReplaceKeeps(t, h, id, bucket, n, home);
  }

  /** The raw random numbers one call of Add_ may use. */
  datatype Lots = Lots(again: nat, n0: nat, n1: nat, n2: nat, n3: nat)

  /** GetRandInt */
  function RandInt(raw: nat, size: nat): (n: nat)
    requires size > 0
    ensures n < size
  {
    raw % size
  }

  /** Two places of a bucket exchanged. */
  function Exchanged(s: seq<int>, i: nat, p: nat): (r: seq<int>)
    requires i < |s| && p < |s|
    ensures |r| == |s|
  {
    s[p := s[i]][i := s[p]]
  }

  lemma ExchangeKeeps(s: seq<int>, i: nat, p: nat)
    requires i <= p < |s|
    ensures multiset(Exchanged(s, i, p)) == multiset(s) && Exchanged(s, i, p)[..i] == s[..i]
    ensures Exchanged(s, i, p)[i] == s[p] && Exchanged(s, i, p)[p] == s[i]
    ensures forall x :: x in Exchanged(s, i, p) ==> x in s
  {
  }

  /** The place SelectTried draws at step i, from there on to the end. */
  function DrawnPlace(lots: Lots, size: nat, i: nat): (p: nat)
    requires i < INSPECT_ON_EVICT && i < size
    ensures i <= p < size
  {
    i + RandInt(if i == 0 then lots.n0 else if i == 1 then lots.n1 else if i == 2 then lots.n2 else lots.n3, size - i)
  }

  /** A bucket after k steps, each swapping the entry drawn to the front. */
  function PartShuffled(bucket: seq<int>, lots: Lots, k: nat): (r: seq<int>)
    requires k <= INSPECT_ON_EVICT && k <= |bucket|
    ensures |r| == |bucket|
  {
    if k == 0 then bucket else Exchanged(PartShuffled(bucket, lots, k - 1), k - 1, DrawnPlace(lots, |bucket|, k - 1))
  }

  /** Among the first m entries, the first of those least recently reached. */
  ghost predicate LeastRecent(info: map<int, Info>, r: seq<int>, m: nat, k: nat) {
    && k < m <= |r| && (forall j :: 0 <= j < m ==> r[j] in info)
    && (forall j :: 0 <= j < m ==> info[r[k]].lastSuccess <= info[r[j]].lastSuccess)
    && (forall j :: 0 <= j < k ==> info[r[k]].lastSuccess < info[r[j]].lastSuccess)
  }

  /** What SelectTried leaves and returns: the place from which the least recent of those drawn was taken. */
  ghost predicate Selects(info: map<int, Info>, bucket: seq<int>, lots: Lots, r: seq<int>, n: nat) {
    var m := if |bucket| < INSPECT_ON_EVICT then |bucket| else INSPECT_ON_EVICT;
    && r == PartShuffled(bucket, lots, m)
    && exists k :: LeastRecent(info, r, m, k) && n == DrawnPlace(lots, |bucket|, k)
  }

  lemma LeastStep(info: map<int, Info>, r: seq<int>, t: seq<int>, i: nat, k: nat)
    requires LeastRecent(info, r, i, k) && |t| == |r| && i < |t| && t[..i] == r[..i] && t[i] in info
    ensures info[t[i]].lastSuccess < info[r[k]].lastSuccess ==> LeastRecent(info, t, i + 1, i)
    ensures info[t[i]].lastSuccess >= info[r[k]].lastSuccess ==> LeastRecent(info, t, i + 1, k)
  {
    forall j | 0 <= j < i ensures t[j] == r[j] { assert t[..i][j] == r[..i][j]; }
  }

  /** The loop of SelectTried: up to four places are drawn, each swapped to the front. */
  method SelectPlace(bucket: seq<int>, info: map<int, Info>, lots: Lots) returns (n: nat, r: seq<int>)
    requires bucket != [] && forall x :: x in bucket ==> x in info
    ensures multiset(r) == multiset(bucket) && n < |r| && Selects(info, bucket, lots, r, n)
  {
    hide Exchanged, DrawnPlace, LeastRecent;
    r := bucket;
    var oldest, i := -1, 0;
    n := 0;
    ghost var k := 0;
    while i < INSPECT_ON_EVICT && i < |r|
      invariant i <= |r| == |bucket| && i <= INSPECT_ON_EVICT && r == PartShuffled(bucket, lots, i)
      invariant multiset(r) == multiset(bucket) && n < |r| && forall x :: x in r ==> x in info
      invariant i == 0 ==> oldest == -1
      invariant i > 0 ==> k < i && oldest == r[k] && LeastRecent(info, r, i, k) && n == DrawnPlace(lots, |bucket|, k)
    {
      var p := DrawnPlace(lots, |r|, i);
      var id := r[p];
      ExchangeKeeps(r, i, p);
      ghost var before := r;
      r := Exchanged(r, i, p);
      if i == 0 {
        assert LeastRecent(info, r, 1, 0) by { LeastOne(info, r); }
      } else {
        assert before[k] == before[..i][k] == r[..i][k] == r[k];
        LeastStep(info, before, r, i, k);
      }
      if i == 0 || info[id].lastSuccess < info[oldest].lastSuccess {
        oldest := id;
        n := p;
        k := i;
      }
      i := i + 1;
    }
  }

  lemma LeastOne(info: map<int, Info>, r: seq<int>)
    requires r != [] && r[0] in info
    ensures LeastRecent(info, r, 1, 0)
  {
  }

  /** One of the four places drawn in a bucket of this size. */
  predicate Picked(lots: Lots, size: nat, k: nat) {
    size > 0 &&
    (k == RandInt(lots.n0, size) || k == RandInt(lots.n1, size) || k == RandInt(lots.n2, size)
     || k == RandInt(lots.n3, size))
  }

  /** The entry whose rank in the bucket, in id order, was drawn. */
  ghost predicate Sampled(bucket: set<int>, lots: Lots, x: int) {
    x in bucket && Picked(lots, |bucket|, |Earlier(bucket, x)|)
  }

  /** Among the sampled entries below a bound the first, in id order, of least time. */
  ghost predicate OldestBelow(info: map<int, Info>, bucket: set<int>, lots: Lots, bound: int, oldest: int) {
    && Sampled(bucket, lots, oldest) && oldest < bound && oldest in info
    && forall x :: Sampled(bucket, lots, x) && x < bound && x in info ==> Before(info[oldest], oldest, info[x], x)
  }

  predicate Before(i: Info, id: int, j: Info, other: int) {
    i.addr.time < j.addr.time || (i.addr.time == j.addr.time && id <= other)
  }

  lemma OldestStep(info: map<int, Info>, bucket: set<int>, lots: Lots, it: int, oldest: int)
    requires OldestBelow(info, bucket, lots, it, oldest) && it in info
    ensures !Sampled(bucket, lots, it) ==> OldestBelow(info, bucket, lots, it + 1, oldest)
    ensures Sampled(bucket, lots, it) && info[it].addr.time >= info[oldest].addr.time ==>
              OldestBelow(info, bucket, lots, it + 1, oldest)
    ensures Sampled(bucket, lots, it) && info[it].addr.time < info[oldest].addr.time ==>
              OldestBelow(info, bucket, lots, it + 1, it)
  {
    hide Sampled;
  }

  /** The sampling half of ShrinkNew: the bucket is walked in id order, four ranks drawn beforehand count. */
  method OldestOfFour(bucket: set<int>, info: map<int, Info>, idCount: int, lots: Lots) returns (oldest: int)
    requires bucket != {} && forall x :: x in bucket ==> x in info && 0 <= x < idCount
    ensures OldestBelow(info, bucket, lots, idCount, oldest)
  {
    hide Earlier, RandInt;
    assert |bucket| > 0;
    var n0, n1 := RandInt(lots.n0, |bucket|), RandInt(lots.n1, |bucket|);
    var n2, n3 := RandInt(lots.n2, |bucket|), RandInt(lots.n3, |bucket|);
    var i := 0;
    oldest := -1;
    EarlierEnds(bucket, idCount);
    for it := 0 to idCount
      invariant i == |Earlier(bucket, it)|
      invariant n0 < i ==> oldest != -1
      invariant if oldest == -1 then forall x :: Sampled(bucket, lots, x) ==> x >= it
                else OldestBelow(info, bucket, lots, it, oldest)
    {
      EarlierStep(bucket, it);
      if it in bucket {
        assert Sampled(bucket, lots, it) <==> i == n0 || i == n1 || i == n2 || i == n3;
        if oldest != -1 { OldestStep(info, bucket, lots, it, oldest); }
        if i == n0 || i == n1 || i == n2 || i == n3 {
          if oldest == -1 || info[it].addr.time < info[oldest].addr.time {
            oldest := it;
          }
        }
        i := i + 1;
      }
    }
  }

  /** The entry ShrinkNew drops: the first terrible one, or else the oldest of those sampled. */
  ghost predicate Shrinks(info: map<int, Info>, bucket: set<int>, idCount: int, now: int, lots: Lots, r: int,
                          victim: int) {
    if r == 0 then
      && victim in bucket && victim in info && IsTerrible(info[victim], now)
      && forall x :: x in bucket && x < victim && x in info ==> !IsTerrible(info[x], now)
    else
      && r == 1 && OldestBelow(info, bucket, lots, idCount, victim)
      && forall x :: x in bucket && x in info ==> !IsTerrible(info[x], now)
  }

  ghost predicate Dropped(info: map<int, Info>, bucket: set<int>, idCount: int, now: int, lots: Lots, victim: int) {
    Shrinks(info, bucket, idCount, now, lots, 0, victim) || Shrinks(info, bucket, idCount, now, lots, 1, victim)
  }

  lemma ShrinksDropped(info: map<int, Info>, bucket: set<int>, idCount: int, now: int, lots: Lots, r: int, victim: int)
    requires Shrinks(info, bucket, idCount, now, lots, r, victim)
    ensures Dropped(info, bucket, idCount, now, lots, victim)
  {
  }

  /** The entry with one reference less. */
  function Lowered(t: Tables, id: int): Tables
    requires id in t.info
  {
    Rewritten(t, id, t.info[id].(refCount := t.info[id].refCount - 1))
  }

  /** The service is known under exactly this address and port. */
  ghost predicate Known(t: Tables, s: Service) {
    s.ip in t.byAddr && t.byAddr[s.ip] in t.info && t.info[t.byAddr[s.ip]].addr.service == s
  }

  /** The bucket reached after m steps from r on a ring of n. */
  function Ring(m: nat, r: nat, n: nat): (c: nat)
    requires n > 0
    ensures c < n
  {
    (m + r) % n
  }

  lemma RingReaches(c: nat, r: nat, n: nat) returns (m: nat)
    requires c < n && r < n
    ensures m < n && Ring(m, r, n) == c
  {
    if c >= r {
      m := c - r;
    } else {
      m := c - r + n;
      DivModStep(c, 1, n);
    }
  }

  /** Good_'s search for a bucket holding the entry, from a random start around the ring. */
  method FindBucket(untried: seq<set<int>>, id: int) returns (b: int)
    requires untried != []
    ensures b == -1 ==> forall c :: 0 <= c < |untried| ==> id !in untried[c]
    ensures b != -1 ==> 0 <= b < |untried| && id in untried[b]
  {
    hide Ring;
    var size := |untried|;
    var r: nat :| 0 <= r < size;
    for n := 0 to size
      invariant forall m: nat :: m < n ==> id !in untried[Ring(m, r, size)]
    {
      var c := Ring(n, r, size);
      if id in untried[c] {
        return c;
      }
    }
    forall c: nat | c < size ensures id !in untried[c] {
      var m := RingReaches(c, r, size);
    }
    return -1;
  }

  /** The times Check_ asks for, after an entry was marked good at a given time. */
  lemma MovesStamped(t: Tables, u: Tables, h: Hasher, id: int, now: int, lots: Lots, move: Move)
    requires id in t.info && Stamped(t)
    requires Moves(Rewritten(t, id, Succeeded(t.info[id], now)), u, h, id, lots, move)
    ensures Stamped(u) <==> now > 0
  {
    hide TriedBucket, NewBucket, Time32, Selects;
    var s := Rewritten(t, id, Succeeded(t.info[id], now));
    match move
    case Stayed => assert u.info[id].inTried;
    case Added => assert u.info[id] == MadeTried(s.info[id]);
    case Swapped(bucket, n, home) =>
      assert u.info[id] == MadeTried(s.info[id]);
      assert u.info[bucket[n]] == MadeNew(s.info[bucket[n]]);
  }

  // Adding an address

  function Max(a: int, b: int): int {
    if a > b then a else b
  }

  /** What Add_ notes on an entry it already knows. */
  function Touched(i: Info, addr: Address, penalty: int, now: int): Info {
    var interval := if now - addr.time < 24 * 60 * 60 then 60 * 60 else 24 * 60 * 60;
    var newer := addr.time != 0 && (i.addr.time == 0 || i.addr.time < addr.time - interval - penalty);
    var time := if newer then Time32(Max(0, addr.time - penalty)) else i.addr.time;
    i.(addr := i.addr.(time := time, services := i.addr.services | addr.services))
  }

  function NewEntry(addr: Address, source: NetAddr, penalty: int, pos: int): Info {
    Info(addr.(time := Time32(Max(0, addr.time - penalty))), source, 0, 0, 0, 1, false, pos)
  }

  /** The entry for an address, created if need be, with the reference for the bucket it is to enter. */
  function Prepared(t: Tables, addr: Address, source: NetAddr, penalty: int, now: int): Tables
    requires addr.service.ip in t.byAddr ==> t.byAddr[addr.service.ip] in t.info
  {
    if addr.service.ip in t.byAddr then
      var id := t.byAddr[addr.service.ip];
      var i := Touched(t.info[id], addr, penalty, now);
      Rewritten(t, id, i.(refCount := i.refCount + 1))
    else Entered(t, NewEntry(addr, source, penalty, |t.random|))
  }

  function EntryId(t: Tables, addr: Address): int {
    if addr.service.ip in t.byAddr then t.byAddr[addr.service.ip] else t.idCount
  }

  /** What became of an address offered to the manager. */
  datatype Fate = Ignored | Noted | Stored(evicted: Option<int>)

  /** A known address is to get another bucket, one it is not in yet. */
  ghost predicate Asks(t: Tables, h: Hasher, id: int, addr: Address, source: NetAddr, penalty: int, now: int,
                       lots: Lots)
    requires id in t.info && |t.untried| == NEW_BUCKETS
  {
    var i := Touched(t.info[id], addr, penalty, now);
    Wanted(i, addr, lots) && id !in t.untried[NewBucket(h, i, source)]
  }

  /** The whole effect of Add_ for each fate, and when each befalls an address. */
  ghost predicate Adds(t: Tables, u: Tables, h: Hasher, addr: Address, source: NetAddr, penalty: int, now: int,
                       lots: Lots, fate: Fate)
  {
    var ip, id := addr.service.ip, EntryId(t, addr);
    && |t.untried| == NEW_BUCKETS && (ip in t.byAddr ==> id in t.info)
    && match fate
       case Ignored => u == t
       case Noted =>
         && ip in t.byAddr && !Asks(t, h, id, addr, source, penalty, now, lots)
         && u == Rewritten(t, id, Touched(t.info[id], addr, penalty, now))
       case Stored(evicted) =>
         var p := Prepared(t, addr, source, penalty, now);
         && id in p.info
         && (ip in t.byAddr ==>
               && Asks(t, h, id, addr, source, penalty, now, lots)
               && !t.info[id].inTried && t.info[id].refCount < BUCKETS_PER_ADDRESS)
         && var b := NewBucket(h, p.info[id], source);
            && id !in p.untried[b]
            && (if |p.untried[b]| < NEW_SIZE then evicted == None && u == Inserted(p, b, id)
                else
                  && evicted.Some? && ReleaseKept(p, h, id, b, evicted.value)
                  && Dropped(p.info, p.untried[b], p.idCount, now, lots, evicted.value)
                  && u == Inserted(Released(p, b, evicted.value), b, id))
  }

  lemma EntryFacts(t: Tables, h: Hasher, addr: Address)
    requires Consistent(t, h, NONE)
    ensures var ip := addr.service.ip;
            && |t.untried| == NEW_BUCKETS
            && (ip in t.byAddr ==> t.byAddr[ip] in t.info && t.info[t.byAddr[ip]].addr.service.ip == ip
                                   && 0 <= t.info[t.byAddr[ip]].refCount <= BUCKETS_PER_ADDRESS)
            && (forall b :: 0 <= b < |t.untried| ==> t.idCount !in t.untried[b])
  {
    forall b | 0 <= b < |t.untried| ensures t.idCount !in t.untried[b] {
      assert t.untried[b] <= t.info.Keys;
    }
    if addr.service.ip in t.byAddr {
      var id := t.byAddr[addr.service.ip];
      assert RefOk(t.info[id], |Homes(t.untried, id)|, id == NONE);
    }
  }

  /** Add_'s tests on a known entry: news, still new, not in every bucket allowed, and a lucky draw. */
  predicate Wanted(i: Info, addr: Address, lots: Lots) {
    && addr.time != 0 && (i.addr.time == 0 || addr.time > i.addr.time)
    && !i.inTried && i.refCount >= 0 && i.refCount != BUCKETS_PER_ADDRESS
    && RandInt(lots.again, Pow(2, i.refCount)) == 0
  }

  /** One in 2^n for an entry already in n buckets. */
  method WantsBucket(i: Info, addr: Address, lots: Lots) returns (more: bool)
    requires i.refCount >= 0
    ensures more <==> Wanted(i, addr, lots)
  {
    if addr.time == 0 || (i.addr.time != 0 && addr.time <= i.addr.time) {
      return false;
    }
    if i.inTried || i.refCount == BUCKETS_PER_ADDRESS {
      return false;
    }
    var factor := 1;
    for n := 0 to i.refCount
      invariant factor == Pow(2, n)
    {
      factor := factor * 2;
    }
    more := !(factor > 1 && RandInt(lots.again, factor) != 0);
  }

  lemma TouchedKeeps(t: Tables, h: Hasher, id: int, i: Info)
    requires Consistent(t, h, NONE) && id in t.info && SameId(t.info[id], i) && i.pos == t.info[id].pos
    requires i.refCount == t.info[id].refCount < BUCKETS_PER_ADDRESS && !i.inTried
    ensures Consistent(Rewritten(t, id, i.(refCount := i.refCount + 1)), h, id)
  {
    hide Consistent;
    RewriteKeeps(t, h, NONE, id, i);
    var s := Rewritten(t, id, i);
    ReferenceKeeps(s, h, id);
    assert s.info[id := i.(refCount := i.refCount + 1)] == t.info[id := i.(refCount := i.refCount + 1)];
  }

  /** Preparing an entry leaves it pending and everything else consistent. */
  lemma PreparedKeeps(t: Tables, h: Hasher, addr: Address, source: NetAddr, penalty: int, now: int)
    requires Consistent(t, h, NONE)
    requires var ip := addr.service.ip;
             ip in t.byAddr ==> t.byAddr[ip] in t.info && !t.info[t.byAddr[ip]].inTried &&
                                t.info[t.byAddr[ip]].refCount < BUCKETS_PER_ADDRESS
    ensures Consistent(Prepared(t, addr, source, penalty, now), h, EntryId(t, addr))
    ensures Prepared(t, addr, source, penalty, now).untried == t.untried
    ensures EntryId(t, addr) in Prepared(t, addr, source, penalty, now).info
    ensures Ip(Prepared(t, addr, source, penalty, now), EntryId(t, addr)) == addr.service.ip
  {
    EntryFacts(t, h, addr);
    hide Consistent, Touched, Time32;
    var ip := addr.service.ip;
    if ip in t.byAddr {
      var id := t.byAddr[ip];
      TouchedShape(t.info[id], addr, penalty, now);
      TouchedKeeps(t, h, id, Touched(t.info[id], addr, penalty, now));
    } else {
      EnterKeeps(t, h, NewEntry(addr, source, penalty, |t.random|));
    }
  }

  lemma ReleasedShape(t: Tables, h: Hasher, pending: int, b: nat, v: int)
    requires Consistent(t, h, pending) && b < |t.untried| && v in t.untried[b] && v != pending && pending in t.info
    requires ReleaseKept(t, h, pending, b, v)
    ensures var u := Released(t, b, v);
            && pending in u.info && |u.untried| == |t.untried| && u.untried[b] == t.untried[b] - {v}
            && u.tried == t.tried && u.triedCount == t.triedCount && u.info.Keys >= t.info.Keys - {v}
            && u.byAddr.Keys >= t.byAddr.Keys - {Ip(t, v)} && u.byAddr.Keys <= t.byAddr.Keys
            && forall a :: a in u.byAddr ==> u.byAddr[a] == t.byAddr[a]
  {
  }

  /** Whatever the fate, the tables stay consistent and at most the evicted address is forgotten. */
  lemma AddsKeep(t: Tables, u: Tables, h: Hasher, addr: Address, source: NetAddr, penalty: int, now: int, lots: Lots,
                 fate: Fate)
    requires Consistent(t, h, NONE) && Adds(t, u, h, addr, source, penalty, now, lots, fate)
    ensures Consistent(u, h, NONE) && u.tried == t.tried && u.triedCount == t.triedCount
    ensures fate != Ignored ==> addr.service.ip in u.byAddr
    ensures forall a :: a in t.byAddr && a in u.byAddr ==> u.byAddr[a] == t.byAddr[a]
    ensures (fate.Stored? && fate.evicted.Some?) || t.byAddr.Keys <= u.byAddr.Keys
    ensures fate.Stored? && fate.evicted.Some? ==>
              var p := Prepared(t, addr, source, penalty, now);
              fate.evicted.value in p.info && t.byAddr.Keys - {Ip(p, fate.evicted.value)} <= u.byAddr.Keys
  {
    hide Consistent, NewBucket, Time32, Released, Asks, Dropped;
    var ip, id := addr.service.ip, EntryId(t, addr);
    match fate
    case Ignored =>
    case Noted => RewriteKeeps(t, h, NONE, id, Touched(t.info[id], addr, penalty, now));
    case Stored(evicted) =>
      var p := Prepared(t, addr, source, penalty, now);
      PreparedKeeps(t, h, addr, source, penalty, now);
      var b := NewBucket(h, p.info[id], source);
      if evicted.None? {
        InsertKeeps(p, h, b, id);
      } else {
        var v := evicted.value;
        ReleaseKeeps(p, h, id, b, v);
        ReleasedShape(p, h, id, b, v);
        BucketFull(p, h, id, b);
        InsertKeeps(Released(p, b, v), h, b, id);
        OtherName(p, h, id, id, v);
      }
  }

  lemma BucketFull(t: Tables, h: Hasher, pending: int, b: nat)
    requires Consistent(t, h, pending) && b < |t.untried|
    ensures |t.untried[b]| <= NEW_SIZE
  {
  }

  lemma OtherName(t: Tables, h: Hasher, pending: int, id: int, v: int)
    requires Consistent(t, h, pending) && id in t.info && v in t.info && id != v
    ensures Ip(t, id) != Ip(t, v) && Ip(t, id) in t.byAddr && t.byAddr[Ip(t, id)] == id
  {
    assert Named1(t.info, t.byAddr, id) && Named1(t.info, t.byAddr, v);
  }

  /** Whether the count is lowered before or after the swap makes no difference to a deleted entry. */
  lemma ReleaseLast(t: Tables, b: nat, id: int)
    requires b < |t.untried| && id in t.info && 0 <= t.info[id].pos < |t.random| && t.info[id].refCount == 1
    requires t.random[t.info[id].pos] == id && t.random[|t.random| - 1] in t.info
    ensures var u := AddrTables.Swapped(Lowered(t, id), t.info[id].pos, |t.random| - 1);
            && id in u.info && u.info[id].addr == t.info[id].addr && |u.random| == |t.random|
            && u == Lowered(t, id).(info := u.info, random := u.random)
            && Released(t, b, id) == u.(info := u.info - {id}, byAddr := t.byAddr - {Ip(t, id)},
                                        random := u.random[..|t.random| - 1], untriedCount := t.untriedCount - 1,
                                        untried := t.untried[b := t.untried[b] - {id}])
  {
    var p, q := t.info[id].pos, |t.random| - 1;
    assert AddrTables.Swapped(Lowered(t, id), p, q).info - {id} == AddrTables.Swapped(t, p, q).info - {id};
  }

  lemma ReleaseMore(t: Tables, b: nat, id: int)
    requires b < |t.untried| && id in t.info && 0 <= t.info[id].pos < |t.random| && t.info[id].refCount > 1
    requires t.random[t.info[id].pos] == id && t.random[|t.random| - 1] in t.info
    ensures Released(t, b, id) == Lowered(t, id).(untried := t.untried[b := t.untried[b] - {id}])
  {
    hide AddrTables.Swapped;
  }

  class AddrMan {
    const h: Hasher
    var idCount: int
    var info: map<int, Info>
    var byAddr: map<NetAddr, int>
    var random: seq<int>
    var tried: seq<seq<int>>
    var untried: seq<set<int>>
    var triedCount: int
    var untriedCount: int

    ghost function T(): Tables
      reads this
    {
      Tables(idCount, info, byAddr, random, tried, untried, triedCount, untriedCount)
    }

    ghost predicate Valid()
      reads this
    {
      Consistent(T(), h, NONE)
    }

    constructor (hasher: Hasher)
      ensures Valid() && h == hasher && byAddr == map[] && random == [] && Stamped(T())
    {
      h := hasher;
      idCount, info, byAddr, random, triedCount, untriedCount := 0, map[], map[], [], 0, 0;
      tried := seq(TRIED_BUCKETS, i => []);
      untried := seq(NEW_BUCKETS, i => {});
      new;
      assert TriedIds(info) == {} && NewIds(info) == {};
    }

    /** Find: an id for a network address, whatever the port. */
    method Find(a: NetAddr) returns (id: Option<int>)
      requires Valid()
      ensures a in byAddr ==> id == Some(byAddr[a]) && byAddr[a] in info && Ip(T(), byAddr[a]) == a
      ensures a !in byAddr ==> id == None
    {
      if a !in byAddr {
        return None;
      }
      var found := byAddr[a];
      if found in info {
        return Some(found);
      }
      return None;
    }

    /** SwapRandom */
    method SwapRandom(p: int, q: int)
      requires 0 <= p < |random| && 0 <= q < |random| && random[p] in info && random[q] in info
      modifies this
      ensures T() == AddrTables.Swapped(old(T()), p, q)
    {
      if p == q {
        return;
      }
      var a, b := random[p], random[q];
      info := info[a := info[a].(pos := q)];
      info := info[b := info[b].(pos := p)];
      random := random[p := b];
      random := random[q := a];
    }

    /** SelectTried: partly shuffles a tried bucket and names a place in it. */
    method SelectTried(k: nat, lots: Lots) returns (n: nat)
      requires k < |tried| && tried[k] != [] && forall x :: x in tried[k] ==> x in info
      modifies this
      ensures k < |tried| && T() == old(T()).(tried := old(tried)[k := tried[k]])
      ensures multiset(tried[k]) == multiset(old(tried[k])) && n < |tried[k]|
      ensures Selects(info, old(tried[k]), lots, tried[k], n)
    {
      var bucket;
      n, bucket := SelectPlace(tried[k], info, lots);
      tried := tried[k := bucket];
    }

    /** Taking an entry out of a new bucket, and out of the tables when it was its last. */
    method Release(b: nat, id: int)
      requires b < |untried| && id in info && 0 <= info[id].pos < |random| && info[id].refCount >= 1
      requires random[info[id].pos] == id && random[|random| - 1] in info && Ip(T(), id) in byAddr
      modifies this
      ensures T() == Released(old(T()), b, id)
    {
      hide AddrTables.Swapped, Released;
      ghost var t := T();
      info := info[id := info[id].(refCount := info[id].refCount - 1)];
      if info[id].refCount == 0 {
        ReleaseLast(t, b, id);
        SwapRandom(info[id].pos, |random| - 1);
        random := random[..|random| - 1];
        byAddr := byAddr - {info[id].addr.service.ip};
        info := info - {id};
        untriedCount := untriedCount - 1;
      } else {
        ReleaseMore(t, b, id);
      }
      untried := untried[b := untried[b] - {id}];
    }

    /**
     ShrinkNew: drops the first terrible entry of a full bucket, or else the longest unseen of the up to
     four drawn. The entry about to be added is pending and not in the bucket.
     */
    method ShrinkNew(b: nat, now: int, lots: Lots, ghost pending: int) returns (r: int, ghost victim: int)
      requires Consistent(T(), h, pending) && b < |untried| && untried[b] != {} && pending !in untried[b]
      modifies this
      ensures victim in old(untried[b]) && victim in old(info)
      ensures Consistent(T(), h, pending)
      ensures ReleaseKept(old(T()), h, pending, b, victim) && T() == Released(old(T()), b, victim)
      ensures Shrinks(old(info), old(untried[b]), old(idCount), now, lots, r, victim)
    {
      hide Sampled, Consistent;
      ghost var t := T();
      BucketKnown(t, h, pending, b);
      var bucket := untried[b];
      for it := 0 to idCount
        invariant T() == t
        invariant forall x :: x in bucket && x < it ==> !IsTerrible(info[x], now)
      {
        if it in bucket && IsTerrible(info[it], now) {
          ReleaseKeeps(t, h, pending, b, it);
          NameKnown(t, h, pending, it);
          Release(b, it);
          return 0, it;
        }
      }
      var oldest := OldestOfFour(bucket, info, idCount, lots);
      SampledIn(bucket, lots, oldest);
      ReleaseKeeps(t, h, pending, b, oldest);
      NameKnown(t, h, pending, oldest);
      Release(b, oldest);
      return 1, oldest;
    }

    /** MakeTried: out of all new buckets and into its tried bucket, evicting an entry if that is full. */
    method MakeTried(id: int, origin: nat, lots: Lots) returns (ghost move: Move)
      requires Valid() && origin < |untried| && id in untried[origin]
      modifies this
      ensures Moves(old(T()), T(), h, id, lots, move) && move != Stayed
    {
      hide Consistent, Homes, TriedBucket;
      ghost var t := T();
      AboutToMove(t, h, id, origin);
      var cleared, refs := ClearBuckets(untried, id, info[id].refCount);
      untried := cleared;
      info := info[id := info[id].(refCount := refs)];
      untriedCount := untriedCount - 1;
      assert info[id].refCount == 0;
      var k := TriedBucket(h, info[id]);
      SameBucket(h, t.info[id], info[id]);
      assert T() == Leaving(t, id);
      if |tried[k]| < TRIED_SIZE {
        tried := tried[k := tried[k] + [id]];
        triedCount := triedCount + 1;
        info := info[id := info[id].(inTried := true)];
        assert T() == Promoted(t, h, id);
        return Added;
      }
      move := Evict(id, origin, k, lots, t);
    }

    /** The second half of MakeTried: the bucket is full and one of its entries goes back to a new bucket. */
    method Evict(id: int, origin: nat, k: nat, lots: Lots, ghost t: Tables) returns (ghost move: Move)
      requires Consistent(t, h, NONE) && origin < |t.untried| && id in t.untried[origin]
      requires id in t.info && T() == Leaving(t, id)
      requires k == TriedBucket(h, t.info[id]) && |tried[k]| >= TRIED_SIZE
      modifies this
      ensures Moves(t, T(), h, id, lots, move) && move != Stayed
    {
      hide Consistent, TriedBucket, NewBucket, Selects, Moves, Replaced, Evicts;
      AboutToMove(t, h, id, origin);
      BucketPlaced(t, h, k);
      var n := SelectTried(k, lots);
      ghost var bucket := tried[k];
      SelectsAlike(info, t.info, t.tried[k], lots, bucket, n);
      BucketKept(t, h, k, bucket, n);
      var victim := tried[k][n];
      var home := NewBucket(h, info[victim], info[victim].source);
      info := info[victim := info[victim].(inTried := false, refCount := 1)];
      if |untried[home]| < NEW_SIZE {
        untried := untried[home := untried[home] + {victim}];
      } else {
        home := origin;
        untried := untried[origin := untried[origin] + {victim}];
      }
      untriedCount := untriedCount + 1;
      tried := tried[k := tried[k][n := id]];
      info := info[id := info[id].(inTried := true)];
      EvictedState(t, h, id, bucket, n, home, T());
      EvictMoves(t, h, id, bucket, n, home, lots, T());
      return Move.Swapped(bucket, n, home);
    }

    /**
     Good_: an entry known under this very service is noted as reached and moved to the tried buckets.
     The times stay as Check_ wants them exactly when the time is positive.
     */
    method Good(s: Service, now: int, lots: Lots) returns (ghost hit: bool, ghost move: Move)
      requires Valid()
      modifies this
      ensures Valid() && hit == old(Known(T(), s))
      ensures !hit ==> T() == old(T())
      ensures hit ==> var id := old(byAddr)[s.ip];
                      Moves(Rewritten(old(T()), id, Succeeded(old(info)[id], now)), T(), h, id, lots, move)
      ensures old(Stamped(T())) ==> (Stamped(T()) <==> !hit || now > 0)
    {
      hide Consistent, Moves, Stamped;
      ghost var t := T();
      var found := Find(s.ip);
      if found.None? {
        return false, Stayed;
      }
      var id := found.value;
      if info[id].addr.service != s {
        return false, Stayed;
      }
      ghost var noted := Rewritten(t, id, Succeeded(info[id], now));
      RewriteKeeps(t, h, NONE, id, Succeeded(info[id], now));
      info := info[id := Succeeded(info[id], now)];
      if info[id].inTried {
        AlreadyTried(noted, h, id, lots);
        move := Stayed;
      } else {
        NewHasHome(noted, h, id);
        var b := FindBucket(untried, id);
        move := MakeTried(id, b, lots);
      }
      MovesKeep(noted, T(), h, id, lots, move);
      if Stamped(t) {
        MovesStamped(t, T(), h, id, now, lots, move);
      }
      return true, move;
    }

    /** Attempt_ */
    method Attempt(s: Service, now: int) returns (ghost hit: bool)
      requires Valid()
      modifies this
      ensures Valid() && hit == old(Known(T(), s))
      ensures !hit ==> T() == old(T())
      ensures hit ==> var id := old(byAddr)[s.ip];
                      T() == Rewritten(old(T()), id,
                                       old(info)[id].(lastTry := now, attempts := old(info)[id].attempts + 1))
      ensures old(Stamped(T())) ==> (Stamped(T()) <==> !hit || now >= 0)
    {
      hide Consistent;
      var found := Find(s.ip);
      if found.None? {
        return false;
      }
      var id := found.value;
      if info[id].addr.service != s {
        return false;
      }
      RewriteKeeps(T(), h, NONE, id, info[id].(lastTry := now, attempts := info[id].attempts + 1));
      info := info[id := info[id].(lastTry := now)];
      info := info[id := info[id].(attempts := info[id].attempts + 1)];
      assert info == old(info)[id := info[id]];
      return true;
    }

    /** Connected_ */
    method Connected(s: Service, now: int) returns (ghost hit: bool)
      requires Valid()
      modifies this
      ensures Valid() && hit == old(Known(T(), s))
      ensures !hit ==> T() == old(T())
      ensures hit ==> var id, i := old(byAddr)[s.ip], old(info)[old(byAddr)[s.ip]];
                      T() == Rewritten(old(T()), id,
                                       if now - i.addr.time > 20 * 60 then i.(addr := i.addr.(time := Time32(now)))
                                       else i)
      ensures old(Stamped(T())) ==> Stamped(T())
    {
      hide Consistent;
      var found := Find(s.ip);
      if found.None? {
        return false;
      }
      var id := found.value;
      if info[id].addr.service != s {
        return false;
      }
      var i := info[id];
      RewriteKeeps(T(), h, NONE, id,
                   if now - i.addr.time > 20 * 60 then i.(addr := i.addr.(time := Time32(now))) else i);
      if now - info[id].addr.time > 20 * 60 {
        info := info[id := info[id].(addr := info[id].addr.(time := Time32(now)))];
      }
      assert info == old(info)[id := info[id]];
      return true;
    }

    /** GetAddr_: a random choice of known addresses, none given twice; only the order of vRandom changes. */
    method GetAddr() returns (out: seq<Address>)
      requires Valid()
      modifies this
      ensures Valid() && byAddr == old(byAddr) && tried == old(tried) && untried == old(untried)
      ensures info.Keys == old(info.Keys) && forall id :: id in info ==> info[id] == old(info)[id].(pos := info[id].pos)
      ensures multiset(random) == multiset(old(random))
      ensures |out| == (var share := GETADDR_MAX_PCT * |old(random)| / 100;
                        if share > GETADDR_MAX then GETADDR_MAX else share)
      ensures forall i :: 0 <= i < |out| ==>
                out[i].service.ip in byAddr && out[i] == info[byAddr[out[i].service.ip]].addr
      ensures forall i, j :: 0 <= i < j < |out| ==> out[i].service.ip != out[j].service.ip
    {
      hide Consistent;
      var nodes := GETADDR_MAX_PCT * |random| / 100;
      if nodes > GETADDR_MAX {
        nodes := GETADDR_MAX;
      }
      out := [];
      ghost var t := T();
      for n := 0 to nodes
        invariant Valid() && nodes <= |random| && Drawn(t, T(), out, n)
      {
        var p :| n <= p < |random|;
        DrawStep(t, T(), h, out, n, p);
        SwapRandom(n, p);
        out := out + [info[random[n]].addr];
      }
      Distinct(T(), h, out);
    }

    /**
     Add_: an unknown address is created, a known one noted and possibly given another bucket; a full
     bucket first loses an entry. True says the address was not known before.
     */
    method Add(addr: Address, source: NetAddr, penalty: int, now: int, routable: bool, lots: Lots)
      returns (isNew: bool, ghost fate: Fate)
      requires Valid()
      modifies this
      ensures Valid() && Adds(old(T()), T(), h, addr, source, penalty, now, lots, fate)
      ensures isNew <==> routable && addr.service.ip !in old(byAddr)
      ensures fate == Ignored <==> !routable
      ensures routable && addr.service.ip !in old(byAddr) ==> fate.Stored?
    {
      hide Consistent, Adds, Touched, NewEntry, Wanted, Asks;
      ghost var t := T();
      EntryFacts(t, h, addr);
      if !routable {
        FateIgnored(t, h, addr, source, penalty, now, lots);
        return false, Ignored;
      }
      var id: int;
      var found := Find(addr.service.ip);
      if found.Some? {
        id := found.value;
        info := info[id := Touched(info[id], addr, penalty, now)];
        TouchedShape(t.info[id], addr, penalty, now);
        RewriteKeeps(t, h, NONE, id, info[id]);
        FateKnown(t, h, addr, source, penalty, now, lots);
        isNew := false;
        var more := WantsBucket(info[id], addr, lots);
        if !more {
          return false, Noted;
        }
      } else {
        id := Create(addr, source, penalty);
        isNew := true;
      }
      var b := NewBucket(h, info[id], source);
      if id in untried[b] {
        return isNew, Noted;
      }
      info := info[id := info[id].(refCount := info[id].refCount + 1)];
      PreparedSteps(t, addr, source, penalty, now);
      assert T() == Prepared(t, addr, source, penalty, now);
      fate := Store(addr, source, penalty, now, lots, id, b, t);
    }

    /** Create, with the time penalty and the count Add_ applies at once. */
    method Create(addr: Address, source: NetAddr, penalty: int) returns (id: int)
      modifies this
      ensures id == old(idCount)
      ensures T() == Entered(old(T()), NewEntry(addr, source, penalty, |old(random)|).(refCount := 0))
    {
      id := idCount;
      idCount := idCount + 1;
      info := info[id := Info(addr, source, 0, 0, 0, 0, false, -1)];
      byAddr := byAddr[addr.service.ip := id];
      info := info[id := info[id].(pos := |random|)];
      random := random + [id];
      info := info[id := info[id].(addr := info[id].addr.(time := Time32(Max(0, info[id].addr.time - penalty))))];
      untriedCount := untriedCount + 1;
    }

    /** The end of Add_: the entry is counted for the bucket; make room there and put it in. */
    method Store(addr: Address, source: NetAddr, penalty: int, now: int, lots: Lots, id: int, b: nat, ghost t: Tables)
      returns (ghost fate: Fate)
      requires Consistent(t, h, NONE) && id == EntryId(t, addr)
      requires var ip := addr.service.ip;
               ip in t.byAddr ==> t.byAddr[ip] in t.info && !t.info[t.byAddr[ip]].inTried &&
                                  t.info[t.byAddr[ip]].refCount < BUCKETS_PER_ADDRESS
      requires T() == Prepared(t, addr, source, penalty, now) && id in info && b == NewBucket(h, info[id], source)
      requires |t.untried| == NEW_BUCKETS && id !in untried[b]
      requires addr.service.ip in t.byAddr ==> Asks(t, h, id, addr, source, penalty, now, lots)
      modifies this
      ensures Valid() && fate.Stored? && Adds(t, T(), h, addr, source, penalty, now, lots, fate)
    {
      hide Consistent, NewBucket, Prepared, Asks, Shrinks;
      ghost var p := T();
      PreparedKeeps(t, h, addr, source, penalty, now);
      BucketFull(p, h, id, b);
      fate := Stored(None);
      if |untried[b]| == NEW_SIZE {
        var r;
        ghost var victim;
        r, victim := ShrinkNew(b, now, lots, id);
        ShrinksDropped(p.info, p.untried[b], p.idCount, now, lots, r, victim);
        fate := Stored(Some(victim));
        ReleasedShape(p, h, id, b, victim);
      }
      untried := untried[b := untried[b] + {id}];
      AddsKeep(t, T(), h, addr, source, penalty, now, lots, fate);
    }
  }

  lemma TouchedShape(i: Info, addr: Address, penalty: int, now: int)
    ensures var j := Touched(i, addr, penalty, now);
            j.inTried == i.inTried && j.refCount == i.refCount && j.addr.service == i.addr.service && j.pos == i.pos
  {
  }

  /** Counting the bucket last gives the prepared tables. */
  lemma PreparedSteps(t: Tables, addr: Address, source: NetAddr, penalty: int, now: int)
    ensures addr.service.ip !in t.byAddr ==>
              var e := NewEntry(addr, source, penalty, |t.random|);
              var u := Entered(t, e.(refCount := 0));
              && t.idCount in u.info && u.info[t.idCount].refCount == 0
              && Rewritten(u, t.idCount, u.info[t.idCount].(refCount := 1)) == Entered(t, e)
    ensures addr.service.ip in t.byAddr && t.byAddr[addr.service.ip] in t.info ==>
              var id := t.byAddr[addr.service.ip];
              var u := Rewritten(t, id, Touched(t.info[id], addr, penalty, now));
              Rewritten(u, id, u.info[id].(refCount := u.info[id].refCount + 1)) ==
                Prepared(t, addr, source, penalty, now)
  {
    hide Touched;
    if addr.service.ip in t.byAddr && t.byAddr[addr.service.ip] in t.info {
      var id := t.byAddr[addr.service.ip];
      var i := Touched(t.info[id], addr, penalty, now);
      assert t.info[id := i][id := i.(refCount := i.refCount + 1)] == t.info[id := i.(refCount := i.refCount + 1)];
    } else {
      var e := NewEntry(addr, source, penalty, |t.random|);
      assert t.info[t.idCount := e.(refCount := 0)][t.idCount := e] == t.info[t.idCount := e];
    }
  }

  lemma FateIgnored(t: Tables, h: Hasher, addr: Address, source: NetAddr, penalty: int, now: int, lots: Lots)
    requires Consistent(t, h, NONE)
    ensures Adds(t, t, h, addr, source, penalty, now, lots, Ignored)
  {
  }

  /** A known address is noted unless it asks for a bucket. */
  lemma FateKnown(t: Tables, h: Hasher, addr: Address, source: NetAddr, penalty: int, now: int, lots: Lots)
    requires Consistent(t, h, NONE) && addr.service.ip in t.byAddr
    ensures var id := t.byAddr[addr.service.ip];
            && id in t.info && |t.untried| == NEW_BUCKETS
            && var i := Touched(t.info[id], addr, penalty, now);
               && (!Asks(t, h, id, addr, source, penalty, now, lots) ==>
                     Adds(t, Rewritten(t, id, i), h, addr, source, penalty, now, lots, Noted))
               && (Asks(t, h, id, addr, source, penalty, now, lots) <==>
                     Wanted(i, addr, lots) && id !in t.untried[NewBucket(h, i, source)])
               && (Wanted(i, addr, lots) ==> !i.inTried && i.refCount != BUCKETS_PER_ADDRESS)
  {
    hide Touched, NewBucket;
  }

  /** n addresses have been drawn: they stand first in vRandom, and nothing but its order has changed. */
  ghost predicate Drawn(t: Tables, u: Tables, out: seq<Address>, n: nat) {
    && u == t.(info := u.info, random := u.random) && |u.random| == |t.random|
    && multiset(u.random) == multiset(t.random)
    && u.info.Keys == t.info.Keys && (forall id :: id in u.info ==> u.info[id] == t.info[id].(pos := u.info[id].pos))
    && |out| == n <= |u.random|
    && (forall i :: 0 <= i < n ==> u.random[i] in u.info && out[i] == u.info[u.random[i]].addr)
  }

  lemma DrawStep(t: Tables, u: Tables, h: Hasher, out: seq<Address>, n: nat, p: nat)
    requires Consistent(u, h, NONE) && Drawn(t, u, out, n) && n <= p < |u.random|
    ensures u.random[n] in u.info && u.random[p] in u.info
    ensures var v := AddrTables.Swapped(u, n, p);
            Consistent(v, h, NONE) && v.random[n] in v.info && Drawn(t, v, out + [v.info[v.random[n]].addr], n + 1)
  {
    hide Consistent, AddrTables.Swapped;
    RandomKnown(u, h);
    SwapKeeps(u, h, NONE, n, p);
    SwappedShape(u, n, p);
    var v := AddrTables.Swapped(u, n, p);
    RandomKnown(v, h);
    forall id | id in v.info ensures v.info[id] == t.info[id].(pos := v.info[id].pos) {
      assert id in u.info && u.info[id] == t.info[id].(pos := u.info[id].pos);
    }
    forall i | 0 <= i < n ensures v.random[i] in v.info && out[i] == v.info[v.random[i]].addr {
      var id := u.random[i];
      assert v.random[i] == id && id in u.info && v.info[id] == u.info[id].(pos := v.info[id].pos);
    }
  }

  lemma RandomKnown(t: Tables, h: Hasher)
    requires Consistent(t, h, NONE)
    ensures forall p :: 0 <= p < |t.random| ==> t.random[p] in t.info
  {
  }

  lemma SwappedShape(t: Tables, p: nat, q: nat)
    requires p <= q < |t.random| && t.random[p] in t.info && t.random[q] in t.info
    ensures var u := AddrTables.Swapped(t, p, q);
            && u == t.(info := u.info, random := u.random) && |u.random| == |t.random|
            && forall i :: 0 <= i < p ==> u.random[i] == t.random[i]
  {
  }

  lemma Distinct(t: Tables, h: Hasher, out: seq<Address>)
    requires Consistent(t, h, NONE) && |out| <= |t.random|
    requires forall i :: 0 <= i < |out| ==> t.random[i] in t.info && out[i] == t.info[t.random[i]].addr
    ensures forall i :: 0 <= i < |out| ==> out[i].service.ip in t.byAddr && t.byAddr[out[i].service.ip] == t.random[i]
    ensures forall i, j :: 0 <= i < j < |out| ==> out[i].service.ip != out[j].service.ip
  {
    forall i | 0 <= i < |out| ensures out[i].service.ip in t.byAddr && t.byAddr[out[i].service.ip] == t.random[i] {
      var id := t.random[i];
      assert id in t.info && Named1(t.info, t.byAddr, id);
    }
    forall i, j | 0 <= i < j < |out| ensures out[i].service.ip != out[j].service.ip {
      var a, b := t.random[i], t.random[j];
      assert t.info[a].pos == i && t.info[b].pos == j;
    }
  }

  lemma AlreadyTried(t: Tables, h: Hasher, id: int, lots: Lots)
    requires Consistent(t, h, NONE) && id in t.info && t.info[id].inTried
    ensures Moves(t, t, h, id, lots, Stayed)
  {
  }

  lemma NewHasHome(t: Tables, h: Hasher, id: int)
    requires Consistent(t, h, NONE) && id in t.info && !t.info[id].inTried
    ensures t.untried != [] && exists c :: 0 <= c < |t.untried| && id in t.untried[c]
  {
    assert RefOk(t.info[id], |Homes(t.untried, id)|, id == NONE);
    var c :| c in Homes(t.untried, id);
  }

  /** The entry already out of all new buckets, not yet in a tried one. */
  function Leaving(t: Tables, id: int): Tables
    requires id in t.info
  {
    t.(info := t.info[id := t.info[id].(refCount := 0)], untried := Cleared(t.untried, id),
       untriedCount := t.untriedCount - 1)
  }

  lemma SameBucket(h: Hasher, i: Info, j: Info)
    requires i.addr.service == j.addr.service
    ensures TriedBucket(h, i) == TriedBucket(h, j)
  {
  }

  lemma AboutToMove(t: Tables, h: Hasher, id: int, origin: nat)
    requires Consistent(t, h, NONE) && origin < |t.untried| && id in t.untried[origin]
    ensures id in t.info && !t.info[id].inTried && t.info[id].refCount == |Homes(t.untried, id)|
    ensures |t.tried| == TRIED_BUCKETS && |t.untried| == NEW_BUCKETS && |t.untried[origin] - {id}| < NEW_SIZE
  {
    InBucketIsNew(t, h, NONE, origin, id);
    assert RefOk(t.info[id], |Homes(t.untried, id)|, false);
  }

  lemma EvictMoves(t: Tables, h: Hasher, id: int, bucket: seq<int>, n: nat, home: nat, lots: Lots, u: Tables)
    requires id in t.info && !t.info[id].inTried && |t.tried| == TRIED_BUCKETS && n < |bucket| && home < |t.untried|
    requires |t.tried[TriedBucket(h, t.info[id])]| >= TRIED_SIZE
    requires multiset(bucket) == multiset(t.tried[TriedBucket(h, t.info[id])])
    requires bucket[n] in t.info && t.info[bucket[n]].inTried && |t.untried[home] - {id}| < NEW_SIZE
    requires Selects(t.info, t.tried[TriedBucket(h, t.info[id])], lots, bucket, n)
    requires home == NewBucket(h, t.info[bucket[n]], t.info[bucket[n]].source) || id in t.untried[home]
    requires u == Replaced(t, h, id, bucket, n, home)
    ensures Moves(t, u, h, id, lots, Move.Swapped(bucket, n, home))
  {
    hide TriedBucket, NewBucket, Selects, Replaced;
  }

  lemma EvictedState(t: Tables, h: Hasher, id: int, bucket: seq<int>, n: nat, home: nat, u: Tables)
    requires id in t.info && !t.info[id].inTried && |t.tried| == TRIED_BUCKETS && n < |bucket| && home < |t.untried|
    requires bucket[n] in t.info && t.info[bucket[n]].inTried
    requires var l := Leaving(t, id);
             u == l.(info := l.info[bucket[n] := l.info[bucket[n]].(inTried := false, refCount := 1)]
                              [id := l.info[id].(inTried := true)],
                     untried := l.untried[home := l.untried[home] + {bucket[n]}], untriedCount := t.untriedCount,
                     tried := t.tried[TriedBucket(h, t.info[id]) := bucket[n := id]])
    ensures u == Replaced(t, h, id, bucket, n, home)
  {
    hide TriedBucket;
    assert u.info == Replaced(t, h, id, bucket, n, home).info;
  }

  lemma LeastAlike(info: map<int, Info>, other: map<int, Info>, r: seq<int>, m: nat, k: nat)
    requires LeastRecent(info, r, m, k)
    requires forall x :: x in info ==> x in other && other[x].lastSuccess == info[x].lastSuccess
    ensures LeastRecent(other, r, m, k)
  {
    forall j | 0 <= j < m ensures r[j] in other && other[r[j]].lastSuccess == info[r[j]].lastSuccess {
      var x := r[j];
      assert x in info;
    }
  }

  /** Entries with the same times select alike. */
  lemma SelectsAlike(info: map<int, Info>, other: map<int, Info>, bucket: seq<int>, lots: Lots, r: seq<int>, n: nat)
    requires Selects(info, bucket, lots, r, n)
    requires forall x :: x in info ==> x in other && other[x].lastSuccess == info[x].lastSuccess
    ensures Selects(other, bucket, lots, r, n)
  {
    hide PartShuffled, DrawnPlace;
    var m := if |bucket| < INSPECT_ON_EVICT then |bucket| else INSPECT_ON_EVICT;
    assert m <= INSPECT_ON_EVICT;
    var k :| LeastRecent(info, r, m, k) && n == DrawnPlace(lots, |bucket|, k);
    LeastAlike(info, other, r, m, k);
  }

  lemma BucketPlaced(t: Tables, h: Hasher, k: nat)
    requires Consistent(t, h, NONE) && k < TRIED_BUCKETS
    ensures forall x :: x in t.tried[k] ==> x in t.info && t.info[x].inTried
  {
    forall x | x in t.tried[k] ensures x in t.info && t.info[x].inTried {
      var j :| 0 <= j < |t.tried[k]| && t.tried[k][j] == x;
      assert PlacedTried(t, h, t.tried[k][j], k);
    }
  }

  lemma BucketKept(t: Tables, h: Hasher, k: nat, bucket: seq<int>, n: nat)
    requires Consistent(t, h, NONE) && k < TRIED_BUCKETS && multiset(bucket) == multiset(t.tried[k]) && n < |bucket|
    ensures bucket[n] in t.info && t.info[bucket[n]].inTried
  {
    BucketPlaced(t, h, k);
    assert bucket[n] in multiset(bucket) && bucket[n] in multiset(t.tried[k]);
  }

  /** MakeTried's loop over the new buckets. */
  method ClearBuckets(untried: seq<set<int>>, id: int, refCount: int) returns (r: seq<set<int>>, refs: int)
    ensures r == Cleared(untried, id) && refs == refCount - |Homes(untried, id)|
  {
    r, refs := untried, refCount;
    ghost var seen: set<int> := {};
    for b := 0 to |untried|
      invariant |r| == |untried| && refs == refCount - |seen|
      invariant forall c :: 0 <= c < b ==> r[c] == untried[c] - {id}
      invariant forall c :: b <= c < |r| ==> r[c] == untried[c]
      invariant seen == set c | 0 <= c < b && id in untried[c]
    {
      if id in r[b] {
        assert b !in seen;
        seen := seen + {b};
        refs := refs - 1;
      }
      r := r[b := r[b] - {id}];
    }
    assert seen == Homes(untried, id);
  }

  function Earlier(bucket: set<int>, id: int): set<int> {
    set x | x in bucket && x < id
  }

  lemma EarlierStep(bucket: set<int>, id: int)
    ensures |Earlier(bucket, id + 1)| == |Earlier(bucket, id)| + if id in bucket then 1 else 0
  {
    assert Earlier(bucket, id + 1) == if id in bucket then Earlier(bucket, id) + {id} else Earlier(bucket, id);
  }

  lemma EarlierEnds(bucket: set<int>, n: int)
    requires forall x :: x in bucket ==> 0 <= x < n
    ensures |Earlier(bucket, 0)| == 0 && (n >= 0 ==> |Earlier(bucket, n)| == |bucket|)
  {
    assert Earlier(bucket, 0) == {} && Earlier(bucket, n) == bucket;
  }

  lemma SampledIn(bucket: set<int>, lots: Lots, x: int)
    requires Sampled(bucket, lots, x)
    ensures x in bucket
  {
  }

  lemma BucketKnown(t: Tables, h: Hasher, pending: int, b: nat)
    requires Consistent(t, h, pending) && b < |t.untried|
    ensures 0 <= t.idCount && forall x :: x in t.untried[b] ==> x in t.info && 0 <= x < t.idCount
  {
    assert t.untried[b] <= t.info.Keys;
  }

  lemma NameKnown(t: Tables, h: Hasher, pending: int, id: int)
    requires Consistent(t, h, pending) && id in t.info
    ensures Ip(t, id) in t.byAddr
  {
    assert Named1(t.info, t.byAddr, id);
  }

  /** The conditions under which Released is defined, as ReleaseKeeps gives them. */
  ghost predicate ReleaseKept(t: Tables, h: Hasher, pending: int, b: nat, id: int) {
    && b < |t.untried| && id in t.untried[b] && id in t.info && 0 <= t.info[id].pos < |t.random|
    && t.random[t.info[id].pos] == id && t.random[|t.random| - 1] in t.info && !t.info[id].inTried
  }
}
