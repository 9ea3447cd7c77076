/** Sets of flags kept in the bits of a word. */
module Bits {
  /** The bits of both, and no others. */
  predicate Unites(a: bv64, b: bv64, r: bv64) {
    r & a == a && r & b == b && r & !a & !b == 0
  }

  lemma OrHasFirst(a: bv64, b: bv64)
    ensures (a | b) & a == a
  {
  }

  lemma OrHasSecond(a: bv64, b: bv64)
    ensures (a | b) & b == b
  {
  }

  lemma OrHasNoMore(a: bv64, b: bv64)
    ensures (a | b) & !a & !b == 0
  {
  }

  lemma UnitesOr(a: bv64, b: bv64)
    ensures Unites(a, b, a | b)
  {
    OrHasFirst(a, b);
    OrHasSecond(a, b);
    OrHasNoMore(a, b);
  }
}

/**
 What the address manager's operations mean for the entries, said without the functions that compute it:
 times that only go forward, entries that may not be dropped, and how far one group can spread.
 */
module AddrLaws {
  import opened Bytes
  import opened Radix
  import opened AddrTables
  import opened AddrMan
  import opened Bits

  predicate Time(n: int) { 0 <= n < 0x1_0000_0000 }

  /** How much newer an announcement must be: an hour for a node seen within a day, a day otherwise. */
  function Interval(time: int, now: int): int {
    if now - time < 86400 then 3600 else 86400
  }

  /** An announcement, less the penalty, that is news for an entry last seen at some time. */
  predicate News(seen: int, time: int, penalty: int, now: int) {
    time != 0 && (seen == 0 || time - penalty - seen > Interval(time, now))
  }

  /** The entry after an announcement: nothing but its time and its services changes, and those only so. */
  ghost predicate Announced(i: Info, j: Info, addr: Address, penalty: int, now: int) {
    && j.addr.service == i.addr.service && j.source == i.source && j.attempts == i.attempts
    && j.lastTry == i.lastTry && j.lastSuccess == i.lastSuccess && j.inTried == i.inTried
    && (j.addr.time >= i.addr.time && (j.addr.time <= i.addr.time || j.addr.time <= addr.time))
    && (News(i.addr.time, addr.time, penalty, now) ==>
          if addr.time < penalty then j.addr.time == 0 else j.addr.time + penalty == addr.time)
    && (!News(i.addr.time, addr.time, penalty, now) ==> j.addr.time == i.addr.time)
    && Unites(i.addr.services, addr.services, j.addr.services)
  }

  lemma TouchedAnnounces(i: Info, addr: Address, penalty: int, now: int)
    requires Time(i.addr.time) && Time(addr.time) && penalty >= 0
    ensures Announced(i, Touched(i, addr, penalty, now), addr, penalty, now)
  {
    hide Unites;
    UnitesOr(i.addr.services, addr.services);
  }

  /** Two entries that differ in their place in vRandom and their count of buckets only. */
  predicate Alike(i: Info, j: Info) {
    j == i.(pos := j.pos, refCount := j.refCount)
  }

  lemma ReleasedAlike(t: Tables, b: nat, id: int)
    requires b < |t.untried| && id in t.info && 0 <= t.info[id].pos < |t.random|
    requires t.random[t.info[id].pos] in t.info && t.random[|t.random| - 1] in t.info
    ensures forall x :: x in Released(t, b, id).info ==> x in t.info && Alike(t.info[x], Released(t, b, id).info[x])
    ensures forall x :: x in Released(t, b, id).info && x != id ==>
              Released(t, b, id).info[x].refCount == t.info[x].refCount
  {
  }

  /** A fate that puts the address into a bucket, with what was evicted for it. */
  lemma StoredEntries(t: Tables, u: Tables, h: Hasher, addr: Address, source: NetAddr, penalty: int, now: int,
                      lots: Lots, fate: Fate)
    requires Consistent(t, h, NONE) && Adds(t, u, h, addr, source, penalty, now, lots, fate) && fate.Stored?
    ensures var p := Prepared(t, addr, source, penalty, now);
            forall x :: x in u.info ==> x in p.info && Alike(p.info[x], u.info[x])
    ensures var p := Prepared(t, addr, source, penalty, now);
            forall x :: x in u.info && fate.evicted != Some(x) ==> u.info[x].refCount == p.info[x].refCount
  {
    hide Prepared, NewBucket, Released, Asks, Dropped, Consistent;
    var p := Prepared(t, addr, source, penalty, now);
    if fate.evicted.Some? {
      ReleasedAlike(p, NewBucket(h, p.info[EntryId(t, addr)], source), fate.evicted.value);
    }
  }

  /**
   A known address announced again, whatever its fate: its entry takes the announcement, and other entries
   that stay keep all but their place and their count of buckets.
   */
  lemma AddsKnown(t: Tables, u: Tables, h: Hasher, addr: Address, source: NetAddr, penalty: int, now: int, lots: Lots,
                  fate: Fate)
    requires Consistent(t, h, NONE) && Adds(t, u, h, addr, source, penalty, now, lots, fate) && fate != Ignored
    requires addr.service.ip in t.byAddr && Time(addr.time) && penalty >= 0
    requires var id := t.byAddr[addr.service.ip]; id in t.info && Time(t.info[id].addr.time)
    ensures var id := t.byAddr[addr.service.ip];
            id in u.info && Announced(t.info[id], u.info[id], addr, penalty, now)
    ensures forall x :: x in u.info && x != t.byAddr[addr.service.ip] ==> x in t.info && Alike(t.info[x], u.info[x])
  {
    var id := t.byAddr[addr.service.ip];
    EntryStays(t, u, h, addr, source, penalty, now, lots, fate);
    TouchedAnnounces(t.info[id], addr, penalty, now);
    hide Touched, Announced, Consistent, Asks, Dropped, Released;
    var i := Touched(t.info[id], addr, penalty, now);
    if fate.Stored? {
      StoredEntries(t, u, h, addr, source, penalty, now, lots, fate);
      AnnouncedAlike(t.info[id], i, u.info[id], addr, penalty, now);
    }
  }

  lemma AnnouncedAlike(i: Info, j: Info, k: Info, addr: Address, penalty: int, now: int)
    requires Announced(i, j, addr, penalty, now) && Alike(j, k)
    ensures Announced(i, k, addr, penalty, now)
  {
  }

  lemma EntryStays(t: Tables, u: Tables, h: Hasher, addr: Address, source: NetAddr, penalty: int, now: int, lots: Lots,
                   fate: Fate)
    requires Consistent(t, h, NONE) && Adds(t, u, h, addr, source, penalty, now, lots, fate) && fate != Ignored
    ensures addr.service.ip in u.byAddr && u.byAddr[addr.service.ip] in u.info
    ensures addr.service.ip in t.byAddr ==> u.byAddr[addr.service.ip] == t.byAddr[addr.service.ip]
  {
    hide Adds, NewOk, TriedOk, Counted;
    AddsKeep(t, u, h, addr, source, penalty, now, lots, fate);
  }

  /** An unknown address: its entry holds what was announced, less the penalty, and counts for one bucket. */
  lemma AddsUnknown(t: Tables, u: Tables, h: Hasher, addr: Address, source: NetAddr, penalty: int, now: int, lots: Lots,
                    fate: Fate)
    requires Consistent(t, h, NONE) && Adds(t, u, h, addr, source, penalty, now, lots, fate) && fate != Ignored
    requires addr.service.ip !in t.byAddr && Time(addr.time) && penalty >= 0
    ensures addr.service.ip in u.byAddr && u.byAddr[addr.service.ip] == t.idCount && t.idCount in u.info
    ensures var j := u.info[t.idCount];
            && j.addr.service == addr.service && j.addr.services == addr.services && j.source == source
            && (if addr.time < penalty then j.addr.time == 0 else j.addr.time + penalty == addr.time)
            && j.attempts == 0 && j.lastTry == 0 && j.lastSuccess == 0 && !j.inTried && j.refCount == 1
    ensures forall x :: x in u.info && x != t.idCount ==> x in t.info && Alike(t.info[x], u.info[x])
  {
    assert fate.Stored?;
    EntryStays(t, u, h, addr, source, penalty, now, lots, fate);
    NamedAsEntered(t, u, h, addr, source, penalty, now, lots, fate);
    StoredEntries(t, u, h, addr, source, penalty, now, lots, fate);
    hide Adds, Consistent, Prepared;
    PreparedUnknown(t, addr, source, penalty, now);
  }

  lemma PreparedUnknown(t: Tables, addr: Address, source: NetAddr, penalty: int, now: int)
    requires addr.service.ip !in t.byAddr && Time(addr.time) && penalty >= 0
    ensures var p := Prepared(t, addr, source, penalty, now);
            && p.info.Keys == t.info.Keys + {t.idCount}
            && (forall x :: x in t.info && x != t.idCount ==> p.info[x] == t.info[x])
            && var j := p.info[t.idCount];
               && j.addr.service == addr.service && j.addr.services == addr.services && j.source == source
               && (if addr.time < penalty then j.addr.time == 0 else j.addr.time + penalty == addr.time)
               && j.attempts == 0 && j.lastTry == 0 && j.lastSuccess == 0 && !j.inTried && j.refCount == 1
  {
  }

  lemma NamedAsEntered(t: Tables, u: Tables, h: Hasher, addr: Address, source: NetAddr, penalty: int, now: int,
                       lots: Lots, fate: Fate)
    requires Consistent(t, h, NONE) && Adds(t, u, h, addr, source, penalty, now, lots, fate) && fate != Ignored
    requires addr.service.ip !in t.byAddr && addr.service.ip in u.byAddr
    ensures u.byAddr[addr.service.ip] == t.idCount && fate.evicted != Some(t.idCount)
  {
    var p := Prepared(t, addr, source, penalty, now);
    PreparedKeeps(t, h, addr, source, penalty, now);
    hide NewBucket, Asks, Dropped, Consistent;
    assert p.byAddr[addr.service.ip] == t.idCount;
    if fate.evicted.Some? {
      var b := NewBucket(h, p.info[t.idCount], source);
      DroppedIn(p.info, p.untried[b], p.idCount, now, lots, fate.evicted.value);
      ReleasedShape(p, h, t.idCount, b, fate.evicted.value);
    }
  }

  lemma DroppedIn(info: map<int, Info>, bucket: set<int>, idCount: int, now: int, lots: Lots, victim: int)
    requires Dropped(info, bucket, idCount, now, lots, victim)
    ensures victim in bucket
  {
  }

  // Entries that may be dropped

  /** The five marks of an entry not worth keeping. */
  ghost predicate Bad(i: Info, now: int) {
    || i.addr.time - now > 600                                       // from more than ten minutes ahead
    || i.addr.time == 0                                              // never seen
    || now - i.addr.time > 2592000                                   // not seen for thirty days
    || (i.attempts >= 3 && i.lastSuccess == 0)                       // three failures and never a success
    || (i.attempts >= 10 && now - i.lastSuccess > 604800)            // ten failures in a week without success
  }

  /** Tried within the last minute. */
  predicate JustTried(i: Info, now: int) {
    i.lastTry != 0 && now - i.lastTry <= 60
  }

  /** Terrible is what bears one of the marks and was not tried within the last minute. */
  lemma TerribleIff(i: Info, now: int)
    ensures IsTerrible(i, now) <==> Bad(i, now) && !JustTried(i, now)
  {
  }

  /** An entry just tried leaves a full bucket only when it was sampled and nothing there is terrible. */
  lemma JustTriedStays(info: map<int, Info>, bucket: set<int>, idCount: int, now: int, lots: Lots, r: int, victim: int)
    requires Shrinks(info, bucket, idCount, now, lots, r, victim) && victim in info && JustTried(info[victim], now)
    ensures r == 1 && Sampled(bucket, lots, victim)
    ensures forall x :: x in bucket && x in info && Bad(info[x], now) ==> JustTried(info[x], now)
  {
    TerribleIff(info[victim], now);
    forall x | x in bucket && x in info
      ensures IsTerrible(info[x], now) <==> Bad(info[x], now) && !JustTried(info[x], now) {
      TerribleIff(info[x], now);
    }
  }

  /** Of the four ranks drawn in a bucket without terrible entries, the victim has the one longest unseen. */
  lemma OldestGoes(info: map<int, Info>, bucket: set<int>, idCount: int, now: int, lots: Lots, victim: int, x: int)
    requires Shrinks(info, bucket, idCount, now, lots, 1, victim)
    requires x in bucket && x in info && x < idCount && victim in info
    requires var rank := |Earlier(bucket, x)|;
             rank in {lots.n0 % |bucket|, lots.n1 % |bucket|, lots.n2 % |bucket|, lots.n3 % |bucket|}
    ensures info[victim].addr.time <= info[x].addr.time
  {
    hide Earlier, IsTerrible;
    assert Sampled(bucket, lots, x);
  }

  // Entries marked good

  /** An entry known to work now: reached at that time, without failures since, in a tried bucket. */
  ghost predicate Fresh(i: Info, now: int) {
    i.lastSuccess == now && i.lastTry == now && i.attempts == 0 && i.addr.time == now && i.inTried
  }

  lemma MovedEntries(t: Tables, u: Tables, h: Hasher, id: int, lots: Lots, move: Move)
    requires Moves(t, u, h, id, lots, move)
    ensures id in u.info && u.info.Keys == t.info.Keys
    ensures move != Stayed ==> u.info[id] == t.info[id].(refCount := 0, inTried := true)
    ensures move == Stayed ==> u.info[id] == t.info[id] && t.info[id].inTried
    ensures forall x :: x in t.info && x != id ==>
              u.info[x] == t.info[x].(refCount := u.info[x].refCount, inTried := u.info[x].inTried)
    ensures forall x :: x in t.info && x != id && u.info[x].inTried != t.info[x].inTried ==>
              move.Swapped? && move.n < |move.bucket| && x == move.bucket[move.n] && !u.info[x].inTried
  {
    hide Selects, TriedBucket, NewBucket, Cleared;
  }

  /**
   After Good the entry is fresh, keeps its source, service and services, and is not terrible at that moment;
   of the others none changes but the one evicted for it, which is no longer tried.
   */
  lemma GoodIsFresh(t: Tables, u: Tables, h: Hasher, s: Service, now: int, lots: Lots, move: Move)
    requires Known(t, s) && Time(now) && now > 0
    requires var id := t.byAddr[s.ip]; Moves(Rewritten(t, id, Succeeded(t.info[id], now)), u, h, id, lots, move)
    ensures var id := t.byAddr[s.ip];
            && id in u.info && Fresh(u.info[id], now) && !IsTerrible(u.info[id], now)
            && u.info[id].source == t.info[id].source && u.info[id].addr.service == s
            && u.info[id].addr.services == t.info[id].addr.services
    ensures var id := t.byAddr[s.ip];
            forall x :: x in t.info && x != id ==>
              && x in u.info && (u.info[x].inTried != t.info[x].inTried ==> t.info[x].inTried)
              && u.info[x] == t.info[x].(refCount := u.info[x].refCount, inTried := u.info[x].inTried)
  {
    hide Moves, IsTerrible;
    var id := t.byAddr[s.ip];
    MovedEntries(Rewritten(t, id, Succeeded(t.info[id], now)), u, h, id, lots, move);
    FreshNotTerrible(u.info[id], now);
  }

  lemma FreshNotTerrible(i: Info, now: int)
    requires Fresh(i, now) && now > 0
    ensures !IsTerrible(i, now)
  {
    TerribleIff(i, now);
  }

  // Odds

  /** The first multiple of n from some number on. */
  function Winner(from: nat, n: nat): (w: nat)
    requires n > 0
    ensures from <= w < from + n
  {
    from + (n - from % n) % n
  }

  /** Of as many draws in a row as there are places to win, exactly one wins. */
  lemma OneInMany(i: Info, addr: Address, lots: Lots, from: nat, raw: nat)
    requires 0 <= i.refCount < 4 && !i.inTried && addr.time != 0 && (i.addr.time == 0 || addr.time > i.addr.time)
    requires from <= raw < from + Pow(2, i.refCount)
    ensures Wanted(i, addr, lots.(again := raw)) <==> raw == Winner(from, Pow(2, i.refCount))
  {
    SmallPowers();
    OneMultiple(from, Pow(2, i.refCount), raw);
  }

  lemma SmallPowers()
    ensures Pow(2, 0) == 1 && Pow(2, 1) == 2 && Pow(2, 2) == 4 && Pow(2, 3) == 8
  {
  }

  /** Among n numbers in a row there is one multiple of n. */
  lemma OneMultiple(from: nat, n: nat, raw: nat)
    requires n in {1, 2, 4, 8} && from <= raw < from + n
    ensures raw % n == 0 <==> raw == Winner(from, n)
  {
    match n
    case 1 =>
    case 2 => OneEven(from, raw);
    case 4 => OneFourth(from, raw);
    case 8 => OneEighth(from, raw);
    case _ =>
  }

  lemma OneEven(from: nat, raw: nat)
    requires from <= raw < from + 2
    ensures raw % 2 == 0 <==> raw == from + (2 - from % 2) % 2
  {
  }

  lemma OneFourth(from: nat, raw: nat)
    requires from <= raw < from + 4
    ensures raw % 4 == 0 <==> raw == from + (4 - from % 4) % 4
  {
  }

  lemma OneEighth(from: nat, raw: nat)
    requires from <= raw < from + 8
    ensures raw % 8 == 0 <==> raw == from + (8 - from % 8) % 8
  {
  }

  // How far one group spreads

  /** The tried buckets an address of some group may go to. */
  ghost function GroupBuckets(h: Hasher, group: Data): set<int> {
    {h.tried(group, 0) % 64, h.tried(group, 1) % 64, h.tried(group, 2) % 64, h.tried(group, 3) % 64}
  }

  /** The new buckets an address heard of from some group may go to. */
  ghost function SourceBuckets(h: Hasher, group: Data, n: nat): set<int> {
    if n == 0 then {} else SourceBuckets(h, group, n - 1) + {h.untried(group, n - 1) % 256}
  }

  lemma {:induction false} SourceBucketsFew(h: Hasher, group: Data, n: nat, k: nat)
    ensures |SourceBuckets(h, group, n)| <= n
    ensures k < n ==> h.untried(group, k) % 256 in SourceBuckets(h, group, n)
  {
    if n > 0 {
      SourceBucketsFew(h, group, n - 1, k);
    }
  }

  /** An address enters at most four tried buckets, and one of at most 32 new buckets, of its groups. */
  lemma BucketsFew(h: Hasher, i: Info, source: NetAddr)
    ensures |GroupBuckets(h, h.group(i.addr.service.ip))| <= 4
    ensures TriedBucket(h, i) in GroupBuckets(h, h.group(i.addr.service.ip))
    ensures |SourceBuckets(h, h.group(source), 32)| <= 32
    ensures NewBucket(h, i, source) in SourceBuckets(h, h.group(source), 32)
  {
    SourceBucketsFew(h, h.group(source), 32, h.newSlot(h.group(i.addr.service.ip), h.group(source)) % 32);
  }

  /** Whatever is added, only one bucket gains an entry, and that is among the 32 of the source's group. */
  lemma AddsWithinSource(t: Tables, u: Tables, h: Hasher, addr: Address, source: NetAddr, penalty: int, now: int,
                         lots: Lots, fate: Fate, b: nat)
    requires Consistent(t, h, NONE) && Adds(t, u, h, addr, source, penalty, now, lots, fate)
    requires b < |u.untried| == |t.untried| && !(u.untried[b] <= t.untried[b])
    ensures b in SourceBuckets(h, h.group(source), 32)
  {
    hide Consistent, NewBucket, Asks, Dropped, Touched, SourceBuckets;
    var p, id := Prepared(t, addr, source, penalty, now), EntryId(t, addr);
    assert fate.Stored? && p.untried == t.untried;
    BucketsFew(h, p.info[id], source);
  }

  function Members(s: seq<int>): set<int> {
    set x | x in s
  }

  lemma {:induction false} MembersFew(s: seq<int>)
    ensures |Members(s)| <= |s|
  {
    if s != [] {
      var front := s[..|s| - 1];
      MembersFew(front);
      assert Members(s) == Members(front) + {s[|s| - 1]};
    } else {
      assert Members(s) == {};
    }
  }

  ghost predicate InSome(tried: seq<seq<int>>, buckets: set<int>, x: int) {
    exists b :: b in buckets && 0 <= b < |tried| && x in tried[b]
  }

  lemma InRest(tried: seq<seq<int>>, buckets: set<int>, b: int, x: int)
    requires InSome(tried, buckets, x) && 0 <= b < |tried| && x !in tried[b]
    ensures InSome(tried, buckets - {b}, x)
  {
    var c :| c in buckets && 0 <= c < |tried| && x in tried[c];
    assert c in buckets - {b};
  }

  lemma InNone(tried: seq<seq<int>>, x: int)
    ensures !InSome(tried, {}, x)
  {
  }

  lemma SplitCount(ids: set<int>, here: set<int>)
    ensures |ids| <= |ids - here| + |here|
  {
    assert ids == (ids - here) + (ids * here);
    Smaller(ids * here, here);
  }

  /** Entries spread over some buckets of at most 64 are at most 64 to a bucket. */
  lemma {:induction false} SpreadFew(tried: seq<seq<int>>, ids: set<int>, buckets: set<int>)
    requires forall b :: b in buckets ==> 0 <= b < |tried| && |tried[b]| <= 64
    requires forall x :: x in ids ==> InSome(tried, buckets, x)
    ensures |ids| <= 64 * |buckets|
    decreases |buckets|
  {
    if buckets == {} {
      forall x ensures x !in ids { InNone(tried, x); }
      assert ids == {};
    } else {
      hide InSome, Members;
      var b := Pick(buckets);
      var here := Members(tried[b]);
      MembersFew(tried[b]);
      forall x | x in ids - here ensures InSome(tried, buckets - {b}, x) {
        NotMember(tried[b], x);
        InRest(tried, buckets, b, x);
      }
      SpreadFew(tried, ids - here, buckets - {b});
      SplitCount(ids, here);
    }
  }

  lemma NotMember(s: seq<int>, x: int)
    ensures x in Members(s) <==> x in s
  {
  }

  lemma Smaller(a: set<int>, b: set<int>)
    requires a <= b
    ensures |a| <= |b|
  {
    assert b == a + (b - a);
  }

  /** The tried entries of one group. */
  function GroupTried(t: Tables, h: Hasher, group: Data): set<int> {
    set id | id in t.info && t.info[id].inTried && h.group(t.info[id].addr.service.ip) == group
  }

  /** In consistent tables no group of addresses holds more than 256 of the 4096 places for tried ones. */
  lemma GroupIsBounded(t: Tables, h: Hasher, group: Data)
    requires Consistent(t, h, NONE)
    ensures |GroupTried(t, h, group)| <= 256
  {
    var buckets := GroupBuckets(h, group);
    forall x | x in GroupTried(t, h, group) ensures InSome(t.tried, buckets, x) {
      BucketsFew(h, t.info[x], t.info[x].source);
      assert x in t.tried[TriedBucket(h, t.info[x])];
    }
    SpreadFew(t.tried, GroupTried(t, h, group), buckets);
    FourAtMost(h, group);
  }

  lemma FourAtMost(h: Hasher, group: Data)
    ensures |GroupBuckets(h, group)| <= 4
  {
  }
}
