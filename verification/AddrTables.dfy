/**
 The address manager's tables as one value, the consistency between them, and what each elementary
 change does to it. The manager itself is the class in AddrMan.
 */
module AddrTables {
  import opened Bytes

  const TRIED_BUCKETS := 64
  const TRIED_SIZE := 64
  const NEW_BUCKETS := 256
  const NEW_SIZE := 64
  const BUCKETS_PER_ADDRESS := 4
  const TRIED_PER_GROUP := 4
  const NEW_PER_SOURCE := 32

  datatype NetAddr = NetAddr(ip: Data)

  datatype Service = Service(ip: NetAddr, port: int)

  datatype Address = Address(service: Service, services: bv64, time: int)

  /** CAddrInfo: an address with what is known about it. */
  datatype Info = Info(addr: Address, source: NetAddr, lastSuccess: int, lastTry: int, attempts: int,
                       refCount: int, inTried: bool, pos: int)

  /**
   The bucket hashes for a fixed secret key, and the group of an address: each bucket is chosen among a few
   that belong to a group.
   */
  datatype Hasher = Hasher(group: NetAddr -> Data, triedSlot: Service -> nat, tried: (Data, nat) -> nat,
                           newSlot: (Data, Data) -> nat, untried: (Data, nat) -> nat)

  /** GetTriedBucket: one of four buckets of the address's group, chosen by the whole address. */
  function TriedBucket(h: Hasher, i: Info): (b: nat)
    ensures b < TRIED_BUCKETS
  {
    h.tried(h.group(i.addr.service.ip), h.triedSlot(i.addr.service) % TRIED_PER_GROUP) % TRIED_BUCKETS
  }

  /** GetNewBucket: one of 32 buckets of the source's group, chosen by the address's group. */
  function NewBucket(h: Hasher, i: Info, source: NetAddr): (b: nat)
    ensures b < NEW_BUCKETS
  {
    var from := h.group(source);
    h.untried(from, h.newSlot(h.group(i.addr.service.ip), from) % NEW_PER_SOURCE) % NEW_BUCKETS
  }

  /** mapInfo, mapAddr, vRandom, vvTried, vvNew and the counters. */
  datatype Tables = Tables(idCount: int, info: map<int, Info>, byAddr: map<NetAddr, int>, random: seq<int>,
                           tried: seq<seq<int>>, untried: seq<set<int>>, triedCount: int, untriedCount: int)

  function Ip(t: Tables, id: int): NetAddr
    requires id in t.info
  {
    t.info[id].addr.service.ip
  }

  /** The new buckets holding an id. */
  function Homes(untried: seq<set<int>>, id: int): set<int> {
    set b | 0 <= b < |untried| && id in untried[b]
  }

  function TriedIds(info: map<int, Info>): set<int> {
    set id | id in info && info[id].inTried
  }

  function NewIds(info: map<int, Info>): set<int> {
    set id | id in info && !info[id].inTried
  }

  /** mapInfo and mapAddr are inverse to one another. */
  ghost predicate Named(info: map<int, Info>, byAddr: map<NetAddr, int>) {
    && (forall id :: id in info ==> Named1(info, byAddr, id))
    && (forall a :: a in byAddr ==> byAddr[a] in info && info[byAddr[a]].addr.service.ip == a)
  }

  predicate Named1(info: map<int, Info>, byAddr: map<NetAddr, int>, id: int)
    requires id in info
  {
    var a := info[id].addr.service.ip;
    a in byAddr && byAddr[a] == id
  }

  /** Every entry has one place in vRandom and knows it. */
  ghost predicate Shuffled(info: map<int, Info>, random: seq<int>) {
    && (forall id :: id in info ==> 0 <= info[id].pos < |random| && random[info[id].pos] == id)
    && (forall p :: 0 <= p < |random| ==> random[p] in info && info[random[p]].pos == p)
  }

  /** mapInfo, mapAddr and vRandom are inverse to one another. */
  ghost predicate Indexed(t: Tables) {
    && 0 <= t.idCount
    && (forall id :: id in t.info ==> 0 <= id < t.idCount)
    && Named(t.info, t.byAddr)
    && Shuffled(t.info, t.random)
  }

  /** An id's reference count, one too many for an id that is about to enter a bucket. */
  predicate RefOk(i: Info, homes: nat, pending: bool) {
    && i.refCount == homes + (if pending then 1 else 0)
    && (if i.inTried then i.refCount == 0 else 1 <= i.refCount <= BUCKETS_PER_ADDRESS)
  }

  ghost predicate NewOk(t: Tables, pending: int) {
    && |t.untried| == NEW_BUCKETS
    && (forall b :: 0 <= b < |t.untried| ==> |t.untried[b]| <= NEW_SIZE && t.untried[b] <= t.info.Keys)
    && (forall id :: id in t.info ==> RefOk(t.info[id], |Homes(t.untried, id)|, id == pending))
  }

  ghost predicate TriedOk(t: Tables, h: Hasher) {
    && |t.tried| == TRIED_BUCKETS
    && (forall b :: 0 <= b < |t.tried| ==> |t.tried[b]| <= TRIED_SIZE && NoTwice(t.tried[b]))
    && (forall b, i :: 0 <= b < |t.tried| && 0 <= i < |t.tried[b]| ==> PlacedTried(t, h, t.tried[b][i], b))
    && (forall id :: id in t.info && t.info[id].inTried ==> id in t.tried[TriedBucket(h, t.info[id])])
  }

  ghost predicate NoTwice(s: seq<int>) {
    forall i, j :: 0 <= i < j < |s| ==> s[i] != s[j]
  }

  predicate PlacedTried(t: Tables, h: Hasher, id: int, b: int) {
    id in t.info && t.info[id].inTried && TriedBucket(h, t.info[id]) == b
  }

  ghost predicate Counted(t: Tables) {
    t.triedCount == |TriedIds(t.info)| && t.untriedCount == |NewIds(t.info)|
  }

  lemma KeysSplit(info: map<int, Info>)
    ensures |info| == |info.Keys| == |TriedIds(info)| + |NewIds(info)|
  {
    assert info.Keys == TriedIds(info) + NewIds(info);
    assert TriedIds(info) !! NewIds(info);
  }

  const NONE := -1

  /** Everything Check_ asks of the tables, and where each entry must be; pending is NONE between calls. */
  ghost predicate Consistent(t: Tables, h: Hasher, pending: int) {
    Indexed(t) && NewOk(t, pending) && TriedOk(t, h) && Counted(t)
  }

  /** What Check_ asks of the times. */
  ghost predicate Stamped(t: Tables) {
    forall id :: id in t.info ==>
      t.info[id].lastTry >= 0 && t.info[id].lastSuccess >= 0 && (t.info[id].inTried ==> t.info[id].lastSuccess != 0)
  }

  lemma InBucketIsNew(t: Tables, h: Hasher, pending: int, b: int, id: int)
    requires Consistent(t, h, pending) && 0 <= b < |t.untried| && id in t.untried[b]
    ensures id in t.info && !t.info[id].inTried && b in Homes(t.untried, id)
  {
    assert b in Homes(t.untried, id);
  }

  // Entries that keep their identity

  predicate SameId(i: Info, j: Info) {
    i.addr.service == j.addr.service && i.inTried == j.inTried
  }

  /** The same entries under the same ids, in the same half of the tables. */
  ghost predicate Alike(info: map<int, Info>, other: map<int, Info>) {
    info.Keys == other.Keys && forall id :: id in info ==> SameId(info[id], other[id])
  }

  lemma AlikeIds(info: map<int, Info>, other: map<int, Info>)
    requires Alike(info, other)
    ensures TriedIds(other) == TriedIds(info) && NewIds(other) == NewIds(info)
  {
    forall id | id in info ensures other[id].inTried == info[id].inTried {
      assert SameId(info[id], other[id]);
    }
  }

  lemma AlikeNamed(info: map<int, Info>, other: map<int, Info>, byAddr: map<NetAddr, int>)
    requires Alike(info, other) && Named(info, byAddr)
    ensures Named(other, byAddr)
  {
    forall id | id in other ensures Named1(other, byAddr, id) {
      assert id in info && SameId(info[id], other[id]) && Named1(info, byAddr, id);
    }
    forall a | a in byAddr ensures byAddr[a] in other && other[byAddr[a]].addr.service.ip == a {
      var id := byAddr[a];
      assert id in info && SameId(info[id], other[id]);
    }
  }

  /** The tried entries are the same ones. */
  ghost predicate SameTried(info: map<int, Info>, other: map<int, Info>) {
    && (forall id :: id in info && info[id].inTried ==>
          id in other && other[id].inTried && other[id].addr.service == info[id].addr.service)
    && (forall id :: id in other && other[id].inTried ==> id in info && info[id].inTried)
  }

  lemma AlikeTried(info: map<int, Info>, other: map<int, Info>)
    requires Alike(info, other)
    ensures SameTried(info, other)
  {
    forall id | id in info ensures SameId(info[id], other[id]) {}
  }

  lemma TriedFrame(t: Tables, u: Tables, h: Hasher)
    requires TriedOk(t, h) && u.tried == t.tried && SameTried(t.info, u.info)
    ensures TriedOk(u, h)
  {
    forall b, j | 0 <= b < |u.tried| && 0 <= j < |u.tried[b]| ensures PlacedTried(u, h, u.tried[b][j], b) {
      assert PlacedTried(t, h, t.tried[b][j], b);
    }
  }

  /** Names, tried buckets and counters follow from the identities alone. */
  lemma AlikeFrame(t: Tables, u: Tables, h: Hasher)
    requires Named(t.info, t.byAddr) && TriedOk(t, h) && Counted(t) && Alike(t.info, u.info)
    requires u == t.(info := u.info, random := u.random, untried := u.untried)
    ensures Named(u.info, u.byAddr) && TriedOk(u, h) && Counted(u)
  {
    hide Alike, Named, TriedOk, SameTried, TriedIds, NewIds;
    AlikeIds(t.info, u.info);
    AlikeNamed(t.info, u.info, t.byAddr);
    AlikeTried(t.info, u.info);
    TriedFrame(t, u, h);
  }

  ghost predicate SameCounts(info: map<int, Info>, other: map<int, Info>) {
    info.Keys == other.Keys && forall id :: id in info ==> other[id].refCount == info[id].refCount
  }

  lemma SameNew(t: Tables, u: Tables, pending: int)
    requires NewOk(t, pending) && u.untried == t.untried && Alike(t.info, u.info) && SameCounts(t.info, u.info)
    ensures NewOk(u, pending)
  {
    hide Homes;
    forall id | id in u.info ensures RefOk(u.info[id], |Homes(u.untried, id)|, id == pending) {
      assert id in t.info && SameId(t.info[id], u.info[id]);
      assert RefOk(t.info[id], |Homes(t.untried, id)|, id == pending);
    }
  }

  lemma SameRange(t: Tables, u: Tables)
    requires Indexed(t) && t.info.Keys == u.info.Keys && u.idCount == t.idCount
    ensures forall id :: id in u.info ==> 0 <= id < u.idCount
  {
    forall id | id in u.info ensures 0 <= id < u.idCount { assert id in t.info; }
  }

  /** Changing anything else about entries leaves the tables consistent, as far as vRandom is. */
  lemma PlacesFrame(t: Tables, u: Tables, h: Hasher, pending: int)
    requires Consistent(t, h, pending) && u == t.(info := u.info, random := u.random)
    requires Alike(t.info, u.info) && SameCounts(t.info, u.info) && Shuffled(u.info, u.random)
    ensures Consistent(u, h, pending)
  {
    SameRange(t, u);
    hide NewOk, TriedOk, Named, Shuffled, Counted;
    AlikeFrame(t, u, h);
    SameNew(t, u, pending);
  }

  /** One entry rewritten in place. */
  function Rewritten(t: Tables, id: int, i: Info): Tables {
    t.(info := t.info[id := i])
  }

  lemma RewriteKeeps(t: Tables, h: Hasher, pending: int, id: int, i: Info)
    requires Consistent(t, h, pending) && id in t.info && SameId(t.info[id], i)
    requires i.refCount == t.info[id].refCount && i.pos == t.info[id].pos
    ensures Consistent(Rewritten(t, id, i), h, pending)
  {
    hide NewOk, TriedOk, Named, Counted;
    PlacesFrame(t, Rewritten(t, id, i), h, pending);
  }

  // vRandom

  function Moved(info: map<int, Info>, id: int, p: int): map<int, Info>
    requires id in info
  {
    info[id := info[id].(pos := p)]
  }

  /** SwapRandom */
  function Swapped(t: Tables, p: int, q: int): Tables
    requires 0 <= p < |t.random| && 0 <= q < |t.random|
    requires t.random[p] in t.info && t.random[q] in t.info
  {
    var a, b := t.random[p], t.random[q];
    if p == q then t
    else t.(info := Moved(Moved(t.info, a, q), b, p), random := t.random[p := b][q := a])
  }

  lemma SwapShape(t: Tables, p: int, q: int)
    requires Shuffled(t.info, t.random) && 0 <= p < |t.random| && 0 <= q < |t.random|
    ensures var u := Swapped(t, p, q);
            && u == t.(info := u.info, random := u.random) && u.info.Keys == t.info.Keys
            && (forall id :: id in t.info ==> u.info[id] == t.info[id].(pos := u.info[id].pos))
            && u.random == t.random[p := t.random[q]][q := t.random[p]]
  {
  }

  lemma SwapMultiset(s: seq<int>, p: int, q: int)
    requires 0 <= p < |s| && 0 <= q < |s|
    ensures multiset(s[p := s[q]][q := s[p]]) == multiset(s)
  {
  }

  lemma SwapShuffled(t: Tables, p: int, q: int)
    requires Shuffled(t.info, t.random) && 0 <= p < |t.random| && 0 <= q < |t.random|
    ensures Shuffled(Swapped(t, p, q).info, Swapped(t, p, q).random)
  {
  }

  lemma SwapKeeps(t: Tables, h: Hasher, pending: int, p: int, q: int)
    requires Consistent(t, h, pending) && 0 <= p < |t.random| && 0 <= q < |t.random|
    ensures Consistent(Swapped(t, p, q), h, pending)
    ensures Swapped(t, p, q).info.Keys == t.info.Keys && multiset(Swapped(t, p, q).random) == multiset(t.random)
    ensures forall id :: id in t.info ==> Swapped(t, p, q).info[id] == t.info[id].(pos := Swapped(t, p, q).info[id].pos)
  {
    assert t.random[p] in t.info && t.random[q] in t.info;
    SwapShape(t, p, q);
    SwapMultiset(t.random, p, q);
    SwapShuffled(t, p, q);
    var u := Swapped(t, p, q);
    AlikeMoved(t.info, u.info);
    hide Consistent, Shuffled, Swapped, Alike, SameCounts;
    PlacesFrame(t, u, h, pending);
  }

  lemma AlikeMoved(info: map<int, Info>, other: map<int, Info>)
    requires info.Keys == other.Keys && forall id :: id in info ==> other[id] == info[id].(pos := other[id].pos)
    ensures Alike(info, other) && SameCounts(info, other)
  {
  }

  // Entering and leaving the new buckets

  /** A fresh entry: Create, then the reference for the bucket it is about to enter. */
  function Entered(t: Tables, i: Info): Tables {
    t.(idCount := t.idCount + 1, info := t.info[t.idCount := i], byAddr := t.byAddr[i.addr.service.ip := t.idCount],
       random := t.random + [t.idCount], untriedCount := t.untriedCount + 1)
  }

  lemma NoHomes(t: Tables, pending: int, id: int)
    requires NewOk(t, pending) && id !in t.info
    ensures Homes(t.untried, id) == {}
  {
    forall b | 0 <= b < |t.untried| ensures id !in t.untried[b] {
      assert t.untried[b] <= t.info.Keys;
    }
  }

  lemma EnterNew(t: Tables, i: Info)
    requires NewOk(t, NONE) && t.idCount !in t.info && i.refCount == 1 && !i.inTried && NONE !in t.info
    ensures NewOk(Entered(t, i), t.idCount)
  {
    hide Homes;
    var u := Entered(t, i);
    NoHomes(t, NONE, t.idCount);
    forall id | id in u.info ensures RefOk(u.info[id], |Homes(u.untried, id)|, id == t.idCount) {
      if id != t.idCount {
        assert RefOk(t.info[id], |Homes(t.untried, id)|, id == NONE);
      }
    }
    forall b | 0 <= b < |u.untried| ensures |u.untried[b]| <= NEW_SIZE && u.untried[b] <= u.info.Keys {
      assert |t.untried[b]| <= NEW_SIZE && t.untried[b] <= t.info.Keys;
    }
  }

  lemma EnterNamed(t: Tables, i: Info)
    requires Named(t.info, t.byAddr) && t.idCount !in t.info && i.addr.service.ip !in t.byAddr
    ensures Named(Entered(t, i).info, Entered(t, i).byAddr)
  {
    var u := Entered(t, i);
    forall id | id in u.info ensures Named1(u.info, u.byAddr, id) {
      if id != t.idCount {
        assert Named1(t.info, t.byAddr, id);
      }
    }
    forall a | a in u.byAddr ensures u.byAddr[a] in u.info && u.info[u.byAddr[a]].addr.service.ip == a {
      if a != i.addr.service.ip {
        assert t.byAddr[a] in t.info;
      }
    }
  }

  lemma EnterIndexed(t: Tables, i: Info)
    requires Indexed(t) && i.addr.service.ip !in t.byAddr && i.pos == |t.random|
    ensures Indexed(Entered(t, i))
  {
    hide Named;
    EnterNamed(t, i);
  }

  lemma EnterCounted(t: Tables, i: Info)
    requires Counted(t) && t.idCount !in t.info && !i.inTried
    ensures Counted(Entered(t, i)) && SameTried(t.info, Entered(t, i).info)
  {
    var info := t.info[t.idCount := i];
    assert TriedIds(info) == TriedIds(t.info) && NewIds(info) == NewIds(t.info) + {t.idCount};
  }

  lemma EnterKeeps(t: Tables, h: Hasher, i: Info)
    requires Consistent(t, h, NONE) && i.addr.service.ip !in t.byAddr
    requires i.refCount == 1 && !i.inTried && i.pos == |t.random|
    ensures Consistent(Entered(t, i), h, t.idCount)
  {
    assert t.idCount !in t.info && NONE !in t.info;
    hide NewOk, TriedOk, Indexed, Counted, SameTried;
    EnterNew(t, i);
    EnterCounted(t, i);
    EnterIndexed(t, i);
    TriedFrame(t, Entered(t, i), h);
  }

  /** Changing buckets and reference counts only. */
  lemma CountsFrame(t: Tables, u: Tables, h: Hasher)
    requires Indexed(t) && TriedOk(t, h) && Counted(t) && Alike(t.info, u.info)
    requires u == t.(info := u.info, untried := u.untried)
    requires forall id :: id in t.info ==> u.info[id].pos == t.info[id].pos
    ensures Indexed(u) && TriedOk(u, h) && Counted(u)
  {
    SameRange(t, u);
    SameShuffle(t.info, u.info, t.random);
    hide TriedOk, Named, Counted, Shuffled;
    AlikeFrame(t, u, h);
  }

  lemma SameShuffle(info: map<int, Info>, other: map<int, Info>, random: seq<int>)
    requires Shuffled(info, random) && info.Keys == other.Keys
    requires forall id :: id in info ==> other[id].pos == info[id].pos
    ensures Shuffled(other, random)
  {
    forall p | 0 <= p < |random| ensures random[p] in other && other[random[p]].pos == p {
      var id := random[p];
      assert id in info && info[id].pos == p;
    }
    forall id | id in other ensures 0 <= other[id].pos < |random| && random[other[id].pos] == id {
      assert id in info;
    }
  }

  /** One more reference, for an entry about to enter another bucket. */
  lemma ReferenceKeeps(t: Tables, h: Hasher, id: int)
    requires Consistent(t, h, NONE) && id in t.info && !t.info[id].inTried && t.info[id].refCount < BUCKETS_PER_ADDRESS
    ensures Consistent(Rewritten(t, id, t.info[id].(refCount := t.info[id].refCount + 1)), h, id)
  {
    assert NONE !in t.info;
    hide NewOk, TriedOk, Indexed, Counted;
    ReferenceNew(t, id);
    CountsFrame(t, Rewritten(t, id, t.info[id].(refCount := t.info[id].refCount + 1)), h);
  }

  lemma ReferenceNew(t: Tables, id: int)
    requires NewOk(t, NONE) && id in t.info && !t.info[id].inTried && t.info[id].refCount < BUCKETS_PER_ADDRESS
             && NONE !in t.info
    ensures NewOk(Rewritten(t, id, t.info[id].(refCount := t.info[id].refCount + 1)), id)
  {
    hide Homes;
    var u := Rewritten(t, id, t.info[id].(refCount := t.info[id].refCount + 1));
    forall j | j in u.info ensures RefOk(u.info[j], |Homes(u.untried, j)|, j == id) {
      assert RefOk(t.info[j], |Homes(t.untried, j)|, j == NONE);
    }
    assert u.info.Keys == t.info.Keys;
  }

  /** The pending entry put into its bucket. */
  function Inserted(t: Tables, b: nat, id: int): Tables
    requires b < |t.untried|
  {
    t.(untried := t.untried[b := t.untried[b] + {id}])
  }

  lemma HomesWith(untried: seq<set<int>>, b: nat, id: int, x: int)
    requires b < |untried|
    ensures Homes(untried[b := untried[b] + {id}], x) == if x == id then Homes(untried, x) + {b} else Homes(untried, x)
    ensures Homes(untried[b := untried[b] - {id}], x) == if x == id then Homes(untried, x) - {b} else Homes(untried, x)
  {
  }

  lemma InsertNew(t: Tables, b: nat, id: int)
    requires NewOk(t, id) && b < |t.untried| && id in t.info && id !in t.untried[b] && |t.untried[b]| < NEW_SIZE
    requires NONE !in t.info
    ensures NewOk(Inserted(t, b, id), NONE)
  {
    hide Homes;
    var u := Inserted(t, b, id);
    forall x | x in u.info ensures RefOk(u.info[x], |Homes(u.untried, x)|, x == NONE) {
      assert RefOk(t.info[x], |Homes(t.untried, x)|, x == id);
      HomesWith(t.untried, b, id, x);
      NotHome(t.untried, b, id);
    }
    forall c | 0 <= c < |u.untried| ensures |u.untried[c]| <= NEW_SIZE && u.untried[c] <= u.info.Keys {
      assert |t.untried[c]| <= NEW_SIZE && t.untried[c] <= t.info.Keys;
    }
  }

  lemma InsertKeeps(t: Tables, h: Hasher, b: nat, id: int)
    requires Consistent(t, h, id) && b < |t.untried| && id in t.info && id !in t.untried[b] && |t.untried[b]| < NEW_SIZE
    ensures Consistent(Inserted(t, b, id), h, NONE)
  {
    assert NONE !in t.info;
    hide NewOk, TriedOk, Indexed, Counted;
    InsertNew(t, b, id);
    CountsFrame(t, Inserted(t, b, id), h);
  }

  lemma NotHome(untried: seq<set<int>>, b: nat, id: int)
    requires b < |untried| && id !in untried[b]
    ensures b !in Homes(untried, id)
  {
  }

  /** A bucket gives up an entry that is also held elsewhere. */
  function Unbucketed(t: Tables, b: nat, id: int): Tables
    requires b < |t.untried| && id in t.info
  {
    t.(info := t.info[id := t.info[id].(refCount := t.info[id].refCount - 1)],
       untried := t.untried[b := t.untried[b] - {id}])
  }

  lemma UnbucketNew(t: Tables, h: Hasher, pending: int, b: nat, id: int)
    requires NewOk(t, pending) && b < |t.untried| && id in t.untried[b] && id in t.info && id != pending
    requires t.info[id].refCount > 1
    ensures NewOk(Unbucketed(t, b, id), pending)
  {
    hide Homes;
    var u := Unbucketed(t, b, id);
    forall x | x in u.info ensures RefOk(u.info[x], |Homes(u.untried, x)|, x == pending) {
      assert RefOk(t.info[x], |Homes(t.untried, x)|, x == pending);
      HomesWith(t.untried, b, id, x);
      if x == id { AtHome(t.untried, b, id); }
    }
    assert u.info.Keys == t.info.Keys;
    forall c | 0 <= c < |u.untried| ensures |u.untried[c]| <= NEW_SIZE && u.untried[c] <= u.info.Keys {
      assert |t.untried[c]| <= NEW_SIZE && t.untried[c] <= t.info.Keys;
    }
  }

  lemma AtHome(untried: seq<set<int>>, b: nat, id: int)
    requires b < |untried| && id in untried[b]
    ensures b in Homes(untried, id)
  {
  }

  lemma UnbucketKeeps(t: Tables, h: Hasher, pending: int, b: nat, id: int)
    requires Consistent(t, h, pending) && b < |t.untried| && id in t.untried[b] && id in t.info && id != pending
    requires t.info[id].refCount > 1
    ensures Consistent(Unbucketed(t, b, id), h, pending)
  {
    hide NewOk, TriedOk, Indexed, Counted;
    UnbucketNew(t, h, pending, b, id);
    CountsFrame(t, Unbucketed(t, b, id), h);
  }

  /** An entry leaves its last bucket and the tables; it stands last in vRandom. */
  function Forgotten(t: Tables, b: nat, id: int): Tables
    requires b < |t.untried| && id in t.info && |t.random| > 0
  {
    t.(info := t.info - {id}, byAddr := t.byAddr - {Ip(t, id)}, random := t.random[..|t.random| - 1],
       untriedCount := t.untriedCount - 1, untried := t.untried[b := t.untried[b] - {id}])
  }

  lemma ForgetNew(t: Tables, pending: int, b: nat, id: int)
    requires NewOk(t, pending) && b < |t.untried| && id in t.untried[b] && id in t.info && id != pending
    requires t.info[id].refCount == 1 && |t.random| > 0
    ensures NewOk(Forgotten(t, b, id), pending)
  {
    hide Homes;
    var u := Forgotten(t, b, id);
    assert RefOk(t.info[id], |Homes(t.untried, id)|, false);
    assert |Homes(t.untried, id)| == 1;
    AtHome(t.untried, b, id);
    assert Homes(t.untried, id) == {b} by { OnlyOne(Homes(t.untried, id), b); }
    forall x | x in u.info ensures RefOk(u.info[x], |Homes(u.untried, x)|, x == pending) {
      assert RefOk(t.info[x], |Homes(t.untried, x)|, x == pending);
      HomesWith(t.untried, b, id, x);
    }
    forall c | 0 <= c < |u.untried| ensures |u.untried[c]| <= NEW_SIZE && u.untried[c] <= u.info.Keys {
      assert |t.untried[c]| <= NEW_SIZE && t.untried[c] <= t.info.Keys;
      if c != b {
        assert c !in Homes(t.untried, id);
        assert id !in t.untried[c] by { if id in t.untried[c] { AtHome(t.untried, c, id); } }
      }
    }
  }

  lemma OnlyOne(s: set<int>, b: int)
    requires |s| == 1 && b in s
    ensures s == {b}
  {
    assert |s - {b}| == 0;
    assert s == s - {b} + {b};
  }

  lemma ForgetCounted(t: Tables, b: nat, id: int)
    requires Counted(t) && id in t.info && !t.info[id].inTried && b < |t.untried| && |t.random| > 0
    ensures Counted(Forgotten(t, b, id))
  {
    var info := t.info - {id};
    assert TriedIds(info) == TriedIds(t.info) && NewIds(info) == NewIds(t.info) - {id};
  }

  lemma ForgetIndexed(t: Tables, b: nat, id: int)
    requires Indexed(t) && id in t.info && b < |t.untried| && t.info[id].pos == |t.random| - 1
    ensures Indexed(Forgotten(t, b, id))
  {
    hide Named;
    ForgetNamed(t, id);
  }

  lemma ForgetKeeps(t: Tables, h: Hasher, pending: int, b: nat, id: int)
    requires Consistent(t, h, pending) && b < |t.untried| && id in t.untried[b] && id in t.info && id != pending
    requires t.info[id].refCount == 1 && t.info[id].pos == |t.random| - 1 && |t.random| > 0
    ensures Consistent(Forgotten(t, b, id), h, pending)
  {
    hide NewOk, TriedOk, Indexed, Counted;
    InBucketIsNew(t, h, pending, b, id);
    ForgetCounted(t, b, id);
    ForgetIndexed(t, b, id);
    ForgetNew(t, pending, b, id);
    TriedFrame(t, Forgotten(t, b, id), h);
  }

  lemma ForgetNamed(t: Tables, id: int)
    requires Named(t.info, t.byAddr) && id in t.info
    ensures Named(t.info - {id}, t.byAddr - {Ip(t, id)})
  {
    var info, byAddr := t.info - {id}, t.byAddr - {Ip(t, id)};
    assert Named1(t.info, t.byAddr, id);
    forall j | j in info ensures Named1(info, byAddr, j) {
      assert Named1(t.info, t.byAddr, j);
    }
    forall a | a in byAddr ensures byAddr[a] in info && info[byAddr[a]].addr.service.ip == a {
      var j := byAddr[a];
      assert j in t.info && t.info[j].addr.service.ip == a;
    }
  }

  /** ShrinkNew's removal of one entry from a bucket, deleting it when that was its last one. */
  function Released(t: Tables, b: nat, id: int): Tables
    requires b < |t.untried| && id in t.info && 0 <= t.info[id].pos < |t.random|
    requires t.random[t.info[id].pos] in t.info && t.random[|t.random| - 1] in t.info
  {
    if t.info[id].refCount > 1 then Unbucketed(t, b, id)
    else Forgotten(Swapped(t, t.info[id].pos, |t.random| - 1), b, id)
  }

  lemma BucketEntry(t: Tables, h: Hasher, pending: int, b: nat, id: int)
    requires Consistent(t, h, pending) && b < |t.untried| && id in t.untried[b] && id != pending
    ensures id in t.info && 0 <= t.info[id].pos < |t.random| && t.random[t.info[id].pos] == id
    ensures t.random[|t.random| - 1] in t.info && t.info[id].refCount >= 1 && !t.info[id].inTried
  {
    InBucketIsNew(t, h, pending, b, id);
    assert RefOk(t.info[id], |Homes(t.untried, id)|, false);
  }

  lemma SwapToEnd(t: Tables, h: Hasher, pending: int, id: int)
    requires id in t.info && Consistent(t, h, pending)
    ensures var u := Swapped(t, t.info[id].pos, |t.random| - 1);
            && id in u.info && u.info[id] == t.info[id].(pos := |t.random| - 1)
            && |u.random| == |t.random| && u.untried == t.untried
  {
  }

  lemma ReleaseKeeps(t: Tables, h: Hasher, pending: int, b: nat, id: int)
    requires Consistent(t, h, pending) && b < |t.untried| && id in t.untried[b] && id != pending
    ensures id in t.info && 0 <= t.info[id].pos < |t.random| && t.random[t.info[id].pos] == id
    ensures t.random[|t.random| - 1] in t.info && t.info[id].refCount >= 1 && !t.info[id].inTried
    ensures Consistent(Released(t, b, id), h, pending)
  {
    hide Consistent, Swapped, Forgotten, Unbucketed;
    BucketEntry(t, h, pending, b, id);
    if t.info[id].refCount > 1 {
      UnbucketKeeps(t, h, pending, b, id);
    } else {
      var p, q := t.info[id].pos, |t.random| - 1;
      SwapToEnd(t, h, pending, id);
      SwapKeeps(t, h, pending, p, q);
      ForgetKeeps(Swapped(t, p, q), h, pending, b, id);
    }
  }

  // Moving to the tried buckets

  /** No new bucket holds id any more. */
  function Cleared(untried: seq<set<int>>, id: int): (r: seq<set<int>>)
    ensures |r| == |untried| && forall b :: 0 <= b < |r| ==> r[b] == untried[b] - {id}
  {
    seq(|untried|, b requires 0 <= b < |untried| => untried[b] - {id})
  }

  function MadeTried(i: Info): Info {
    i.(refCount := 0, inTried := true)
  }

  function MadeNew(i: Info): Info {
    i.(refCount := 1, inTried := false)
  }

  /** MakeTried when the tried bucket has room. */
  function Promoted(t: Tables, h: Hasher, id: int): Tables
    requires id in t.info && |t.tried| == TRIED_BUCKETS
  {
    var k := TriedBucket(h, t.info[id]);
    t.(info := t.info[id := MadeTried(t.info[id])], untried := Cleared(t.untried, id),
       tried := t.tried[k := t.tried[k] + [id]], triedCount := t.triedCount + 1, untriedCount := t.untriedCount - 1)
  }

  /**
   MakeTried when it has none: the entry at place n of the reordered bucket goes back to new bucket b,
   and id takes its place.
   */
  function Replaced(t: Tables, h: Hasher, id: int, bucket: seq<int>, n: nat, b: nat): Tables
    requires id in t.info && |t.tried| == TRIED_BUCKETS && n < |bucket| && bucket[n] in t.info && b < |t.untried|
  {
    var k, victim := TriedBucket(h, t.info[id]), bucket[n];
    var untried := Cleared(t.untried, id);
    t.(info := t.info[id := MadeTried(t.info[id])][victim := MadeNew(t.info[victim])],
       untried := untried[b := untried[b] + {victim}], tried := t.tried[k := bucket[n := id]])
  }

  lemma ClearedHomes(untried: seq<set<int>>, id: int, x: int)
    ensures Homes(Cleared(untried, id), x) == if x == id then {} else Homes(untried, x)
  {
  }

  lemma PromoteNew(t: Tables, h: Hasher, id: int)
    requires NewOk(t, NONE) && id in t.info && |t.tried| == TRIED_BUCKETS && id != NONE
    ensures NewOk(Promoted(t, h, id), NONE)
  {
    hide Homes, Cleared, TriedBucket;
    var u := Promoted(t, h, id);
    forall x | x in u.info ensures RefOk(u.info[x], |Homes(u.untried, x)|, x == NONE) {
      assert RefOk(t.info[x], |Homes(t.untried, x)|, x == NONE);
      ClearedHomes(t.untried, id, x);
    }
    assert u.info.Keys == t.info.Keys;
    forall c | 0 <= c < |u.untried| ensures |u.untried[c]| <= NEW_SIZE && u.untried[c] <= u.info.Keys {
      assert |t.untried[c]| <= NEW_SIZE && t.untried[c] <= t.info.Keys;
      SubsetSize(u.untried[c], t.untried[c]);
    }
  }

  lemma SubsetSize(a: set<int>, b: set<int>)
    requires a <= b
    ensures |a| <= |b|
  {
    assert b == a + (b - a);
  }

  lemma PromoteCounted(t: Tables, h: Hasher, id: int)
    requires Counted(t) && id in t.info && !t.info[id].inTried && |t.tried| == TRIED_BUCKETS
    ensures Counted(Promoted(t, h, id))
  {
    var info := t.info[id := MadeTried(t.info[id])];
    assert TriedIds(info) == TriedIds(t.info) + {id} && NewIds(info) == NewIds(t.info) - {id};
  }

  lemma PromoteIndexed(t: Tables, u: Tables, id: int)
    requires Indexed(t) && u.info.Keys == t.info.Keys && u.byAddr == t.byAddr && u.random == t.random
             && u.idCount == t.idCount
    requires forall x :: x in t.info ==> u.info[x].addr == t.info[x].addr && u.info[x].pos == t.info[x].pos
    ensures Indexed(u)
  {
    SameRange(t, u);
    SameShuffle(t.info, u.info, t.random);
    forall x | x in u.info ensures Named1(u.info, u.byAddr, x) { assert x in t.info && Named1(t.info, t.byAddr, x); }
    forall a | a in u.byAddr ensures u.byAddr[a] in u.info && u.info[u.byAddr[a]].addr.service.ip == a {
      var x := t.byAddr[a];
      assert x in t.info;
    }
  }

  lemma PromoteTried(t: Tables, h: Hasher, id: int)
    requires TriedOk(t, h) && id in t.info && !t.info[id].inTried && |t.tried[TriedBucket(h, t.info[id])]| < TRIED_SIZE
    ensures TriedOk(Promoted(t, h, id), h)
  {
    var u, k := Promoted(t, h, id), TriedBucket(h, t.info[id]);
    forall b, j | 0 <= b < |u.tried| && 0 <= j < |u.tried[b]| ensures PlacedTried(u, h, u.tried[b][j], b) {
      if j < |t.tried[b]| {
        assert PlacedTried(t, h, t.tried[b][j], b);
      }
    }
    assert NoTwice(u.tried[k]) by {
      forall j | 0 <= j < |t.tried[k]| ensures t.tried[k][j] != id { assert PlacedTried(t, h, t.tried[k][j], k); }
    }
  }

  lemma PromoteKeeps(t: Tables, h: Hasher, id: int)
    requires Consistent(t, h, NONE) && id in t.info && !t.info[id].inTried
    requires |t.tried[TriedBucket(h, t.info[id])]| < TRIED_SIZE
    ensures Consistent(Promoted(t, h, id), h, NONE)
  {
    assert id != NONE;
    hide NewOk, Indexed, Counted, TriedBucket;
    PromoteNew(t, h, id);
    PromoteTried(t, h, id);
    PromoteCounted(t, h, id);
    PromoteIndexed(t, Promoted(t, h, id), id);
  }

  lemma MultisetStep(s: seq<int>)
    requires s != []
    ensures forall x :: multiset(s)[x] == multiset(s[1..])[x] + (if x == s[0] then 1 else 0)
  {
    assert s == [s[0]] + s[1..];
  }

  /** In a sequence without repetition every element is counted once. */
  lemma {:induction false} CountedOnce(s: seq<int>)
    requires NoTwice(s)
    ensures forall x :: multiset(s)[x] <= 1
  {
    if s != [] {
      MultisetStep(s);
      CountedOnce(s[1..]);
      assert s[0] !in s[1..];
      assert multiset(s[1..])[s[0]] == 0;
    }
  }

  lemma {:induction false} OnceCounted(s: seq<int>)
    requires forall x :: multiset(s)[x] <= 1
    ensures NoTwice(s)
  {
    if s != [] {
      MultisetStep(s);
      OnceCounted(s[1..]);
      assert multiset(s[1..])[s[0]] == 0;
      forall i, j | 0 <= i < j < |s| ensures s[i] != s[j] {
        assert s[j] == s[1..][j - 1];
        if i == 0 {
          assert s[j] in multiset(s[1..]);
        } else {
          assert s[i] == s[1..][i - 1];
        }
      }
    }
  }

  lemma ReorderedOnce(s: seq<int>, r: seq<int>)
    requires NoTwice(s) && multiset(r) == multiset(s)
    ensures NoTwice(r) && |r| == |s| && forall x :: x in s <==> x in r
  {
    assert |multiset(s)| == |s| && |multiset(r)| == |r|;
    forall x ensures x in s <==> x in r { assert x in s <==> x in multiset(s); assert x in r <==> x in multiset(r); }
    CountedOnce(s);
    OnceCounted(r);
  }

  lemma NoTwiceUpdate(s: seq<int>, n: nat, id: int)
    requires NoTwice(s) && n < |s| && id !in s
    ensures NoTwice(s[n := id])
  {
  }

  /** What MakeTried knows of the bucket it evicts from. */
  ghost predicate Evicts(t: Tables, h: Hasher, id: int, bucket: seq<int>, n: nat, b: nat) {
    && id in t.info && !t.info[id].inTried && |t.tried| == TRIED_BUCKETS && n < |bucket| && b < |t.untried|
    && multiset(bucket) == multiset(t.tried[TriedBucket(h, t.info[id])])
    && bucket[n] in t.info && t.info[bucket[n]].inTried
    && |t.untried[b] - {id}| < NEW_SIZE
  }

  lemma NoHomesTried(t: Tables, x: int)
    requires NewOk(t, NONE) && x in t.info && t.info[x].inTried && x != NONE
    ensures Homes(t.untried, x) == {}
  {
    hide Homes;
    assert RefOk(t.info[x], |Homes(t.untried, x)|, x == NONE);
  }

  lemma ReplaceNew(t: Tables, h: Hasher, id: int, bucket: seq<int>, n: nat, b: nat)
    requires NewOk(t, NONE) && Evicts(t, h, id, bucket, n, b) && NONE !in t.info
    ensures NewOk(Replaced(t, h, id, bucket, n, b), NONE)
  {
    var u, victim := Replaced(t, h, id, bucket, n, b), bucket[n];
    var cleared := Cleared(t.untried, id);
    hide Homes, Cleared, TriedBucket;
    forall x | x in u.info ensures RefOk(u.info[x], |Homes(u.untried, x)|, x == NONE) {
      assert RefOk(t.info[x], |Homes(t.untried, x)|, x == NONE);
      ClearedHomes(t.untried, id, x);
      HomesWith(cleared, b, victim, x);
      NoHomesTried(t, victim);
    }
    assert u.info.Keys == t.info.Keys;
    forall c | 0 <= c < |u.untried| ensures |u.untried[c]| <= NEW_SIZE && u.untried[c] <= u.info.Keys {
      assert |t.untried[c]| <= NEW_SIZE && t.untried[c] <= t.info.Keys;
      SubsetSize(cleared[c], t.untried[c]);
    }
  }

  lemma IdsAfter(info: map<int, Info>, id: int, i: Info)
    requires id in info && info[id].inTried != i.inTried
    ensures TriedIds(info[id := i]) == if i.inTried then TriedIds(info) + {id} else TriedIds(info) - {id}
    ensures NewIds(info[id := i]) == if i.inTried then NewIds(info) - {id} else NewIds(info) + {id}
    ensures id in (if i.inTried then NewIds(info) else TriedIds(info))
    ensures id !in (if i.inTried then TriedIds(info) else NewIds(info))
  {
  }

  lemma ReplaceCounted(t: Tables, h: Hasher, id: int, bucket: seq<int>, n: nat, b: nat)
    requires Counted(t) && Evicts(t, h, id, bucket, n, b)
    ensures Counted(Replaced(t, h, id, bucket, n, b))
  {
    hide TriedIds, NewIds, TriedBucket;
    var victim := bucket[n];
    var info := t.info[id := MadeTried(t.info[id])];
    IdsAfter(t.info, id, MadeTried(t.info[id]));
    IdsAfter(info, victim, MadeNew(t.info[victim]));
  }

  lemma ReplaceTried(t: Tables, h: Hasher, id: int, bucket: seq<int>, n: nat, b: nat)
    requires TriedOk(t, h) && Evicts(t, h, id, bucket, n, b)
    ensures TriedOk(Replaced(t, h, id, bucket, n, b), h)
  {
    var u, k, victim := Replaced(t, h, id, bucket, n, b), TriedBucket(h, t.info[id]), bucket[n];
    ReorderedOnce(t.tried[k], bucket);
    forall x | x in bucket ensures PlacedTried(t, h, x, k) {
      var j :| 0 <= j < |t.tried[k]| && t.tried[k][j] == x;
      assert PlacedTried(t, h, t.tried[k][j], k);
    }
    hide TriedBucket;
    forall c, j | 0 <= c < |u.tried| && 0 <= j < |u.tried[c]| ensures PlacedTried(u, h, u.tried[c][j], c) {
      ReplacePlaced(t, h, id, bucket, n, b, c, j);
    }
    forall x | x in u.info && u.info[x].inTried ensures x in u.tried[TriedBucket(h, u.info[x])] {
      ReplaceFound(t, h, id, bucket, n, b, x);
    }
    assert id !in bucket;
    NoTwiceUpdate(bucket, n, id);
  }

  lemma ReplacePlaced(t: Tables, h: Hasher, id: int, bucket: seq<int>, n: nat, b: nat, c: int, j: int)
    requires TriedOk(t, h) && Evicts(t, h, id, bucket, n, b) && NoTwice(bucket)
    requires forall x :: x in bucket ==> PlacedTried(t, h, x, TriedBucket(h, t.info[id]))
    requires var u := Replaced(t, h, id, bucket, n, b); 0 <= c < |u.tried| && 0 <= j < |u.tried[c]|
    ensures var u := Replaced(t, h, id, bucket, n, b); PlacedTried(u, h, u.tried[c][j], c)
  {
    var k := TriedBucket(h, t.info[id]);
    if c == k {
      if j != n {
        assert bucket[j] in bucket && PlacedTried(t, h, bucket[j], k) && bucket[j] != bucket[n];
      }
    } else {
      assert PlacedTried(t, h, t.tried[c][j], c);
      assert PlacedTried(t, h, bucket[n], k);
    }
  }

  lemma ReplaceFound(t: Tables, h: Hasher, id: int, bucket: seq<int>, n: nat, b: nat, x: int)
    requires TriedOk(t, h) && Evicts(t, h, id, bucket, n, b)
    requires forall y :: y in t.tried[TriedBucket(h, t.info[id])] <==> y in bucket
    requires var u := Replaced(t, h, id, bucket, n, b); x in u.info && u.info[x].inTried
    ensures var u := Replaced(t, h, id, bucket, n, b); x in u.tried[TriedBucket(h, u.info[x])]
  {
    var u, k := Replaced(t, h, id, bucket, n, b), TriedBucket(h, t.info[id]);
    if x == id {
      assert u.tried[k][n] == id;
    } else {
      assert x in t.tried[TriedBucket(h, t.info[x])];
      if TriedBucket(h, t.info[x]) == k {
        var j :| 0 <= j < |bucket| && bucket[j] == x;
        assert j != n;
        assert u.tried[k][j] == x;
      }
    }
  }

  lemma ReplacedInfo(t: Tables, h: Hasher, id: int, bucket: seq<int>, n: nat, b: nat)
    requires Evicts(t, h, id, bucket, n, b)
    ensures var u := Replaced(t, h, id, bucket, n, b);
            && u.info.Keys == t.info.Keys && u.byAddr == t.byAddr && u.random == t.random && u.idCount == t.idCount
            && forall x :: x in t.info ==> u.info[x].addr == t.info[x].addr && u.info[x].pos == t.info[x].pos
  {
  }

  lemma ReplaceKeeps(t: Tables, h: Hasher, id: int, bucket: seq<int>, n: nat, b: nat)
    requires Consistent(t, h, NONE) && Evicts(t, h, id, bucket, n, b)
    ensures Consistent(Replaced(t, h, id, bucket, n, b), h, NONE)
  {
    assert NONE !in t.info;
    ReplacedInfo(t, h, id, bucket, n, b);
    hide NewOk, Indexed, TriedOk, Counted, TriedBucket, Replaced, Evicts;
    ReplaceNew(t, h, id, bucket, n, b);
    ReplaceTried(t, h, id, bucket, n, b);
    ReplaceCounted(t, h, id, bucket, n, b);
    PromoteIndexed(t, Replaced(t, h, id, bucket, n, b), id);
  }
}
