/**
 Saving and reloading the address manager. Ids are not saved: entries are written in id order, new
 ones before tried ones, and numbered afresh on reading. Maps and sets are walked in id order.
 */
module AddrStore {
  import opened Bytes
  import opened AddrTables

  /** What reading an entry back restores: the memory-only fields are reset. */
  function OnDisk(i: Info): Info {
    i.(lastTry := 0, refCount := 0, inTried := false, pos := -1)
  }

  /** The file: counts, the number of new buckets, the entries, and per bucket the indexes of its entries. */
  datatype Image = Image(newCount: int, triedCount: int, buckets: int, news: seq<Info>, olds: seq<Info>,
                         indexes: seq<seq<int>>)

  /** The members of a set below n, in order. */
  function Ascending(ids: set<int>, n: nat): seq<int> {
    if n == 0 then [] else Ascending(ids, n - 1) + (if n - 1 in ids then [n - 1] else [])
  }

  /** How many members come before id. */
  function Rank(ids: set<int>, id: nat): nat {
    |Ascending(ids, id)|
  }

  lemma {:induction false} AscendingMembers(ids: set<int>, n: nat)
    ensures forall i :: 0 <= i < |Ascending(ids, n)| ==>
              0 <= Ascending(ids, n)[i] < n && Ascending(ids, n)[i] in ids && Rank(ids, Ascending(ids, n)[i]) == i
    decreases n
  {
    if n > 0 {
      AscendingMembers(ids, n - 1);
    }
  }

  lemma {:induction false} AscendingFinds(ids: set<int>, n: nat, id: nat)
    requires id in ids && id < n
    ensures Rank(ids, id) < |Ascending(ids, n)| && Ascending(ids, n)[Rank(ids, id)] == id
    decreases n
  {
    if id < n - 1 {
      AscendingFinds(ids, n - 1, id);
    }
  }

  function Within(ids: set<int>, n: nat): set<int> {
    set x | x in ids && 0 <= x < n
  }

  lemma {:induction false} AscendingCount(ids: set<int>, n: nat)
    ensures |Ascending(ids, n)| == |Within(ids, n)|
    decreases n
  {
    if n == 0 {
      assert Within(ids, 0) == {};
    } else {
      AscendingCount(ids, n - 1);
      assert Within(ids, n) == if n - 1 in ids then Within(ids, n - 1) + {n - 1} else Within(ids, n - 1);
    }
  }

  lemma AscendingSize(ids: set<int>, n: nat)
    requires forall x :: x in ids ==> 0 <= x < n
    ensures |Ascending(ids, n)| == |ids|
  {
    AscendingCount(ids, n);
    assert Within(ids, n) == ids;
  }

  /** Entries for a list of ids, as written. */
  function Written(info: map<int, Info>, ids: seq<int>): (r: seq<Info>)
    requires forall i :: 0 <= i < |ids| ==> ids[i] in info
    ensures |r| == |ids| && forall i :: 0 <= i < |ids| ==> r[i] == OnDisk(info[ids[i]])
  {
    seq(|ids|, i requires 0 <= i < |ids| => OnDisk(info[ids[i]]))
  }

  function Ranks(ids: set<int>, members: seq<int>): (r: seq<int>)
    requires forall i :: 0 <= i < |members| ==> members[i] >= 0
    ensures |r| == |members| && forall i :: 0 <= i < |r| ==> r[i] == Rank(ids, members[i])
  {
    seq(|members|, i requires 0 <= i < |members| => Rank(ids, members[i]))
  }

  function NewOrder(t: Tables): seq<int>
    requires 0 <= t.idCount
  {
    Ascending(NewIds(t.info), t.idCount)
  }

  function TriedOrder(t: Tables): seq<int>
    requires 0 <= t.idCount
  {
    Ascending(TriedIds(t.info), t.idCount)
  }

  lemma OrderKnown(t: Tables)
    requires 0 <= t.idCount
    ensures forall i :: 0 <= i < |NewOrder(t)| ==> NewOrder(t)[i] in t.info && !t.info[NewOrder(t)[i]].inTried
    ensures forall i :: 0 <= i < |TriedOrder(t)| ==> TriedOrder(t)[i] in t.info && t.info[TriedOrder(t)[i]].inTried
  {
    AscendingMembers(NewIds(t.info), t.idCount);
    AscendingMembers(TriedIds(t.info), t.idCount);
  }

  /** What is written for a bucket: the places its entries have in the file. */
  function BucketRanks(t: Tables, b: nat): seq<int>
    requires 0 <= t.idCount && b < |t.untried|
  {
    AscendingMembers(t.untried[b], t.idCount);
    Ranks(NewIds(t.info), Ascending(t.untried[b], t.idCount))
  }

  /** The file a manager is saved to. */
  ghost function Saved(t: Tables): (img: Image)
    requires 0 <= t.idCount
  {
    OrderKnown(t);
    Image(t.untriedCount, t.triedCount, NEW_BUCKETS, Written(t.info, NewOrder(t)), Written(t.info, TriedOrder(t)),
          seq(|t.untried|, b requires 0 <= b < |t.untried| => BucketRanks(t, b)))
  }

  lemma {:induction false} AscendingPrefix(ids: set<int>, m: nat, n: nat)
    requires m <= n
    ensures Ascending(ids, m) <= Ascending(ids, n)
    decreases n
  {
    if m < n {
      AscendingPrefix(ids, m, n - 1);
    }
  }

  /** Once as many ids have been listed as there are, the rest of the walk adds none. */
  lemma AscendingDone(ids: set<int>, m: nat, n: nat)
    requires m <= n && |Ascending(ids, m)| == |ids| && forall x :: x in ids ==> 0 <= x < n
    ensures Ascending(ids, m) == Ascending(ids, n) && forall x :: x in ids ==> x < m
  {
    AscendingPrefix(ids, m, n);
    AscendingSize(ids, n);
    AscendingMembers(ids, m);
    forall x | x in ids ensures x < m {
      AscendingFinds(ids, n, x);
    }
  }

  /** The first loop of the save: new entries, and the place each gets in the file. */
  method SaveNew(t: Tables) returns (news: seq<Info>, places: map<int, int>)
    requires Indexed(t) && NewOk(t, NONE) && Counted(t)
    ensures OrderOk(t) && news == Written(t.info, NewOrder(t))
    ensures forall x :: x in t.info && !t.info[x].inTried ==> x in places && places[x] == Rank(NewIds(t.info), x)
  {
    hide NewOk, Shuffled, Named;
    ghost var ids := NewIds(t.info);
    SaveFacts(t);
    news, places := [], map[];
    var count := 0;
    for id := 0 to t.idCount
      invariant count == |news| == |Ascending(ids, id)|
      invariant forall i :: 0 <= i < count ==>
                  Ascending(ids, id)[i] in t.info && news[i] == OnDisk(t.info[Ascending(ids, id)[i]])
      invariant forall x :: x in ids && x < id ==> x in places && places[x] == Rank(ids, x)
    {
      if id !in t.info {
        continue;
      }
      if count == t.untriedCount {
        AscendingDone(ids, id, t.idCount);
        forall x | x in t.info && !t.info[x].inTried ensures x in places && places[x] == Rank(ids, x) {
          assert x in ids;
        }
        return;
      }
      places := places[id := count];
      if t.info[id].refCount != 0 {
        news := news + [OnDisk(t.info[id])];
        count := count + 1;
      }
    }
  }

  ghost predicate OrderOk(t: Tables) {
    && 0 <= t.idCount
    && (forall i :: 0 <= i < |NewOrder(t)| ==> NewOrder(t)[i] in t.info)
    && (forall i :: 0 <= i < |TriedOrder(t)| ==> TriedOrder(t)[i] in t.info)
  }

  lemma SaveFacts(t: Tables)
    requires Indexed(t) && NewOk(t, NONE) && Counted(t)
    ensures OrderOk(t)
    ensures forall x :: x in t.info ==> 0 <= x < t.idCount && (t.info[x].refCount != 0 <==> !t.info[x].inTried)
    ensures forall x :: x in NewIds(t.info) ==> x in t.info && !t.info[x].inTried && 0 <= x < t.idCount
    ensures forall x :: x in TriedIds(t.info) ==> x in t.info && t.info[x].inTried && 0 <= x < t.idCount
  {
    OrderKnown(t);
    forall x | x in t.info ensures t.info[x].refCount != 0 <==> !t.info[x].inTried {
      assert RefOk(t.info[x], |Homes(t.untried, x)|, x == NONE);
    }
  }

  /** The second loop: tried entries. */
  method SaveTried(t: Tables) returns (olds: seq<Info>)
    requires Indexed(t) && NewOk(t, NONE) && Counted(t)
    ensures OrderOk(t) && olds == Written(t.info, TriedOrder(t))
  {
    hide NewOk, Shuffled, Named;
    ghost var ids := TriedIds(t.info);
    SaveFacts(t);
    olds := [];
    var count := 0;
    for id := 0 to t.idCount
      invariant count == |olds| == |Ascending(ids, id)|
      invariant forall i :: 0 <= i < count ==>
                  Ascending(ids, id)[i] in t.info && olds[i] == OnDisk(t.info[Ascending(ids, id)[i]])
    {
      if id !in t.info {
        continue;
      }
      if count == t.triedCount {
        AscendingDone(ids, id, t.idCount);
        return;
      }
      if t.info[id].inTried {
        olds := olds + [OnDisk(t.info[id])];
        count := count + 1;
      }
    }
  }

  /** The third loop, for one bucket: the places of its entries. */
  method SaveBucket(t: Tables, b: nat, places: map<int, int>) returns (r: seq<int>)
    requires Indexed(t) && b < |t.untried| && forall x :: x in t.untried[b] ==> HasPlace(t, places, x)
    ensures r == BucketRanks(t, b)
  {
    ghost var bucket := t.untried[b];
    AscendingMembers(bucket, t.idCount);
    r := [];
    for id := 0 to t.idCount
      invariant |r| == |Ascending(bucket, id)|
      invariant forall i :: 0 <= i < |r| ==>
                  Ascending(bucket, id)[i] >= 0 && r[i] == Rank(NewIds(t.info), Ascending(bucket, id)[i])
    {
      if id in t.untried[b] {
        r := r + [places[id]];
      }
    }
  }

  /** The last loop of the save, over the new buckets. */
  method SaveBuckets(t: Tables, places: map<int, int>) returns (indexes: seq<seq<int>>)
    requires Indexed(t) && BucketsPlaced(t, places)
    ensures |indexes| == |t.untried| && forall c :: 0 <= c < |indexes| ==> indexes[c] == BucketRanks(t, c)
  {
    assert 0 <= t.idCount;
    hide BucketRanks, HasPlace, Indexed;
    indexes := [];
    for b := 0 to |t.untried|
      invariant |indexes| == b && forall c :: 0 <= c < b ==> indexes[c] == BucketRanks(t, c)
    {
      var r := SaveBucket(t, b, places);
      indexes := indexes + [r];
    }
  }

  /** Every entry of a bucket has its place in the file. */
  ghost predicate BucketsPlaced(t: Tables, places: map<int, int>) {
    forall b, x :: 0 <= b < |t.untried| && x in t.untried[b] ==> HasPlace(t, places, x)
  }

  ghost predicate HasPlace(t: Tables, places: map<int, int>, x: int) {
    x in places && x >= 0 && places[x] == Rank(NewIds(t.info), x)
  }

  lemma AllPlaced(t: Tables, places: map<int, int>)
    requires Indexed(t) && NewOk(t, NONE)
    requires forall x :: x in t.info && !t.info[x].inTried ==> x in places && places[x] == Rank(NewIds(t.info), x)
    ensures BucketsPlaced(t, places)
  {
    BucketsNew(t);
    hide Indexed, NewOk, Rank, NewIds;
    forall b, x | 0 <= b < |t.untried| && x in t.untried[b] ensures HasPlace(t, places, x) {}
  }

  /** Saving writes the file described by Saved. */
  method Save(t: Tables) returns (img: Image)
    requires Indexed(t) && NewOk(t, NONE) && Counted(t)
    ensures img == Saved(t)
  {
    assert 0 <= t.idCount;
    hide *;
    var news, places := SaveNew(t);
    AllPlaced(t, places);
    var olds := SaveTried(t);
    var indexes := SaveBuckets(t, places);
    SavedParts(t, indexes);
    img := Image(t.untriedCount, t.triedCount, NEW_BUCKETS, news, olds, indexes);
  }

  lemma SavedParts(t: Tables, indexes: seq<seq<int>>)
    requires OrderOk(t) && |indexes| == |t.untried|
    requires forall c :: 0 <= c < |indexes| ==> indexes[c] == BucketRanks(t, c)
    ensures Saved(t) == Image(t.untriedCount, t.triedCount, NEW_BUCKETS, Written(t.info, NewOrder(t)),
                              Written(t.info, TriedOrder(t)), indexes)
  {
    hide BucketRanks, NewOrder, TriedOrder;
  }

  lemma BucketsNew(t: Tables)
    requires Indexed(t) && NewOk(t, NONE)
    ensures forall b, x :: 0 <= b < |t.untried| && x in t.untried[b] ==> x in t.info && !t.info[x].inTried && x >= 0
  {
    forall b, x | 0 <= b < |t.untried| && x in t.untried[b] ensures x in t.info && !t.info[x].inTried && x >= 0 {
      assert t.untried[b] <= t.info.Keys;
      assert b in Homes(t.untried, x);
      assert RefOk(t.info[x], |Homes(t.untried, x)|, x == NONE);
    }
  }

  // Reloading

  /** What any file read is like: as many records as were counted, none for a negative count. */
  ghost predicate Framed(img: Image) {
    && |img.news| == AtLeast0(img.newCount) && |img.olds| == AtLeast0(img.triedCount)
    && |img.indexes| == AtLeast0(img.buckets) <= NEW_BUCKETS
    && (forall i :: 0 <= i < |img.news| ==> img.news[i] == OnDisk(img.news[i]))
    && (forall i :: 0 <= i < |img.olds| ==> img.olds[i] == OnDisk(img.olds[i]))
  }

  function AtLeast0(n: int): nat {
    if n < 0 then 0 else n
  }

  /** Counts that are not negative, and buckets that name new entries of the file only. */
  ghost predicate Shape(img: Image) {
    && Framed(img) && img.newCount >= 0 && img.triedCount >= 0 && img.buckets >= 0
    && forall b, i :: 0 <= b < |img.indexes| && 0 <= i < |img.indexes[b]| ==> 0 <= img.indexes[b][i] < |img.news|
  }

  /** What mapInfo holds for an id it did not know: an entry as constructed. */
  function Blank(): Info {
    var nowhere := NetAddr(seq(16, i => 0));
    Info(Address(Service(nowhere, 0), 1, 100_000_000), nowhere, 0, 0, 0, 0, false, -1)
  }

  function EntryIp(i: Info): NetAddr {
    i.addr.service.ip
  }

  /** No two entries have the same network address. */
  ghost predicate DistinctIps(all: seq<Info>) {
    forall i, j :: 0 <= i < j < |all| ==> EntryIp(all[i]) != EntryIp(all[j])
  }

  /** The new ids, from base on, of the first m tried entries that belong to a bucket. */
  function TriedList(olds: seq<Info>, h: Hasher, k: nat, m: nat, base: int): seq<int>
    requires m <= |olds|
  {
    if m == 0 then []
    else TriedList(olds, h, k, m - 1, base) + (if TriedBucket(h, olds[m - 1]) == k then [base + m - 1] else [])
  }

  function Members(s: seq<int>): set<int> {
    set x | x in s
  }

  /** The buckets whose index list names r. */
  function Holders(indexes: seq<seq<int>>, r: int): set<int> {
    set b | 0 <= b < |indexes| && r in indexes[b]
  }

  /** A file as a consistent manager writes it. */
  ghost predicate WellFormed(img: Image, h: Hasher) {
    && Shape(img) && img.buckets == NEW_BUCKETS && DistinctIps(img.news + img.olds)
    && (forall k :: 0 <= k < TRIED_BUCKETS ==> |TriedList(img.olds, h, k, |img.olds|, |img.news|)| <= TRIED_SIZE)
    && (forall b :: 0 <= b < |img.indexes| ==> NoTwice(img.indexes[b]))
    && (forall r :: 0 <= r < |img.news| ==> |Holders(img.indexes, r)| <= BUCKETS_PER_ADDRESS)
  }

  /** Entries numbered from zero in file order: where each stands and which table it is in. */
  ghost predicate Numbered(info: map<int, Info>, all: seq<Info>, news: nat) {
    && (forall r :: r in info <==> 0 <= r < |all|)
    && (forall r :: 0 <= r < |all| ==> info[r] == all[r].(pos := r, inTried := r >= news, refCount := info[r].refCount))
  }

  ghost predicate NamedBy(byAddr: map<NetAddr, int>, all: seq<Info>) {
    && (forall r :: 0 <= r < |all| ==> EntryIp(all[r]) in byAddr && byAddr[EntryIp(all[r])] == r)
    && (forall a :: a in byAddr ==> 0 <= byAddr[a] < |all| && EntryIp(all[byAddr[a]]) == a)
  }

  ghost predicate Counting(random: seq<int>, n: nat) {
    |random| == n && forall r :: 0 <= r < n ==> random[r] == r
  }

  lemma NamedByOneMore(byAddr: map<NetAddr, int>, all: seq<Info>, i: Info)
    requires NamedBy(byAddr, all) && DistinctIps(all + [i])
    ensures NamedBy(byAddr[EntryIp(i) := |all|], all + [i])
  {
    var more := all + [i];
    forall r | 0 <= r < |all| ensures EntryIp(all[r]) != EntryIp(i) {
      assert more[r] == all[r] && more[|all|] == i;
    }
  }

  lemma DistinctPrefix(all: seq<Info>, n: nat)
    requires DistinctIps(all) && n <= |all|
    ensures DistinctIps(all[..n])
  {
  }

  /** The first loop of the load. In the old format the default bucket is used instead of the saved ones. */
  method LoadNew(img: Image, h: Hasher)
    returns (info: map<int, Info>, byAddr: map<NetAddr, int>, random: seq<int>, untried: seq<set<int>>)
    requires Framed(img)
    ensures |untried| == NEW_BUCKETS && forall r :: 0 <= r < |img.news| ==> r in info
    ensures WellFormed(img, h) ==>
              && Numbered(info, img.news, |img.news|) && NamedBy(byAddr, img.news) && Counting(random, |img.news|)
              && (forall r :: 0 <= r < |img.news| ==> info[r].refCount == 0)
              && forall b :: 0 <= b < NEW_BUCKETS ==> untried[b] == {}
  {
    hide NamedBy, WellFormed;
    info, byAddr, random := map[], map[], [];
    untried := seq(NEW_BUCKETS, i => {});
    NamedByNone();
    for n := 0 to |img.news|
      invariant |untried| == NEW_BUCKETS && forall r :: 0 <= r < n ==> r in info
      invariant WellFormed(img, h) ==>
                  && Loose(info, img.news[..n]) && NamedBy(byAddr, img.news[..n]) && Counting(random, n)
                  && forall b :: 0 <= b < NEW_BUCKETS ==> untried[b] == {}
    {
      var i := img.news[n];
      if WellFormed(img, h) {
        NextIp(img, h, n);
        NamedByOneMore(byAddr, img.news[..n], i);
      }
      assert img.news[..n] + [i] == img.news[..n + 1];
      info := info[n := i];
      byAddr := byAddr[EntryIp(i) := n];
      info := info[n := info[n].(pos := |random|)];
      random := random + [n];
      if img.buckets != NEW_BUCKETS {
        var b := NewBucket(h, i, i.source);
        untried := untried[b := untried[b] + {n}];
        info := info[n := info[n].(refCount := info[n].refCount + 1)];
        assert !WellFormed(img, h) by { OldFormat(img, h); }
      }
    }
    assert img.news[..|img.news|] == img.news;
  }

  /** Entries read back but not yet counted: new ones are not in the tried table. */
  ghost predicate Loose(info: map<int, Info>, news: seq<Info>) {
    && (forall r :: r in info <==> 0 <= r < |news|)
    && (forall r :: 0 <= r < |news| ==> info[r] == news[r].(pos := r))
  }

  lemma NamedByNone()
    ensures NamedBy(map[], [])
  {
  }

  lemma OldFormat(img: Image, h: Hasher)
    requires img.buckets != NEW_BUCKETS
    ensures !WellFormed(img, h)
  {
  }

  lemma NextIp(img: Image, h: Hasher, n: nat)
    requires WellFormed(img, h) && n < |img.news| + |img.olds|
    ensures DistinctIps((img.news + img.olds)[..n + 1])
    ensures n < |img.news| ==> (img.news + img.olds)[..n + 1] == img.news[..n] + [img.news[n]]
    ensures n >= |img.news| ==>
              (img.news + img.olds)[..n + 1] == img.news + img.olds[..n - |img.news|] + [img.olds[n - |img.news|]]
  {
    hide DistinctIps;
    DistinctPrefix(img.news + img.olds, n + 1);
  }

  lemma {:induction false} TriedListGrows(olds: seq<Info>, h: Hasher, k: nat, m: nat, n: nat, base: int)
    requires m <= n <= |olds|
    ensures |TriedList(olds, h, k, m, base)| <= |TriedList(olds, h, k, n, base)|
    decreases n
  {
    if m < n {
      TriedListGrows(olds, h, k, m, n - 1, base);
    }
  }

  /** There is room for the next tried entry of a well-formed file. */
  lemma TriedRoom(img: Image, h: Hasher, m: nat)
    requires WellFormed(img, h) && m < |img.olds|
    ensures |TriedList(img.olds, h, TriedBucket(h, img.olds[m]), m, |img.news|)| < TRIED_SIZE
  {
    var k := TriedBucket(h, img.olds[m]);
    assert |TriedList(img.olds, h, k, |img.olds|, |img.news|)| <= TRIED_SIZE;
    hide WellFormed, TriedBucket, TriedList;
    TriedListGrows(img.olds, h, k, m + 1, |img.olds|, |img.news|);
    TriedListMore(img.olds, h, k, m, |img.news|);
  }

  lemma TriedListMore(olds: seq<Info>, h: Hasher, k: nat, m: nat, base: int)
    requires m < |olds| && TriedBucket(h, olds[m]) == k
    ensures |TriedList(olds, h, k, m + 1, base)| == |TriedList(olds, h, k, m, base)| + 1
  {
    hide TriedBucket;
  }

  lemma NumberedOneMore(info: map<int, Info>, all: seq<Info>, news: nat, i: Info)
    requires Numbered(info, all, news) && news <= |all| && i == OnDisk(i)
    ensures Numbered(info[|all| := i.(pos := |all|, inTried := true)], all + [i], news)
  {
  }

  /** The second loop: tried entries, as far as their buckets have room. */
  method LoadTried(img: Image, h: Hasher, info0: map<int, Info>, byAddr0: map<NetAddr, int>, random0: seq<int>)
    returns (info: map<int, Info>, byAddr: map<NetAddr, int>, random: seq<int>, tried: seq<seq<int>>, idCount: nat,
             lost: nat)
    requires Framed(img) && forall r :: 0 <= r < |img.news| ==> r in info0
    requires WellFormed(img, h) ==>
               Numbered(info0, img.news, |img.news|) && NamedBy(byAddr0, img.news) && Counting(random0, |img.news|) &&
               forall r :: 0 <= r < |img.news| ==> info0[r].refCount == 0
    ensures forall r :: 0 <= r < |img.news| ==> r in info
    ensures |tried| == TRIED_BUCKETS
    ensures WellFormed(img, h) ==>
              && lost == 0 && idCount == |img.news| + |img.olds|
              && Numbered(info, img.news + img.olds, |img.news|) && NamedBy(byAddr, img.news + img.olds)
              && Counting(random, |img.news| + |img.olds|)
              && (forall r :: 0 <= r < |img.news| + |img.olds| ==> info[r].refCount == 0)
              && forall k :: 0 <= k < TRIED_BUCKETS ==> tried[k] == TriedList(img.olds, h, k, |img.olds|, |img.news|)
  {
    hide NamedBy, WellFormed, Numbered, TriedBucket;
    info, byAddr, random := info0, byAddr0, random0;
    tried := seq(TRIED_BUCKETS, i => []);
    idCount, lost := |img.news|, 0;
    assert img.news + img.olds[..0] == img.news;
    for m := 0 to |img.olds|
      invariant |tried| == TRIED_BUCKETS && idCount >= |img.news| && forall r :: 0 <= r < |img.news| ==> r in info
      invariant WellFormed(img, h) ==> TriedSoFar(img, h, m, info, byAddr, random, tried, idCount, lost)
    {
      var i := img.olds[m];
      var k := TriedBucket(h, i);
      if WellFormed(img, h) {
        TriedStep(img, h, m, info, byAddr, random, tried, idCount, lost);
      }
      if |tried[k]| < TRIED_SIZE {
        i := i.(pos := |random|, inTried := true);
        random := random + [idCount];
        info := info[idCount := i];
        byAddr := byAddr[EntryIp(i) := idCount];
        tried := tried[k := tried[k] + [idCount]];
        idCount := idCount + 1;
      } else {
        lost := lost + 1;
      }
    }
    assert img.news + img.olds[..|img.olds|] == img.news + img.olds;
    if WellFormed(img, h) {
      TriedEnd(img, h, info, byAddr, random, tried, idCount, lost);
    }
  }

  /** The state of the second loop on a well-formed file. */
  ghost predicate TriedSoFar(img: Image, h: Hasher, m: nat, info: map<int, Info>, byAddr: map<NetAddr, int>,
                             random: seq<int>, tried: seq<seq<int>>, idCount: nat, lost: nat)
  {
    && m <= |img.olds| && |tried| == TRIED_BUCKETS
    && lost == 0 && idCount == |img.news| + m && Counting(random, idCount)
    && Numbered(info, img.news + img.olds[..m], |img.news|) && NamedBy(byAddr, img.news + img.olds[..m])
    && (forall r :: 0 <= r < idCount ==> r in info && info[r].refCount == 0)
    && Listing(img.olds, h, m, |img.news|, tried)
  }

  /** The tried buckets hold the first m entries, each in its own bucket and in order. */
  ghost predicate Listing(olds: seq<Info>, h: Hasher, m: nat, base: nat, tried: seq<seq<int>>) {
    && m <= |olds| && |tried| == TRIED_BUCKETS
    && forall k :: 0 <= k < TRIED_BUCKETS ==> tried[k] == TriedList(olds, h, k, m, base)
  }

  lemma TriedListsGrow(olds: seq<Info>, h: Hasher, m: nat, base: nat, tried: seq<seq<int>>, id: nat)
    requires m < |olds| && Listing(olds, h, m, base, tried) && id == base + m
    ensures var k := TriedBucket(h, olds[m]);
            && tried[k] == TriedList(olds, h, k, m, base)
            && Listing(olds, h, m + 1, base, tried[k := tried[k] + [id]])
  {
    hide TriedBucket;
  }

  lemma TriedStep(img: Image, h: Hasher, m: nat, info: map<int, Info>, byAddr: map<NetAddr, int>,
                  random: seq<int>, tried: seq<seq<int>>, idCount: nat, lost: nat)
    requires WellFormed(img, h) && m < |img.olds| && TriedSoFar(img, h, m, info, byAddr, random, tried, idCount, lost)
    ensures var i := img.olds[m];
            var k := TriedBucket(h, i);
            && |tried[k]| < TRIED_SIZE && |random| == idCount
            && TriedSoFar(img, h, m + 1, info[idCount := i.(pos := idCount, inTried := true)],
                          byAddr[EntryIp(i) := idCount], random + [idCount], tried[k := tried[k] + [idCount]],
                          idCount + 1, lost)
  {
    hide NamedBy, Numbered, TriedBucket, Listing;
    var i, all := img.olds[m], img.news + img.olds[..m];
    assert i == OnDisk(i);
    TriedRoom(img, h, m);
    TriedListsGrow(img.olds, h, m, |img.news|, tried, idCount);
    NextIp(img, h, |img.news| + m);
    hide WellFormed, DistinctIps;
    assert all + [i] == img.news + img.olds[..m + 1];
    NamedByOneMore(byAddr, all, i);
    NumberedOneMore(info, all, |img.news|, i);
  }

  lemma TriedEnd(img: Image, h: Hasher, info: map<int, Info>, byAddr: map<NetAddr, int>,
                 random: seq<int>, tried: seq<seq<int>>, idCount: nat, lost: nat)
    requires TriedSoFar(img, h, |img.olds|, info, byAddr, random, tried, idCount, lost)
    ensures Numbered(info, img.news + img.olds, |img.news|) && NamedBy(byAddr, img.news + img.olds)
    ensures forall k :: 0 <= k < TRIED_BUCKETS ==> tried[k] == TriedList(img.olds, h, k, |img.olds|, |img.news|)
  {
    hide NamedBy, Numbered;
    assert img.olds[..|img.olds|] == img.olds;
  }

  /** The new buckets while the last loop runs: those before b are complete, b holds its first n entries. */
  ghost predicate Filled(img: Image, untried: seq<set<int>>, b: nat, n: nat) {
    && |untried| == NEW_BUCKETS == |img.indexes| && b <= NEW_BUCKETS && (b < NEW_BUCKETS ==> n <= |img.indexes[b]|)
    && (forall c :: 0 <= c < b ==> untried[c] == Members(img.indexes[c]))
    && (b < NEW_BUCKETS ==> untried[b] == Members(img.indexes[b][..n]))
    && (forall c :: b < c < NEW_BUCKETS ==> untried[c] == {})
  }

  /** Every new entry counts the buckets it is in. */
  ghost predicate CountsHomes(img: Image, info: map<int, Info>, untried: seq<set<int>>) {
    forall r :: 0 <= r < |img.news| ==> r in info && info[r].refCount == |Homes(untried, r)|
  }

  /** There is room for the next entry of a bucket. */
  lemma FillRoom(img: Image, h: Hasher, untried: seq<set<int>>, b: nat, n: nat)
    requires WellFormed(img, h) && b < NEW_BUCKETS && n < |img.indexes[b]| && Filled(img, untried, b, n)
    ensures var r := img.indexes[b][n];
            0 <= r < |img.news| && r !in untried[b] && |Homes(untried, r)| < BUCKETS_PER_ADDRESS
  {
    var r := img.indexes[b][n];
    assert r !in img.indexes[b][..n];
    NotHome(untried, b, r);
    HomesHeld(img, untried, b, n);
    assert Homes(untried, r) + {b} <= Holders(img.indexes, r);
    SubsetSize(Homes(untried, r) + {b}, Holders(img.indexes, r));
    assert |Homes(untried, r) + {b}| == |Homes(untried, r)| + 1;
  }

  lemma FillMember(img: Image, untried: seq<set<int>>, b: nat, n: nat)
    requires b < |img.indexes| && n < |img.indexes[b]| && Filled(img, untried, b, n)
    ensures var r := img.indexes[b][n]; Filled(img, untried[b := untried[b] + {r}], b, n + 1)
  {
    assert img.indexes[b][..n + 1] == img.indexes[b][..n] + [img.indexes[b][n]];
  }

  lemma FillStep(img: Image, h: Hasher, info: map<int, Info>, untried: seq<set<int>>, b: nat, n: nat)
    requires WellFormed(img, h) && b < NEW_BUCKETS && n < |img.indexes[b]|
    requires Filled(img, untried, b, n) && CountsHomes(img, info, untried)
    ensures var r := img.indexes[b][n];
            var more := untried[b := untried[b] + {r}];
            && r in info && info[r].refCount < BUCKETS_PER_ADDRESS && Filled(img, more, b, n + 1)
            && CountsHomes(img, info[r := info[r].(refCount := info[r].refCount + 1)], more)
  {
    var r := img.indexes[b][n];
    var more := untried[b := untried[b] + {r}];
    FillRoom(img, h, untried, b, n);
    FillMember(img, untried, b, n);
    NotHome(untried, b, r);
    hide Homes, Holders, Members, WellFormed, Filled;
    forall x ensures Homes(more, x) == if x == r then Homes(untried, x) + {b} else Homes(untried, x) {
      HomesWith(untried, b, r, x);
    }
  }

  lemma HomesHeld(img: Image, untried: seq<set<int>>, b: nat, n: nat)
    requires Filled(img, untried, b, n)
    ensures forall x :: Homes(untried, x) <= Holders(img.indexes, x)
  {
    forall x, c | c in Homes(untried, x) ensures c in Holders(img.indexes, x) {
      if c < b {
        assert x in Members(img.indexes[c]);
      } else if c == b {
        assert x in img.indexes[b][..n];
      }
    }
  }

  lemma FillNext(img: Image, untried: seq<set<int>>, b: nat)
    requires b < NEW_BUCKETS && |img.indexes| == NEW_BUCKETS && Filled(img, untried, b, |img.indexes[b]|)
    ensures Filled(img, untried, b + 1, 0)
  {
    assert img.indexes[b][..|img.indexes[b]|] == img.indexes[b];
  }

  /** The last loop: bucket membership, and with it the reference counts. */
  method LoadBuckets(img: Image, h: Hasher, info0: map<int, Info>, untried0: seq<set<int>>)
    returns (info: map<int, Info>, untried: seq<set<int>>)
    requires Framed(img) && |untried0| == NEW_BUCKETS && forall r :: 0 <= r < |img.news| ==> r in info0
    requires WellFormed(img, h) ==> Filled(img, untried0, 0, 0) && CountsHomes(img, info0, untried0)
    ensures |untried| == NEW_BUCKETS && info0.Keys <= info.Keys
    ensures WellFormed(img, h) ==>
              && OnlyCounts(img, info0, info) && Filled(img, untried, NEW_BUCKETS, 0) && CountsHomes(img, info, untried)
  {
    hide WellFormed, Filled, CountsHomes, Blank;
    info, untried := info0, untried0;
    for b := 0 to |img.indexes|
      invariant |untried| == NEW_BUCKETS && info0.Keys <= info.Keys
      invariant WellFormed(img, h) ==>
                  && OnlyCounts(img, info0, info) && Filled(img, untried, b, 0) && CountsHomes(img, info, untried)
    {
      for n := 0 to |img.indexes[b]|
        invariant |untried| == NEW_BUCKETS && info0.Keys <= info.Keys
        invariant WellFormed(img, h) ==>
                    && OnlyCounts(img, info0, info) && Filled(img, untried, b, n) && CountsHomes(img, info, untried)
      {
        var r := img.indexes[b][n];
        if WellFormed(img, h) {
          FormatNow(img, h);
          assert 0 <= r < |img.news|;
          FillStep(img, h, info, untried, b, n);
        }
        if r !in info {
          info := info[r := Blank()];
        }
        if img.buckets == NEW_BUCKETS && info[r].refCount < BUCKETS_PER_ADDRESS {
          info := info[r := info[r].(refCount := info[r].refCount + 1)];
          untried := untried[b := untried[b] + {r}];
        }
      }
      if WellFormed(img, h) {
        FormatNow(img, h);
        FillNext(img, untried, b);
      }
    }
    if WellFormed(img, h) {
      FormatNow(img, h);
    }
  }

  lemma FormatNow(img: Image, h: Hasher)
    requires WellFormed(img, h)
    ensures img.buckets == NEW_BUCKETS == |img.indexes| && img.newCount == |img.news| && img.triedCount == |img.olds|
    ensures forall b, i :: 0 <= b < |img.indexes| && 0 <= i < |img.indexes[b]| ==> 0 <= img.indexes[b][i] < |img.news|
  {
  }

  /** Nothing but reference counts of new entries differs. */
  ghost predicate OnlyCounts(img: Image, info0: map<int, Info>, info: map<int, Info>) {
    && info.Keys == info0.Keys && (forall r :: 0 <= r < |img.news| ==> r in info)
    && (forall r :: r in info0 ==> info[r] == info0[r].(refCount := info[r].refCount))
    && (forall r :: r in info0 && r >= |img.news| ==> info[r] == info0[r])
  }

  /** The tables a well-formed file describes. */
  ghost predicate Loaded(img: Image, h: Hasher, u: Tables) {
    var all, n := img.news + img.olds, |img.news|;
    && u.idCount == |all| && u.untriedCount == n && u.triedCount == |img.olds|
    && Numbered(u.info, all, n) && NamedBy(u.byAddr, all) && Counting(u.random, |all|)
    && |u.tried| == TRIED_BUCKETS
    && (forall k :: 0 <= k < TRIED_BUCKETS ==> u.tried[k] == TriedList(img.olds, h, k, |img.olds|, n))
    && Filled(img, u.untried, NEW_BUCKETS, 0) && CountsHomes(img, u.info, u.untried)
    && (forall r :: n <= r < |all| ==> u.info[r].refCount == 0)
  }

  /** Reading a file: a well-formed one is restored completely and loses nothing. */
  method Load(img: Image, h: Hasher) returns (u: Tables, lost: nat)
    requires Framed(img)
    ensures WellFormed(img, h) ==> lost == 0 && Loaded(img, h, u)
  {
    hide WellFormed, Filled, CountsHomes, NamedBy;
    var info, byAddr, random, untried := LoadNew(img, h);
    var tried, idCount;
    info, byAddr, random, tried, idCount, lost := LoadTried(img, h, info, byAddr, random);
    if WellFormed(img, h) {
      FillStart(img, h, info, untried);
    }
    ghost var before := info;
    info, untried := LoadBuckets(img, h, info, untried);
    u := Tables(idCount, info, byAddr, random, tried, untried, img.triedCount - lost, img.newCount);
    if WellFormed(img, h) {
      FormatNow(img, h);
      NumberedFrame(before, info, img.news + img.olds, |img.news|);
    }
  }

  lemma FillStart(img: Image, h: Hasher, info: map<int, Info>, untried: seq<set<int>>)
    requires WellFormed(img, h) && |untried| == NEW_BUCKETS && forall b :: 0 <= b < NEW_BUCKETS ==> untried[b] == {}
    requires forall r :: 0 <= r < |img.news| ==> r in info && info[r].refCount == 0
    ensures Filled(img, untried, 0, 0) && CountsHomes(img, info, untried)
  {
    assert img.indexes[0][..0] == [];
    forall r ensures Homes(untried, r) == {} {}
  }

  lemma NumberedFrame(info: map<int, Info>, other: map<int, Info>, all: seq<Info>, news: nat)
    requires Numbered(info, all, news) && other.Keys == info.Keys
    requires forall r :: r in info ==> other[r] == info[r].(refCount := other[r].refCount)
    ensures Numbered(other, all, news)
  {
    forall r ensures r in other <==> 0 <= r < |all| { assert r in other <==> r in info; }
  }

  // Reloading what was saved

  /** The id an entry gets when the saved file is read. */
  function NewId(t: Tables, x: int): int
    requires x in t.info && x >= 0
  {
    if t.info[x].inTried then |NewIds(t.info)| + Rank(TriedIds(t.info), x) else Rank(NewIds(t.info), x)
  }

  /** The id an entry of the saved file had. */
  function OldId(t: Tables, r: int): int
    requires 0 <= t.idCount && 0 <= r < |NewOrder(t)| + |TriedOrder(t)|
  {
    if r < |NewOrder(t)| then NewOrder(t)[r] else TriedOrder(t)[r - |NewOrder(t)|]
  }

  ghost predicate Ranged(t: Tables) {
    0 <= t.idCount && forall id :: id in t.info ==> 0 <= id < t.idCount
  }

  lemma Sizes(t: Tables)
    requires Ranged(t)
    ensures |NewOrder(t)| == |NewIds(t.info)| && |TriedOrder(t)| == |TriedIds(t.info)|
  {
    AscendingSize(NewIds(t.info), t.idCount);
    AscendingSize(TriedIds(t.info), t.idCount);
  }

  lemma OldIdKnown(t: Tables, r: int)
    requires Ranged(t) && 0 <= r < |NewOrder(t)| + |TriedOrder(t)|
    ensures OldId(t, r) in t.info && (t.info[OldId(t, r)].inTried <==> r >= |NewOrder(t)|) && NewId(t, OldId(t, r)) == r
  {
    Sizes(t);
    AscendingMembers(NewIds(t.info), t.idCount);
    AscendingMembers(TriedIds(t.info), t.idCount);
  }

  lemma NewIdKnown(t: Tables, x: int)
    requires Ranged(t) && x in t.info
    ensures 0 <= NewId(t, x) < |NewOrder(t)| + |TriedOrder(t)| && OldId(t, NewId(t, x)) == x
    ensures NewId(t, x) < |NewOrder(t)| <==> !t.info[x].inTried
  {
    Sizes(t);
    AscendingFinds(if t.info[x].inTried then TriedIds(t.info) else NewIds(t.info), t.idCount, x);
  }

  /** What the saved file holds, entry by entry. */
  lemma SavedEntry(t: Tables, r: int)
    requires Ranged(t) && 0 <= r < |NewOrder(t)| + |TriedOrder(t)|
    ensures var img := Saved(t);
            && |img.news| == |NewOrder(t)| && |img.olds| == |TriedOrder(t)| && OldId(t, r) in t.info
            && (img.news + img.olds)[r] == OnDisk(t.info[OldId(t, r)])
  {
    OldIdKnown(t, r);
    OrderKnown(t);
  }

  lemma BucketMember(t: Tables, b: nat, r: int)
    requires Ranged(t) && b < |t.untried| && forall x :: x in t.untried[b] ==> x in NewIds(t.info)
    ensures r in BucketRanks(t, b) <==> 0 <= r < |NewOrder(t)| && NewOrder(t)[r] in t.untried[b]
  {
    var members, ids := Ascending(t.untried[b], t.idCount), NewIds(t.info);
    AscendingMembers(t.untried[b], t.idCount);
    if r in BucketRanks(t, b) {
      var i :| 0 <= i < |members| && Rank(ids, members[i]) == r;
      AscendingFinds(ids, t.idCount, members[i]);
    }
    if 0 <= r < |NewOrder(t)| && NewOrder(t)[r] in t.untried[b] {
      var x := NewOrder(t)[r];
      AscendingMembers(ids, t.idCount);
      AscendingFinds(t.untried[b], t.idCount, x);
      assert BucketRanks(t, b)[Rank(t.untried[b], x)] == r;
    }
  }

  lemma BucketNoTwice(t: Tables, b: nat)
    requires Ranged(t) && b < |t.untried| && forall x :: x in t.untried[b] ==> x in NewIds(t.info)
    ensures NoTwice(BucketRanks(t, b)) && |BucketRanks(t, b)| == |t.untried[b]|
  {
    var s, members, ids := BucketRanks(t, b), Ascending(t.untried[b], t.idCount), NewIds(t.info);
    AscendingMembers(t.untried[b], t.idCount);
    AscendingSize(t.untried[b], t.idCount);
    forall i, j | 0 <= i < j < |s| ensures s[i] != s[j] {
      AscendingFinds(ids, t.idCount, members[i]);
      AscendingFinds(ids, t.idCount, members[j]);
    }
  }

  lemma SameHomes(t: Tables, r: int)
    requires Ranged(t) && forall b, x :: 0 <= b < |t.untried| && x in t.untried[b] ==> x in NewIds(t.info)
    ensures 0 <= r < |NewOrder(t)| ==> Holders(Saved(t).indexes, r) == Homes(t.untried, NewOrder(t)[r])
    ensures !(0 <= r < |NewOrder(t)|) ==> Holders(Saved(t).indexes, r) == {}
  {
    hide BucketRanks, NewOrder, NewIds;
    var indexes := Saved(t).indexes;
    forall b | 0 <= b < |t.untried|
      ensures r in indexes[b] <==> 0 <= r < |NewOrder(t)| && NewOrder(t)[r] in t.untried[b] {
      BucketMember(t, b, r);
    }
  }

  lemma {:induction false} MembersSize(s: seq<int>)
    ensures |Members(s)| <= |s|
  {
    if s != [] {
      MembersSize(s[1..]);
      assert Members(s) == Members(s[1..]) + {s[0]};
    }
  }

  lemma {:induction false} ListFits(olds: seq<Info>, order: seq<int>, h: Hasher, k: nat, m: nat, base: int,
                                    bucket: seq<int>)
    returns (ids: set<int>)
    requires m <= |olds| == |order| && NoTwice(order)
    requires forall j :: 0 <= j < |order| && TriedBucket(h, olds[j]) == k ==> order[j] in bucket
    ensures |ids| == |TriedList(olds, h, k, m, base)| && ids <= Members(bucket) && ids <= Members(order[..m])
    decreases m
  {
    hide TriedBucket;
    ids := {};
    if m > 0 {
      ids := ListFits(olds, order, h, k, m - 1, base, bucket);
      var x := order[m - 1];
      assert order[..m] == order[..m - 1] + [x];
      assert x !in order[..m - 1];
      if TriedBucket(h, olds[m - 1]) == k {
        ids := ids + {x};
      }
    }
  }

  /** A tried bucket read back is no larger than the one saved. */
  lemma TriedFits(t: Tables, h: Hasher, k: nat)
    requires Ranged(t) && TriedOk(t, h) && k < TRIED_BUCKETS && OrderOk(t)
    ensures |TriedList(Saved(t).olds, h, k, |Saved(t).olds|, |Saved(t).news|)| <= TRIED_SIZE
  {
    var order, olds := TriedOrder(t), Saved(t).olds;
    AscendingMembers(TriedIds(t.info), t.idCount);
    forall j | 0 <= j < |order| && TriedBucket(h, olds[j]) == k ensures order[j] in t.tried[k] {
      assert TriedBucket(h, t.info[order[j]]) == k;
    }
    assert NoTwice(order) by {
      forall i, j | 0 <= i < j < |order| ensures order[i] != order[j] {
        assert Rank(TriedIds(t.info), order[i]) == i && Rank(TriedIds(t.info), order[j]) == j;
      }
    }
    hide TriedBucket, TriedOrder, Saved;
    var ids := ListFits(olds, order, h, k, |olds|, |Saved(t).news|, t.tried[k]);
    SubsetSize(ids, Members(t.tried[k]));
    MembersSize(t.tried[k]);
  }

  lemma SavedDistinct(t: Tables)
    requires Ranged(t) && Named(t.info, t.byAddr)
    ensures DistinctIps(Saved(t).news + Saved(t).olds)
  {
    var all := Saved(t).news + Saved(t).olds;
    hide Saved, OldId, NewId, NewOrder, TriedOrder;
    SavedSize(t);
    forall r, q | 0 <= r < q < |all| ensures EntryIp(all[r]) != EntryIp(all[q]) {
      SavedEntry(t, r);
      SavedEntry(t, q);
      OldIdKnown(t, r);
      OldIdKnown(t, q);
      var x, y := OldId(t, r), OldId(t, q);
      assert Named1(t.info, t.byAddr, x) && Named1(t.info, t.byAddr, y);
    }
  }

  lemma SavedSize(t: Tables)
    requires Ranged(t)
    ensures |Saved(t).news| == |NewOrder(t)| && |Saved(t).olds| == |TriedOrder(t)| && |Saved(t).indexes| == |t.untried|
  {
    OrderKnown(t);
  }

  lemma ConsistentParts(t: Tables, h: Hasher)
    requires Consistent(t, h, NONE)
    ensures Ranged(t) && OrderOk(t) && |t.untried| == NEW_BUCKETS
    ensures forall b, x :: 0 <= b < |t.untried| && x in t.untried[b] ==> x in NewIds(t.info)
    ensures t.untriedCount == |NewOrder(t)| && t.triedCount == |TriedOrder(t)|
  {
    BucketsNew(t);
    OrderKnown(t);
    Sizes(t);
  }

  /** The file of a consistent manager is well formed. */
  lemma SavedWellFormed(t: Tables, h: Hasher)
    requires Consistent(t, h, NONE)
    ensures WellFormed(Saved(t), h)
  {
    ConsistentParts(t, h);
    SavedDistinct(t);
    SavedShape(t, h);
    SavedSize(t);
    var img := Saved(t);
    forall k | 0 <= k < TRIED_BUCKETS ensures |TriedList(img.olds, h, k, |img.olds|, |img.news|)| <= TRIED_SIZE {
      TriedFits(t, h, k);
    }
    forall b | 0 <= b < |img.indexes| ensures NoTwice(img.indexes[b]) {
      BucketNoTwice(t, b);
    }
    forall r | 0 <= r < |img.news| ensures |Holders(img.indexes, r)| <= BUCKETS_PER_ADDRESS {
      SameHomes(t, r);
      var x := NewOrder(t)[r];
      assert RefOk(t.info[x], |Homes(t.untried, x)|, x == NONE);
    }
  }

  lemma SavedShape(t: Tables, h: Hasher)
    requires Consistent(t, h, NONE)
    ensures Shape(Saved(t)) && Saved(t).buckets == NEW_BUCKETS
  {
    ConsistentParts(t, h);
    SavedSize(t);
    var img := Saved(t);
    forall b, i | 0 <= b < |img.indexes| && 0 <= i < |img.indexes[b]| ensures 0 <= img.indexes[b][i] < |img.news| {
      BucketMember(t, b, img.indexes[b][i]);
    }
    forall i | 0 <= i < |img.news| ensures img.news[i] == OnDisk(img.news[i]) { SavedEntry(t, i); }
    forall i | 0 <= i < |img.olds| ensures img.olds[i] == OnDisk(img.olds[i]) { SavedEntry(t, |img.news| + i); }
  }

  function Between(a: int, b: int): (s: set<int>)
    ensures forall r :: r in s <==> a <= r < b
    ensures |s| == if a <= b then b - a else 0
    decreases b - a
  {
    if a >= b then {} else Between(a, b - 1) + {b - 1}
  }

  /** The id is that of one of the first m entries, and its bucket is k. */
  predicate Belongs(olds: seq<Info>, h: Hasher, k: nat, m: nat, base: int, x: int)
    requires m <= |olds|
  {
    base <= x < base + m && TriedBucket(h, olds[x - base]) == k
  }

  /** The list names the entries of bucket k among the first m, each once. */
  ghost predicate NamesBucket(olds: seq<Info>, h: Hasher, k: nat, m: nat, base: int, s: seq<int>)
    requires m <= |olds|
  {
    NoTwice(s) && forall x :: x in s <==> Belongs(olds, h, k, m, base, x)
  }

  lemma BelongsNext(olds: seq<Info>, h: Hasher, k: nat, m: nat, base: int, x: int)
    requires m < |olds|
    ensures Belongs(olds, h, k, m + 1, base, x) <==>
            Belongs(olds, h, k, m, base, x) || (x == base + m && TriedBucket(h, olds[m]) == k)
    ensures !Belongs(olds, h, k, m, base, base + m)
  {
    hide TriedBucket;
  }

  lemma NoTwiceSnoc(s: seq<int>, x: int)
    requires NoTwice(s) && x !in s
    ensures NoTwice(s + [x]) && forall y :: y in s + [x] <==> y in s || y == x
  {
  }

  lemma NamesNext(olds: seq<Info>, h: Hasher, k: nat, m: nat, base: int, s: seq<int>)
    requires m < |olds| && NamesBucket(olds, h, k, m, base, s)
    ensures NamesBucket(olds, h, k, m + 1, base, if TriedBucket(h, olds[m]) == k then s + [base + m] else s)
  {
    hide TriedBucket, Belongs, NoTwice;
    var r := if TriedBucket(h, olds[m]) == k then s + [base + m] else s;
    BelongsNext(olds, h, k, m, base, base + m);
    if TriedBucket(h, olds[m]) == k {
      NoTwiceSnoc(s, base + m);
    }
    forall x ensures x in r <==> Belongs(olds, h, k, m + 1, base, x) {
      BelongsNext(olds, h, k, m, base, x);
    }
  }

  lemma {:induction false} ListMembers(olds: seq<Info>, h: Hasher, k: nat, m: nat, base: int)
    requires m <= |olds|
    ensures NamesBucket(olds, h, k, m, base, TriedList(olds, h, k, m, base))
    decreases m
  {
    hide TriedBucket, NamesBucket;
    if m == 0 {
      NamesNone(olds, h, k, base);
    } else {
      var s := TriedList(olds, h, k, m - 1, base);
      ListMembers(olds, h, k, m - 1, base);
      NamesNext(olds, h, k, m - 1, base, s);
      assert s + [] == s;
    }
  }

  lemma NamesNone(olds: seq<Info>, h: Hasher, k: nat, base: int)
    ensures NamesBucket(olds, h, k, 0, base, [])
  {
  }

  lemma LoadedIndexed(img: Image, h: Hasher, u: Tables)
    requires Loaded(img, h, u)
    ensures Indexed(u)
  {
    var all := img.news + img.olds;
    hide Filled, CountsHomes, TriedList;
    forall r | r in u.info ensures Named1(u.info, u.byAddr, r) {
      assert EntryIp(all[r]) in u.byAddr && u.byAddr[EntryIp(all[r])] == r;
    }
  }

  lemma NumberedIds(info: map<int, Info>, all: seq<Info>, n: nat)
    requires Numbered(info, all, n) && n <= |all|
    ensures NewIds(info) == Between(0, n) && TriedIds(info) == Between(n, |all|)
  {
    forall r | r in info ensures info[r].inTried <==> r >= n {
      assert 0 <= r < |all|;
    }
  }

  lemma LoadedCounted(img: Image, h: Hasher, u: Tables)
    requires Loaded(img, h, u)
    ensures Counted(u)
  {
    hide Filled, CountsHomes, TriedList, NamedBy, Numbered, NewIds, TriedIds;
    NumberedIds(u.info, img.news + img.olds, |img.news|);
  }

  lemma SameTriedBucket(h: Hasher, i: Info, j: Info)
    requires i.addr == j.addr
    ensures TriedBucket(h, i) == TriedBucket(h, j)
  {
  }

  lemma LoadedOld(img: Image, h: Hasher, u: Tables, r: int)
    requires Loaded(img, h, u) && |img.news| <= r < |img.news| + |img.olds|
    ensures r in u.info && u.info[r].inTried && TriedBucket(h, u.info[r]) == TriedBucket(h, img.olds[r - |img.news|])
  {
    hide Filled, CountsHomes, TriedList, NamedBy, TriedBucket;
    assert (img.news + img.olds)[r] == img.olds[r - |img.news|];
    SameTriedBucket(h, u.info[r], img.olds[r - |img.news|]);
  }

  lemma LoadedOldBucket(img: Image, h: Hasher, u: Tables, k: nat)
    requires Loaded(img, h, u) && k < TRIED_BUCKETS
    ensures NoTwice(u.tried[k]) && forall i :: 0 <= i < |u.tried[k]| ==> PlacedTried(u, h, u.tried[k][i], k)
  {
    ListMembers(img.olds, h, k, |img.olds|, |img.news|);
    hide Filled, CountsHomes, TriedList, NamedBy, Numbered, TriedBucket;
    forall i | 0 <= i < |u.tried[k]| ensures PlacedTried(u, h, u.tried[k][i], k) {
      assert Belongs(img.olds, h, k, |img.olds|, |img.news|, u.tried[k][i]);
      LoadedOld(img, h, u, u.tried[k][i]);
    }
  }

  lemma LoadedTried(img: Image, h: Hasher, u: Tables)
    requires Loaded(img, h, u) && WellFormed(img, h)
    ensures TriedOk(u, h)
  {
    var n, m := |img.news|, |img.olds|;
    hide Filled, CountsHomes, TriedList, NamedBy, TriedBucket;
    forall k | 0 <= k < TRIED_BUCKETS
      ensures NoTwice(u.tried[k]) && forall i :: 0 <= i < |u.tried[k]| ==> PlacedTried(u, h, u.tried[k][i], k)
    {
      LoadedOldBucket(img, h, u, k);
    }
    forall r | r in u.info && u.info[r].inTried ensures r in u.tried[TriedBucket(h, u.info[r])] {
      var k := TriedBucket(h, u.info[r]);
      LoadedOld(img, h, u, r);
      ListMembers(img.olds, h, k, m, n);
      assert Belongs(img.olds, h, k, m, n, r);
    }
  }

  lemma LoadedHomes(img: Image, u: Tables, r: int)
    requires Filled(img, u.untried, NEW_BUCKETS, 0)
    ensures Homes(u.untried, r) == Holders(img.indexes, r)
  {
    forall b | 0 <= b < NEW_BUCKETS ensures r in u.untried[b] <==> r in img.indexes[b] {
      assert u.untried[b] == Members(img.indexes[b]);
    }
  }

  lemma LoadedNew(t: Tables, h: Hasher, u: Tables)
    requires Consistent(t, h, NONE) && Loaded(Saved(t), h, u)
    ensures NewOk(u, NONE)
    ensures forall x :: x in t.info ==> NewId(t, x) in u.info && Homes(u.untried, NewId(t, x)) == Homes(t.untried, x)
                                        && u.info[NewId(t, x)].refCount == t.info[x].refCount
  {
    ConsistentParts(t, h);
    SavedSize(t);
    var img := Saved(t);
    forall x | x in t.info ensures NewId(t, x) in u.info && Homes(u.untried, NewId(t, x)) == Homes(t.untried, x)
                                   && u.info[NewId(t, x)].refCount == t.info[x].refCount {
      LoadedNewEntry(t, h, u, x);
    }
    forall r | r in u.info ensures RefOk(u.info[r], |Homes(u.untried, r)|, r == NONE) {
      OldIdKnown(t, r);
      var x := OldId(t, r);
      assert RefOk(t.info[x], |Homes(t.untried, x)|, x == NONE);
    }
    forall b | 0 <= b < |u.untried| ensures |u.untried[b]| <= NEW_SIZE && u.untried[b] <= u.info.Keys {
      LoadedBucket(t, h, u, b);
    }
  }

  lemma LoadedNewEntry(t: Tables, h: Hasher, u: Tables, x: int)
    requires Consistent(t, h, NONE) && Loaded(Saved(t), h, u) && x in t.info && x >= 0
    ensures NewId(t, x) in u.info && Homes(u.untried, NewId(t, x)) == Homes(t.untried, x)
    ensures u.info[NewId(t, x)].refCount == t.info[x].refCount
  {
    var img, r := Saved(t), NewId(t, x);
    ConsistentParts(t, h);
    SavedSize(t);
    NewIdKnown(t, x);
    SameHomes(t, r);
    LoadedHomes(img, u, r);
    assert RefOk(t.info[x], |Homes(t.untried, x)|, x == NONE);
    hide Homes, Holders, Saved, NewId, Filled;
    if t.info[x].inTried {
      assert |Homes(t.untried, x)| == 0;
    }
  }

  lemma LoadedBucket(t: Tables, h: Hasher, u: Tables, b: nat)
    requires Consistent(t, h, NONE) && Loaded(Saved(t), h, u) && b < NEW_BUCKETS
    ensures |u.untried[b]| <= NEW_SIZE && u.untried[b] <= u.info.Keys
  {
    ConsistentParts(t, h);
    SavedSize(t);
    BucketNoTwice(t, b);
    MembersSize(BucketRanks(t, b));
    var img := Saved(t);
    assert u.untried[b] == Members(img.indexes[b]) && img.indexes[b] == BucketRanks(t, b);
    assert |t.untried[b]| <= NEW_SIZE;
    forall r | r in u.untried[b] ensures r in u.info {
      BucketMember(t, b, r);
    }
  }

  /** A reloaded manager is consistent. */
  lemma ReloadConsistent(t: Tables, h: Hasher, u: Tables)
    requires Consistent(t, h, NONE) && Loaded(Saved(t), h, u)
    ensures Consistent(u, h, NONE)
  {
    assert 0 <= t.idCount;
    hide Loaded, Indexed, TriedOk, NewOk, Counted, Saved;
    SavedWellFormed(t, h);
    LoadedIndexed(Saved(t), h, u);
    LoadedTried(Saved(t), h, u);
    LoadedCounted(Saved(t), h, u);
    LoadedNew(t, h, u);
  }

  /** An entry and its counterpart after a reload: the memory-only time is gone, the place in vRandom new. */
  ghost predicate Counterpart(t: Tables, u: Tables, x: int, r: int)
    requires x in t.info
  {
    && r in u.info && u.info[r] == t.info[x].(lastTry := 0, pos := u.info[r].pos)
    && Homes(u.untried, r) == Homes(t.untried, x)
    && |u.tried| == |t.tried| && forall k :: 0 <= k < |t.tried| ==> (r in u.tried[k] <==> x in t.tried[k])
  }

  ghost predicate AllCounterparts(t: Tables, u: Tables) {
    forall x :: x in t.info ==> x >= 0 && Counterpart(t, u, x, NewId(t, x))
  }

  /** No two entries get the same new id. */
  ghost predicate OneToOne(t: Tables) {
    forall x, y :: x in t.info && y in t.info && x >= 0 && y >= 0 && NewId(t, x) == NewId(t, y) ==> x == y
  }

  /** The same addresses are known, under the new ids. */
  ghost predicate NamesMoved(t: Tables, u: Tables) {
    && u.byAddr.Keys == t.byAddr.Keys
    && forall a :: a in t.byAddr ==> t.byAddr[a] in t.info && t.byAddr[a] >= 0 && u.byAddr[a] == NewId(t, t.byAddr[a])
  }

  /** Two managers that differ only in the numbering of entries and the order of buckets. */
  ghost predicate Isomorphic(t: Tables, u: Tables) {
    && AllCounterparts(t, u) && OneToOne(t) && NamesMoved(t, u)
    && |u.info| == |t.info| && u.triedCount == t.triedCount && u.untriedCount == t.untriedCount
  }

  lemma ReloadEntry(t: Tables, h: Hasher, u: Tables, x: int)
    requires Consistent(t, h, NONE) && Loaded(Saved(t), h, u) && x in t.info && x >= 0
    ensures NewId(t, x) in u.info && u.info[NewId(t, x)] == t.info[x].(lastTry := 0, pos := u.info[NewId(t, x)].pos)
    ensures t.info[x].addr.service.ip in u.byAddr && u.byAddr[t.info[x].addr.service.ip] == NewId(t, x)
  {
    ConsistentParts(t, h);
    SavedSize(t);
    NewIdKnown(t, x);
    SavedEntry(t, NewId(t, x));
    LoadedNewEntry(t, h, u, x);
    hide Saved, NewId, OldId, NewOrder, TriedOrder, Filled, CountsHomes, TriedList;
    var img, r := Saved(t), NewId(t, x);
    assert u.info[r] == (img.news + img.olds)[r].(pos := r, inTried := r >= |img.news|, refCount := u.info[r].refCount);
  }

  lemma ReloadTriedEntry(t: Tables, u: Tables, h: Hasher, x: int, r: int, k: nat)
    requires TriedOk(t, h) && TriedOk(u, h) && x in t.info && r in u.info && k < TRIED_BUCKETS
    requires SameId(t.info[x], u.info[r])
    ensures r in u.tried[k] <==> x in t.tried[k]
  {
    if r in u.tried[k] {
      var i :| 0 <= i < |u.tried[k]| && u.tried[k][i] == r;
      assert PlacedTried(u, h, u.tried[k][i], k);
    }
    if x in t.tried[k] {
      var i :| 0 <= i < |t.tried[k]| && t.tried[k][i] == x;
      assert PlacedTried(t, h, t.tried[k][i], k);
    }
  }

  lemma ReloadCounterpart(t: Tables, h: Hasher, u: Tables, x: int)
    requires Consistent(t, h, NONE) && Loaded(Saved(t), h, u) && x in t.info && x >= 0
    requires Consistent(u, h, NONE)
    ensures Counterpart(t, u, x, NewId(t, x))
  {
    ReloadEntry(t, h, u, x);
    LoadedNewEntry(t, h, u, x);
    hide Loaded, Saved, Indexed, NewOk, Counted, NewId;
    forall k | 0 <= k < |t.tried| ensures NewId(t, x) in u.tried[k] <==> x in t.tried[k] {
      ReloadTriedEntry(t, u, h, x, NewId(t, x), k);
    }
  }

  lemma ReloadCounterparts(t: Tables, h: Hasher, u: Tables)
    requires Consistent(t, h, NONE) && Consistent(u, h, NONE) && Loaded(Saved(t), h, u)
    ensures AllCounterparts(t, u)
  {
    ConsistentParts(t, h);
    hide Counterpart, Consistent, Loaded, Saved, NewId;
    forall x | x in t.info ensures x >= 0 && Counterpart(t, u, x, NewId(t, x)) {
      ReloadCounterpart(t, h, u, x);
    }
  }

  lemma ReloadOneToOne(t: Tables, h: Hasher)
    requires Consistent(t, h, NONE)
    ensures OneToOne(t)
  {
    ConsistentParts(t, h);
    hide Consistent, NewId, OldId, NewOrder, TriedOrder;
    forall x, y | x in t.info && y in t.info && x >= 0 && y >= 0 && NewId(t, x) == NewId(t, y) ensures x == y {
      NewIdKnown(t, x);
      NewIdKnown(t, y);
    }
  }

  /**
   Saving and reloading with the same key keeps every entry: same addresses, same new buckets and
   reference counts, same tried buckets, and nothing is lost. Only ids change.
   */
  lemma ReloadIsomorphic(t: Tables, h: Hasher, u: Tables)
    requires Consistent(t, h, NONE) && Loaded(Saved(t), h, u)
    ensures Isomorphic(t, u)
  {
    hide AllCounterparts, OneToOne, NamesMoved, Consistent, Loaded, Saved;
    ReloadConsistent(t, h, u);
    ReloadCounterparts(t, h, u);
    ReloadOneToOne(t, h);
    ReloadNames(t, h, u);
    ReloadCounts(t, h, u);
  }

  lemma ReloadName(t: Tables, h: Hasher, u: Tables, a: NetAddr)
    requires Consistent(t, h, NONE) && Loaded(Saved(t), h, u)
    ensures a in u.byAddr ==> a in t.byAddr
    ensures a in t.byAddr ==>
              a in u.byAddr && t.byAddr[a] in t.info && t.byAddr[a] >= 0 && u.byAddr[a] == NewId(t, t.byAddr[a])
  {
    ConsistentParts(t, h);
    SavedSize(t);
    if a in t.byAddr {
      ReloadEntry(t, h, u, t.byAddr[a]);
    }
    if a in u.byAddr {
      var r := u.byAddr[a];
      SavedEntry(t, r);
      assert Named1(t.info, t.byAddr, OldId(t, r));
    }
  }

  lemma ReloadNames(t: Tables, h: Hasher, u: Tables)
    requires Consistent(t, h, NONE) && Loaded(Saved(t), h, u)
    ensures NamesMoved(t, u)
  {
    hide Consistent, Loaded, Saved, NewId;
    forall a ensures (a in u.byAddr ==> a in t.byAddr) && (a in t.byAddr ==>
                       a in u.byAddr && t.byAddr[a] in t.info && t.byAddr[a] >= 0
                       && u.byAddr[a] == NewId(t, t.byAddr[a])) {
      ReloadName(t, h, u, a);
    }
  }

  lemma ReloadCounts(t: Tables, h: Hasher, u: Tables)
    requires Consistent(t, h, NONE) && Loaded(Saved(t), h, u)
    ensures u.triedCount == t.triedCount && u.untriedCount == t.untriedCount && |u.info| == |t.info|
  {
    ConsistentParts(t, h);
    SavedSize(t);
    ReloadConsistent(t, h, u);
    hide Indexed, NewOk, TriedOk, Loaded;
    KeysSplit(t.info);
    KeysSplit(u.info);
    assert u.triedCount == |Saved(t).olds| && u.untriedCount == |Saved(t).news| by { LoadedCounts(Saved(t), h, u); }
  }

  lemma LoadedCounts(img: Image, h: Hasher, u: Tables)
    requires Loaded(img, h, u)
    ensures u.triedCount == |img.olds| && u.untriedCount == |img.news|
  {
  }

  /** A save followed by a load. */
  method Reload(t: Tables, h: Hasher) returns (u: Tables, lost: nat)
    requires Consistent(t, h, NONE)
    ensures lost == 0 && Consistent(u, h, NONE) && Isomorphic(t, u)
  {
    hide Loaded, WellFormed, Isomorphic, Saved;
    SavedWellFormed(t, h);
    SavedShape(t, h);
    var img := Save(t);
    u, lost := Load(img, h);
    ReloadConsistent(t, h, u);
    ReloadIsomorphic(t, h, u);
  }
}
