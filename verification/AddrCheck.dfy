/** Check_, the manager's own consistency check: what it finds, and what it leaves unsaid. */
module AddrCheck {
  import opened Bytes
  import opened AddrTables

  /** The tests made on each entry. An address missing from mapAddr reads as id 0. */
  predicate EntryChecks(t: Tables, id: int)
    requires id in t.info
  {
    var i := t.info[id];
    && (if i.inTried then i.lastSuccess != 0 && i.refCount == 0 else 1 <= i.refCount <= BUCKETS_PER_ADDRESS)
    && (if Ip(t, id) in t.byAddr then t.byAddr[Ip(t, id)] == id else id == 0)
    && 0 <= i.pos < |t.random| && t.random[i.pos] == id
    && i.lastTry >= 0 && i.lastSuccess >= 0
  }

  /** The error number for an entry, zero when there is nothing to complain about. */
  function EntryCode(t: Tables, id: int): int
    requires id in t.info
  {
    var i := t.info[id];
    if i.inTried && i.lastSuccess == 0 then -1
    else if i.inTried && i.refCount != 0 then -2
    else if !i.inTried && (i.refCount < 0 || i.refCount > BUCKETS_PER_ADDRESS) then -3
    else if !i.inTried && i.refCount == 0 then -4
    else if (if Ip(t, id) in t.byAddr then t.byAddr[Ip(t, id)] else 0) != id then -5
    else if i.pos < 0 || i.pos >= |t.random| || t.random[i.pos] != id then -14
    else if i.lastTry < 0 then -6
    else if i.lastSuccess < 0 then -8
    else 0
  }

  lemma CodeIffChecks(t: Tables, id: int)
    requires id in t.info
    ensures EntryCode(t, id) == 0 <==> EntryChecks(t, id)
  {
  }

  /** The lists name only these ids, and none of them twice. */
  ghost predicate NamesSome(lists: seq<seq<int>>, ids: set<int>) {
    && (forall b, i :: 0 <= b < |lists| && 0 <= i < |lists[b]| ==> lists[b][i] in ids)
    && (forall b, i, c, j ::
          (0 <= b < |lists| && 0 <= i < |lists[b]| && 0 <= c < |lists| && 0 <= j < |lists[c]| &&
           lists[b][i] == lists[c][j]) ==> (b == c && i == j))
  }

  ghost predicate NamesAll(lists: seq<seq<int>>, ids: set<int>) {
    forall id :: id in ids ==> exists b :: 0 <= b < |lists| && id in lists[b]
  }

  /** The lists together name each of the ids once. */
  ghost predicate NamesOnce(lists: seq<seq<int>>, ids: set<int>) {
    NamesSome(lists, ids) && NamesAll(lists, ids)
  }

  /** The buckets hold only these ids, none more often than counted. */
  ghost predicate HoldsSome(untried: seq<set<int>>, counts: map<int, int>) {
    && (forall b :: 0 <= b < |untried| ==> untried[b] <= counts.Keys)
    && (forall id :: id in counts ==> |Homes(untried, id)| <= counts[id])
  }

  /** The buckets hold only these ids, each as often as counted. */
  ghost predicate HoldsCounted(untried: seq<set<int>>, counts: map<int, int>) {
    HoldsSome(untried, counts) && forall id :: id in counts ==> |Homes(untried, id)| == counts[id]
  }

  function NewCounts(info: map<int, Info>): map<int, int> {
    map id | id in info && !info[id].inTried :: info[id].refCount
  }

  /** What a clean result of Check_ means. */
  ghost predicate Checks(t: Tables) {
    && |t.random| == t.triedCount + t.untriedCount
    && (forall id :: id in t.info ==> EntryChecks(t, id))
    && |TriedIds(t.info)| == t.triedCount && |NewIds(t.info)| == t.untriedCount
    && NamesOnce(t.tried, TriedIds(t.info))
    && HoldsCounted(t.untried, NewCounts(t.info))
  }

  /** What lies before position (b, i), list by list. */
  ghost predicate Before(lists: seq<seq<int>>, b: int, i: int, c: int, j: int) {
    0 <= c < |lists| && 0 <= j < |lists[c]| && (c < b || (c == b && j < i))
  }

  /** The state of the walk over the tried buckets: left is what has not been named yet. */
  ghost predicate Walked(lists: seq<seq<int>>, ids: set<int>, left: set<int>, b: int, i: int) {
    && left <= ids
    && (forall x :: x in ids && x !in left ==> exists c, j :: Before(lists, b, i, c, j) && lists[c][j] == x)
    && (forall c, j :: Before(lists, b, i, c, j) ==> lists[c][j] in ids && lists[c][j] !in left)
    && (forall c, j, d, k :: Before(lists, b, i, c, j) && Before(lists, b, i, d, k) && lists[c][j] == lists[d][k] ==>
        c == d && j == k)
  }

  lemma WalkStep(lists: seq<seq<int>>, ids: set<int>, left: set<int>, b: nat, i: nat)
    requires Walked(lists, ids, left, b, i) && b < |lists| && i < |lists[b]|
    ensures lists[b][i] in left ==> Walked(lists, ids, left - {lists[b][i]}, b, i + 1)
    ensures lists[b][i] !in left ==> !NamesSome(lists, ids)
  {
    var x := lists[b][i];
    if x !in left {
      if x in ids {
        var c, j :| Before(lists, b, i, c, j) && lists[c][j] == x;
        assert lists[c][j] == lists[b][i] && (c != b || j != i);
      }
    } else {
      forall c, j | Before(lists, b, i + 1, c, j)
        ensures lists[c][j] in ids && lists[c][j] !in left - {x} && (Before(lists, b, i, c, j) || (c == b && j == i)) {}
      forall y | y in ids && y !in left - {x} ensures exists c, j :: Before(lists, b, i + 1, c, j) && lists[c][j] == y {
        if y == x {
          assert Before(lists, b, i + 1, b, i);
        } else {
          var c, j :| Before(lists, b, i, c, j) && lists[c][j] == y;
          assert Before(lists, b, i + 1, c, j);
        }
      }
    }
  }

  lemma WalkNext(lists: seq<seq<int>>, ids: set<int>, left: set<int>, b: nat)
    requires b < |lists| && Walked(lists, ids, left, b, |lists[b]|)
    ensures Walked(lists, ids, left, b + 1, 0)
  {
    forall c, j ensures Before(lists, b, |lists[b]|, c, j) <==> Before(lists, b + 1, 0, c, j) {}
  }

  lemma WalkEnd(lists: seq<seq<int>>, ids: set<int>, left: set<int>)
    requires Walked(lists, ids, left, |lists|, 0)
    ensures NamesSome(lists, ids) && (left == {} <==> NamesAll(lists, ids))
  {
    forall c, j | 0 <= c < |lists| && 0 <= j < |lists[c]| ensures Before(lists, |lists|, 0, c, j) {}
    if left == {} {
      forall x | x in ids ensures exists b :: 0 <= b < |lists| && x in lists[b] {
        var c, j :| Before(lists, |lists|, 0, c, j) && lists[c][j] == x;
        assert x in lists[c];
      }
    } else {
      var x := Pick(left);
      forall b, j | 0 <= b < |lists| && 0 <= j < |lists[b]| ensures lists[b][j] != x {
        assert Before(lists, |lists|, 0, b, j);
      }
    }
  }

  /** The loop over the tried buckets, and what it has left unnamed. */
  method CheckTried(tried: seq<seq<int>>, ids: set<int>) returns (ok: bool, left: set<int>)
    ensures ok <==> NamesSome(tried, ids)
    ensures ok ==> (left == {} <==> NamesAll(tried, ids))
  {
    hide NamesSome, NamesAll, Walked;
    left := ids;
    WalkStart(tried, ids);
    for b := 0 to |tried|
      invariant Walked(tried, ids, left, b, 0)
    {
      for i := 0 to |tried[b]|
        invariant Walked(tried, ids, left, b, i)
      {
        WalkStep(tried, ids, left, b, i);
        if tried[b][i] !in left {
          return false, left;
        }
        left := left - {tried[b][i]};
      }
      WalkNext(tried, ids, left, b);
    }
    WalkEnd(tried, ids, left);
    ok := true;
  }

  lemma WalkStart(lists: seq<seq<int>>, ids: set<int>)
    ensures Walked(lists, ids, ids, 0, 0)
  {
  }

  // The new buckets

  /** seen is the part of the buckets already visited, left what the counts still allow. */
  ghost predicate Counting(untried: seq<set<int>>, counts: map<int, int>, left: map<int, int>, seen: seq<set<int>>) {
    && |seen| <= |untried|
    && (forall c :: 0 <= c < |seen| ==> seen[c] <= untried[c] && seen[c] <= counts.Keys)
    && (forall id :: id in left ==> id in counts)
    && (forall id :: id in counts ==> Remains(left, id, counts[id] - |Homes(seen, id)|))
  }

  predicate Remains(left: map<int, int>, id: int, n: int) {
    if id in left then left[id] == n && n >= 1 else n == 0
  }

  lemma HomesGrow(untried: seq<set<int>>, seen: seq<set<int>>, id: int)
    requires |seen| <= |untried| && forall c :: 0 <= c < |seen| ==> seen[c] <= untried[c]
    ensures Homes(seen, id) <= Homes(untried, id)
  {
    forall c | c in Homes(seen, id) ensures c in Homes(untried, id) { assert seen[c] <= untried[c]; }
  }

  /** One entry of the current bucket taken off its count. */
  lemma CountStep(untried: seq<set<int>>, counts: map<int, int>, left: map<int, int>, seen: seq<set<int>>, b: nat,
                  x: int)
    requires Counting(untried, counts, left, seen) && b == |seen| - 1 && x in untried[b] && x !in seen[b] && x in left
    ensures Counting(untried, counts, if left[x] == 1 then left - {x} else left[x := left[x] - 1],
                     seen[b := seen[b] + {x}])
  {
    hide Homes;
    var left', seen' := if left[x] == 1 then left - {x} else left[x := left[x] - 1], seen[b := seen[b] + {x}];
    NotHome(seen, b, x);
    forall id | id in counts ensures Remains(left', id, counts[id] - |Homes(seen', id)|) {
      assert Remains(left, id, counts[id] - |Homes(seen, id)|);
      HomesWith(seen, b, x, id);
    }
    forall c | 0 <= c < |seen'| ensures seen'[c] <= untried[c] && seen'[c] <= counts.Keys {
      assert seen[c] <= untried[c] && seen[c] <= counts.Keys;
    }
  }

  /** One too many. */
  lemma CountOver(untried: seq<set<int>>, counts: map<int, int>, left: map<int, int>, seen: seq<set<int>>, b: nat,
                  x: int)
    requires Counting(untried, counts, left, seen) && b == |seen| - 1 && x in untried[b] && x !in seen[b] && x !in left
    ensures !HoldsSome(untried, counts)
  {
    if x in counts {
      assert Remains(left, x, counts[x] - |Homes(seen, x)|);
      HomesGrow(untried, seen, x);
      NotHome(seen, b, x);
      AtHome(untried, b, x);
      SubsetSize(Homes(seen, x) + {b}, Homes(untried, x));
      assert |Homes(seen, x) + {b}| == |Homes(seen, x)| + 1;
    }
  }

  lemma CountNext(untried: seq<set<int>>, counts: map<int, int>, left: map<int, int>, seen: seq<set<int>>)
    requires Counting(untried, counts, left, seen) && |seen| < |untried|
    ensures Counting(untried, counts, left, seen + [{}])
  {
    forall id | id in counts ensures Remains(left, id, counts[id] - |Homes(seen + [{}], id)|) {
      assert Remains(left, id, counts[id] - |Homes(seen, id)|);
      assert Homes(seen + [{}], id) == Homes(seen, id);
    }
  }

  lemma CountEnd(untried: seq<set<int>>, counts: map<int, int>, left: map<int, int>)
    requires Counting(untried, counts, left, untried)
    ensures HoldsSome(untried, counts) && (left.Keys == {} <==> HoldsCounted(untried, counts))
  {
    hide Homes;
    forall id | id in counts ensures |Homes(untried, id)| <= counts[id] {
      assert Remains(left, id, counts[id] - |Homes(untried, id)|);
    }
    if left.Keys != {} {
      var id := Pick(left.Keys);
      assert Remains(left, id, counts[id] - |Homes(untried, id)|);
    } else {
      forall id | id in counts ensures |Homes(untried, id)| == counts[id] {
        assert Remains(left, id, counts[id] - |Homes(untried, id)|);
      }
    }
  }

  lemma CountStart(untried: seq<set<int>>, counts: map<int, int>)
    requires forall id :: id in counts ==> counts[id] >= 1
    ensures Counting(untried, counts, counts, [])
  {
    forall id ensures Homes([], id) == {} {}
  }

  /** One new bucket, walked in any order; its entries are taken off the counts. */
  method CountBucket(untried: seq<set<int>>, ghost counts: map<int, int>, left: map<int, int>,
                     ghost seen: seq<set<int>>, b: nat)
    returns (ok: bool, less: map<int, int>)
    requires b == |seen| < |untried| && Counting(untried, counts, left, seen)
    ensures if ok then Counting(untried, counts, less, seen + [untried[b]]) else !HoldsSome(untried, counts)
  {
    hide HoldsSome, Counting, Homes;
    CountNext(untried, counts, left, seen);
    var rest := untried[b];
    less := left;
    ghost var done: set<int> := {};
    while rest != {}
      invariant Counting(untried, counts, less, seen + [done])
      invariant done !! rest && done + rest == untried[b]
      decreases |rest|
    {
      ghost var some := Pick(rest);
      var x :| x in rest;
      if x !in less {
        CountOver(untried, counts, less, seen + [done], b, x);
        return false, less;
      }
      CountStep(untried, counts, less, seen + [done], b, x);
      assert (seen + [done])[b := done + {x}] == seen + [done + {x}];
      less := if less[x] == 1 then less - {x} else less[x := less[x] - 1];
      done := done + {x};
      rest := rest - {x};
    }
    assert done == untried[b];
    ok := true;
  }

  /** The loop over the new buckets, and what the counts have left. */
  method CheckNew(untried: seq<set<int>>, counts: map<int, int>) returns (ok: bool, left: map<int, int>)
    requires forall id :: id in counts ==> counts[id] >= 1
    ensures ok <==> HoldsSome(untried, counts)
    ensures ok ==> (left.Keys == {} <==> HoldsCounted(untried, counts))
  {
    CountStart(untried, counts);
    hide HoldsSome, HoldsCounted, Counting, Homes;
    left := counts;
    for b := 0 to |untried|
      invariant Counting(untried, counts, left, untried[..b])
    {
      ok, left := CountBucket(untried, counts, left, untried[..b], b);
      if !ok { return; }
      assert untried[..b + 1] == untried[..b] + [untried[b]];
    }
    assert untried[..|untried|] == untried;
    CountEnd(untried, counts, left);
    ok := true;
  }

  /** All entries before an id pass, and this one does not. */
  ghost predicate FirstBad(t: Tables, id: int) {
    && id in t.info && EntryCode(t, id) != 0
    && forall x :: x in t.info && x < id ==> EntryCode(t, x) == 0
  }

  /** The error number of Check_: the first complaint in its order. */
  ghost predicate Reports(t: Tables, err: int) {
    if |t.random| != t.triedCount + t.untriedCount then err == -7
    else if exists id :: id in t.info && EntryCode(t, id) != 0 then
      exists id :: FirstBad(t, id) && err == EntryCode(t, id)
    else if |TriedIds(t.info)| != t.triedCount then err == -9
    else if |NewIds(t.info)| != t.untriedCount then err == -10
    else if !NamesSome(t.tried, TriedIds(t.info)) then err == -11
    else if !HoldsSome(t.untried, NewCounts(t.info)) then err == -12
    else if !NamesAll(t.tried, TriedIds(t.info)) then err == -13
    else if !HoldsCounted(t.untried, NewCounts(t.info)) then err == -15
    else err == 0
  }

  lemma ReportsZero(t: Tables, err: int)
    requires Reports(t, err)
    ensures err == 0 <==> Checks(t)
  {
    hide NamesSome, NamesAll, HoldsSome, HoldsCounted, EntryCode, EntryChecks;
    forall id | id in t.info ensures EntryCode(t, id) == 0 <==> EntryChecks(t, id) { CodeIffChecks(t, id); }
    if HoldsCounted(t.untried, NewCounts(t.info)) {
      CountedSome(t.untried, NewCounts(t.info));
    }
  }

  lemma CountedSome(untried: seq<set<int>>, counts: map<int, int>)
    requires HoldsCounted(untried, counts)
    ensures HoldsSome(untried, counts)
  {
  }

  /** The names after looking up every entry from a set of ids: a missing one has been entered with id 0. */
  ghost predicate LookedUp(t: Tables, names: map<NetAddr, int>, rest: set<int>) {
    && (forall a :: a in t.byAddr ==> a in names && names[a] == t.byAddr[a])
    && (forall a :: a in names && a !in t.byAddr ==> names[a] == 0)
    && (forall a :: a in names && a !in t.byAddr ==> exists id :: id in t.info && id !in rest && Ip(t, id) == a)
    && (forall id :: id in t.info && id !in rest ==> Ip(t, id) in names)
  }

  /** One lookup, with what operator[] enters for a missing address. */
  lemma LookStep(t: Tables, names: map<NetAddr, int>, rest: set<int>, id: int)
    requires LookedUp(t, names, rest) && id in rest && rest <= t.info.Keys
    ensures var a := Ip(t, id);
            && (if a in names then names[a] else 0) == (if a in t.byAddr then t.byAddr[a] else 0)
            && LookedUp(t, if a in names then names else names[a := 0], rest - {id})
  {
    var a := Ip(t, id);
    var more := if a in names then names else names[a := 0];
    forall b | b in more && b !in t.byAddr ensures exists x :: x in t.info && x !in rest - {id} && Ip(t, x) == b {
      if b == a {
        assert id !in rest - {id} && Ip(t, id) == b;
      } else {
        var x :| x in t.info && x !in rest && Ip(t, x) == b;
        assert x !in rest - {id};
      }
    }
  }

  /** Every entry outside the rest passes, and comes before those in it. */
  ghost predicate PassedUpTo(t: Tables, rest: set<int>) {
    && rest <= t.info.Keys
    && (forall id :: id in t.info && id !in rest ==> EntryCode(t, id) == 0)
    && (forall x, y :: x in rest && y in t.info && y !in rest ==> y < x)
  }

  lemma PassStep(t: Tables, rest: set<int>, id: int)
    requires PassedUpTo(t, rest) && IsMin(rest, id)
    ensures id in t.info && id in rest
    ensures if EntryCode(t, id) == 0 then PassedUpTo(t, rest - {id}) else FirstBad(t, id)
  {
    hide EntryCode;
    forall x, y | x in rest - {id} && y in t.info && y !in rest - {id} ensures y < x {
      assert id <= x;
    }
    forall x | x in t.info && x < id ensures EntryCode(t, x) == 0 {
      assert x !in rest;
    }
  }

  /** The loop over mapInfo, in the order of the ids. */
  method CheckEntries(t: Tables) returns (err: int, names: map<NetAddr, int>)
    ensures if exists id :: id in t.info && EntryCode(t, id) != 0 then
              exists id :: FirstBad(t, id) && err == EntryCode(t, id)
            else err == 0 && LookedUp(t, names, {})
    ensures exists rest :: rest <= t.info.Keys && LookedUp(t, names, rest)
  {
    hide LookedUp, EntryCode, IsMin;
    names := t.byAddr;
    var rest := t.info.Keys;
    NothingLookedUp(t);
    while rest != {}
      invariant PassedUpTo(t, rest) && LookedUp(t, names, rest)
      decreases |rest|
    {
      ghost var least := MinExists(rest);
      var id :| IsMin(rest, id);
      PassStep(t, rest, id);
      LookStep(t, names, rest, id);
      ghost var before := names;
      err, names := CheckEntry(t, id, names);
      if err != 0 {
        assert LookedUp(t, names, if names == before then rest else rest - {id});
        return;
      }
      rest := rest - {id};
    }
    err := 0;
  }

  lemma NothingLookedUp(t: Tables)
    ensures LookedUp(t, t.byAddr, t.info.Keys)
  {
  }

  /** The tests on one entry, one after another; the lookup enters a missing address. */
  method CheckEntry(t: Tables, id: int, names: map<NetAddr, int>) returns (err: int, more: map<NetAddr, int>)
    requires id in t.info
    requires var a := Ip(t, id); (if a in names then names[a] else 0) == (if a in t.byAddr then t.byAddr[a] else 0)
    ensures err == EntryCode(t, id)
    ensures more == names || (more == names[Ip(t, id) := 0] && Ip(t, id) !in names)
    ensures err == 0 ==> Ip(t, id) in more
  {
    var i := t.info[id];
    more := names;
    if i.inTried {
      if i.lastSuccess == 0 { return -1, more; }
      if i.refCount != 0 { return -2, more; }
    } else {
      if i.refCount < 0 || i.refCount > BUCKETS_PER_ADDRESS { return -3, more; }
      if i.refCount == 0 { return -4, more; }
    }
    if Ip(t, id) !in more {
      more := more[Ip(t, id) := 0];
    }
    if more[Ip(t, id)] != id { return -5, more; }
    if i.pos < 0 || i.pos >= |t.random| || t.random[i.pos] != id { return -14, more; }
    if i.lastTry < 0 { return -6, more; }
    if i.lastSuccess < 0 { return -8, more; }
    return 0, more;
  }

  /**
   Check_: its error number, and the names it leaves behind. A clean check enters the address of entry 0
   if it was missing, and changes nothing else.
   */
  method Check(t: Tables) returns (err: int, names: map<NetAddr, int>)
    ensures Reports(t, err) && (err == 0 <==> Checks(t))
    ensures err == 0 ==> names == if 0 in t.info then t.byAddr[Ip(t, 0) := 0] else t.byAddr
    ensures forall a :: a in t.byAddr ==> a in names && names[a] == t.byAddr[a]
  {
    hide NamesSome, NamesAll, HoldsSome, HoldsCounted, EntryCode, LookedUp, Checks;
    names := t.byAddr;
    if |t.random| != t.triedCount + t.untriedCount {
      ReportsZero(t, -7);
      return -7, names;
    }
    err, names := CheckEntries(t);
    NamesStay(t, names);
    if err == 0 {
      CleanNames(t, names);
      err := CheckTables(t);
    }
    ReportsZero(t, err);
  }

  lemma NamesStay(t: Tables, names: map<NetAddr, int>)
    requires exists rest :: rest <= t.info.Keys && LookedUp(t, names, rest)
    ensures forall a :: a in t.byAddr ==> a in names && names[a] == t.byAddr[a]
  {
  }

  lemma CleanNames(t: Tables, names: map<NetAddr, int>)
    requires LookedUp(t, names, {}) && forall id :: id in t.info ==> EntryCode(t, id) == 0
    ensures names == if 0 in t.info then t.byAddr[Ip(t, 0) := 0] else t.byAddr
  {
    forall a | a in names && a !in t.byAddr ensures 0 in t.info && a == Ip(t, 0) {
      var id :| id in t.info && Ip(t, id) == a;
      assert EntryCode(t, id) == 0;
    }
    if 0 in t.info {
      assert EntryCode(t, 0) == 0 && Ip(t, 0) in names;
    }
  }

  /** The rest of Check_, once the entries have passed. */
  method CheckTables(t: Tables) returns (err: int)
    requires |t.random| == t.triedCount + t.untriedCount && forall id :: id in t.info ==> EntryCode(t, id) == 0
    ensures Reports(t, err)
  {
    forall id | id in NewCounts(t.info) ensures NewCounts(t.info)[id] >= 1 { NewCounted(t, id); }
    hide NamesSome, NamesAll, HoldsSome, HoldsCounted, EntryCode;
    if |TriedIds(t.info)| != t.triedCount { return -9; }
    if |NewIds(t.info)| != t.untriedCount { return -10; }
    var ok, tried := CheckTried(t.tried, TriedIds(t.info));
    if !ok { return -11; }
    var untried;
    ok, untried := CheckNew(t.untried, NewCounts(t.info));
    if !ok { return -12; }
    if tried != {} { return -13; }
    if untried.Keys != {} { return -15; }
    return 0;
  }

  lemma NewCounted(t: Tables, id: int)
    requires id in t.info && !t.info[id].inTried && EntryCode(t, id) == 0
    ensures t.info[id].refCount >= 1
  {
  }

  // What the check says, and what it does not

  /** The part of consistency that Check_ does not look at. */
  ghost predicate Placed(t: Tables, h: Hasher) {
    && 0 <= t.idCount && (forall id :: id in t.info ==> 0 <= id < t.idCount && Ip(t, id) in t.byAddr)
    && (forall a :: a in t.byAddr ==> t.byAddr[a] in t.info && t.info[t.byAddr[a]].addr.service.ip == a)
    && |t.tried| == TRIED_BUCKETS && (forall b :: 0 <= b < |t.tried| ==> |t.tried[b]| <= TRIED_SIZE)
    && (forall b, i :: 0 <= b < |t.tried| && 0 <= i < |t.tried[b]| ==> InBucket(t, h, t.tried[b][i], b))
    && |t.untried| == NEW_BUCKETS && (forall b :: 0 <= b < |t.untried| ==> |t.untried[b]| <= NEW_SIZE)
  }

  predicate InBucket(t: Tables, h: Hasher, id: int, b: int) {
    id in t.info ==> TriedBucket(h, t.info[id]) == b
  }

  function Range(n: nat): (r: set<int>)
    ensures |r| == n && forall i :: i in r <==> 0 <= i < n
  {
    if n == 0 then {} else Range(n - 1) + {n - 1}
  }

  lemma SameSize(a: set<int>, b: set<int>)
    requires a <= b && |a| == |b|
    ensures a == b
  {
    assert b == a + (b - a);
    assert |b| == |a| + |b - a|;
  }

  function Places(info: map<int, Info>): set<int> {
    set id | id in info :: info[id].pos
  }

  ghost predicate Found(info: map<int, Info>, random: seq<int>) {
    forall id :: id in info ==> 0 <= info[id].pos < |random| && random[info[id].pos] == id
  }

  /** Entries that find themselves in vRandom stand at different places. */
  lemma {:induction false} PlacesSize(info: map<int, Info>, random: seq<int>)
    requires Found(info, random)
    ensures |Places(info)| == |info.Keys|
    decreases |info.Keys|
  {
    if info.Keys == {} {
      assert Places(info) == {};
    } else {
      var id := Pick(info.Keys);
      var less := info - {id};
      PlacesSize(less, random);
      assert info.Keys == less.Keys + {id};
      assert Places(info) == Places(less) + {info[id].pos};
    }
  }

  /** Of the two halves of Shuffled one is a matter of size. */
  lemma ShuffledBySize(info: map<int, Info>, random: seq<int>)
    requires Found(info, random)
    ensures Shuffled(info, random) <==> |random| == |info.Keys|
  {
    PlacesSize(info, random);
    assert Places(info) <= Range(|random|);
    if |random| == |info.Keys| {
      SameSize(Places(info), Range(|random|));
      forall p | 0 <= p < |random| ensures random[p] in info && info[random[p]].pos == p {
        assert p in Places(info);
      }
    } else if Shuffled(info, random) {
      forall p | p in Range(|random|) ensures p in Places(info) {
        var id := random[p];
        assert id in info && info[id].pos == p;
      }
      SubsetSize(Range(|random|), Places(info));
      SubsetSize(Places(info), Range(|random|));
    }
  }

  // From consistency to the check

  lemma ConsistentTried(t: Tables, h: Hasher)
    requires TriedOk(t, h)
    ensures NamesOnce(t.tried, TriedIds(t.info))
  {
    forall b, i | 0 <= b < |t.tried| && 0 <= i < |t.tried[b]| ensures t.tried[b][i] in TriedIds(t.info) {
      assert PlacedTried(t, h, t.tried[b][i], b);
    }
    forall b, i, c, j | 0 <= b < |t.tried| && 0 <= i < |t.tried[b]| && 0 <= c < |t.tried| && 0 <= j < |t.tried[c]| &&
                        t.tried[b][i] == t.tried[c][j]
      ensures b == c && i == j
    {
      assert PlacedTried(t, h, t.tried[b][i], b) && PlacedTried(t, h, t.tried[c][j], c);
      assert NoTwice(t.tried[b]);
    }
  }

  lemma ConsistentNew(t: Tables)
    requires NewOk(t, NONE) && NONE !in t.info
    ensures HoldsCounted(t.untried, NewCounts(t.info))
  {
    forall b | 0 <= b < |t.untried| ensures t.untried[b] <= NewCounts(t.info).Keys {
      forall id | id in t.untried[b] ensures id in NewCounts(t.info) {
        assert t.untried[b] <= t.info.Keys;
        AtHome(t.untried, b, id);
        assert RefOk(t.info[id], |Homes(t.untried, id)|, id == NONE);
      }
    }
    forall id | id in NewCounts(t.info) ensures |Homes(t.untried, id)| == NewCounts(t.info)[id] {
      assert RefOk(t.info[id], |Homes(t.untried, id)|, id == NONE);
    }
  }

  lemma ConsistentChecks(t: Tables, h: Hasher)
    requires Consistent(t, h, NONE) && Stamped(t)
    ensures Checks(t) && Placed(t, h)
  {
    assert NONE !in t.info;
    ConsistentTried(t, h);
    ConsistentNew(t);
    KeysSplit(t.info);
    assert Shuffled(t.info, t.random);
    ShuffledBySize(t.info, t.random);
    hide Homes, NewIds, TriedIds, HoldsCounted, NamesOnce, NewCounts, TriedBucket;
    forall id | id in t.info ensures EntryChecks(t, id) {
      assert Named1(t.info, t.byAddr, id) && RefOk(t.info[id], |Homes(t.untried, id)|, id == NONE);
    }
    forall b, i | 0 <= b < |t.tried| && 0 <= i < |t.tried[b]| ensures InBucket(t, h, t.tried[b][i], b) {
      assert PlacedTried(t, h, t.tried[b][i], b);
    }
  }

  // And back

  lemma CheckedTried(t: Tables, h: Hasher)
    requires NamesOnce(t.tried, TriedIds(t.info)) && Placed(t, h)
    ensures TriedOk(t, h)
  {
    forall b, i | 0 <= b < |t.tried| && 0 <= i < |t.tried[b]| ensures PlacedTried(t, h, t.tried[b][i], b) {
      assert t.tried[b][i] in TriedIds(t.info) && InBucket(t, h, t.tried[b][i], b);
    }
    forall id | id in t.info && t.info[id].inTried ensures id in t.tried[TriedBucket(h, t.info[id])] {
      assert id in TriedIds(t.info);
      var b :| 0 <= b < |t.tried| && id in t.tried[b];
      var i :| 0 <= i < |t.tried[b]| && t.tried[b][i] == id;
      assert PlacedTried(t, h, t.tried[b][i], b);
    }
  }

  lemma CheckedNew(t: Tables)
    requires HoldsCounted(t.untried, NewCounts(t.info)) && |t.untried| == NEW_BUCKETS
    requires forall b :: 0 <= b < |t.untried| ==> |t.untried[b]| <= NEW_SIZE
    requires NONE !in t.info && forall id :: id in t.info ==> EntryChecks(t, id)
    ensures NewOk(t, NONE)
  {
    forall b | 0 <= b < |t.untried| ensures t.untried[b] <= t.info.Keys {
      assert t.untried[b] <= NewCounts(t.info).Keys;
    }
    forall id | id in t.info ensures RefOk(t.info[id], |Homes(t.untried, id)|, id == NONE) {
      assert EntryChecks(t, id);
      if t.info[id].inTried {
        assert Homes(t.untried, id) == {} by { Unheld(t, id); }
      } else {
        assert |Homes(t.untried, id)| == NewCounts(t.info)[id];
      }
    }
  }

  lemma Unheld(t: Tables, id: int)
    requires HoldsCounted(t.untried, NewCounts(t.info)) && id in t.info && t.info[id].inTried
    ensures Homes(t.untried, id) == {}
  {
    forall b | 0 <= b < |t.untried| ensures id !in t.untried[b] {
      assert t.untried[b] <= NewCounts(t.info).Keys;
    }
  }

  lemma ChecksConsistent(t: Tables, h: Hasher)
    requires Checks(t) && Placed(t, h)
    ensures Consistent(t, h, NONE) && Stamped(t)
  {
    CheckedTried(t, h);
    CheckedNew(t);
    KeysSplit(t.info);
    hide Homes, NewIds, TriedIds, HoldsCounted, NamesOnce, NewCounts, TriedBucket, NewOk, TriedOk;
    forall id | id in t.info ensures Named1(t.info, t.byAddr, id) { assert EntryChecks(t, id); }
    assert Found(t.info, t.random) by {
      forall id | id in t.info ensures EntryChecks(t, id) {}
    }
    ShuffledBySize(t.info, t.random);
    assert Stamped(t) by {
      forall id | id in t.info ensures EntryChecks(t, id) {}
    }
  }

  /** Consistent tables are those Check_ passes that also have every entry in its place. */
  lemma CheckIffConsistent(t: Tables, h: Hasher)
    ensures Consistent(t, h, NONE) && Stamped(t) <==> Checks(t) && Placed(t, h)
  {
    hide Consistent, Stamped, Checks, Placed;
    if Consistent(t, h, NONE) && Stamped(t) {
      ConsistentChecks(t, h);
    }
    if Checks(t) && Placed(t, h) {
      ChecksConsistent(t, h);
    }
  }

  /** One new entry under id 0, whose address is missing from mapAddr. */
  function Unnamed(a: Address, source: NetAddr): Tables {
    Tables(1, map[0 := Info(a, source, 0, 0, 0, 1, false, 0)], map[], [0], seq(TRIED_BUCKETS, b => []),
           [{0}] + seq(NEW_BUCKETS - 1, b => {}), 0, 1)
  }

  /** Tables that pass Check_ and are not consistent: the missing address reads as id 0. */
  lemma UnnamedPasses(a: Address, source: NetAddr, h: Hasher)
    ensures Checks(Unnamed(a, source)) && !Consistent(Unnamed(a, source), h, NONE)
  {
    var t := Unnamed(a, source);
    assert TriedIds(t.info) == {} && NewIds(t.info) == {0} && NewCounts(t.info) == map[0 := 1];
    assert Homes(t.untried, 0) == {0};
    assert !Named1(t.info, t.byAddr, 0);
  }
}
