/** Coin selection: stochastic subset sum that is sound, complete and avoids small change. */
module CoinSelect {
  import opened Bytes

  const CENT := 1_000_000
  const INT64_MAX := 0x7fff_ffff_ffff_ffff

  datatype Outpoint = Outpoint(hash: Data, n: nat)

  /** A transaction output and its value. */
  datatype Coin = Coin(value: int, point: Outpoint)

  /** COutput: a coin, the depth of its transaction and whether that is from this wallet. */
  datatype Output = Output(coin: Coin, depth: int, fromMe: bool)

  predicate Eligible(o: Output, confMine: int, confTheirs: int) {
    o.depth >= if o.fromMe then confMine else confTheirs
  }

  /** The coins of the first k outputs that are confirmed enough. */
  function Pool(outputs: seq<Output>, k: nat, confMine: int, confTheirs: int): set<Coin>
    requires k <= |outputs|
  {
    set i | 0 <= i < k && Eligible(outputs[i], confMine, confTheirs) :: outputs[i].coin
  }

  /** No output is listed twice. */
  ghost predicate Distinct(outputs: seq<Output>) {
    forall i, j :: 0 <= i < j < |outputs| ==> outputs[i].coin.point != outputs[j].coin.point
  }

  ghost function Sum(s: set<Coin>): int {
    if s == {} then 0
    else
      var x :| x in s;
      x.value + Sum(s - {x})
  }

  lemma {:induction false} SumWithout(s: set<Coin>, y: Coin)
    requires y in s
    ensures Sum(s) == y.value + Sum(s - {y})
  {
    var x :| x in s && Sum(s) == x.value + Sum(s - {x});
    if x != y {
      SumWithout(s - {x}, y);
      SumWithout(s - {y}, x);
      assert s - {x} - {y} == s - {y} - {x};
    }
  }

  lemma SumWith(s: set<Coin>, y: Coin)
    requires y !in s
    ensures Sum(s + {y}) == Sum(s) + y.value
  {
    SumWithout(s + {y}, y);
    assert s + {y} - {y} == s;
  }

  ghost predicate Positive(s: set<Coin>) {
    forall c :: c in s ==> c.value > 0
  }

  lemma {:induction false} SumMonotone(a: set<Coin>, b: set<Coin>)
    requires a <= b && Positive(b)
    ensures Sum(a) <= Sum(b)
  {
    if a == {} {
      SumPositive(b);
    } else {
      var x :| x in a;
      SumWithout(a, x);
      SumWithout(b, x);
      SumMonotone(a - {x}, b - {x});
    }
  }

  lemma {:induction false} SumPositive(s: set<Coin>)
    requires Positive(s)
    ensures Sum(s) >= 0 && forall c :: c in s ==> c.value <= Sum(s)
  {
    if s != {} {
      var x :| x in s;
      forall y | y in s ensures y.value <= Sum(s) && Sum(s) >= 0 {
        SumWithout(s, y);
        SumPositive(s - {y});
      }
      assert x.value <= Sum(s);
    }
  }

  // Lists of coins

  /** The list holds exactly these coins, each once. */
  ghost predicate Lists(v: seq<Coin>, s: set<Coin>) {
    && (forall i, j :: 0 <= i < j < |v| ==> v[i] != v[j])
    && (forall i :: 0 <= i < |v| ==> v[i] in s)
    && (forall c :: c in s ==> c in v)
  }

  /** The coins marked by the flags. */
  function Marked(v: seq<Coin>, flags: seq<bool>): set<Coin>
    requires |flags| == |v|
  {
    set i | 0 <= i < |v| && flags[i] :: v[i]
  }

  lemma MarkOne(v: seq<Coin>, s: set<Coin>, flags: seq<bool>, i: nat)
    requires Lists(v, s) && |flags| == |v| && i < |v| && !flags[i]
    ensures v[i] !in Marked(v, flags)
    ensures Marked(v, flags[i := true]) == Marked(v, flags) + {v[i]}
    ensures Sum(Marked(v, flags[i := true])) == Sum(Marked(v, flags)) + v[i].value
  {
    var f := flags[i := true];
    assert v[i] in Marked(v, f) by { assert f[i]; }
    forall c | c in Marked(v, flags) ensures c in Marked(v, f) {
      var j :| 0 <= j < |v| && flags[j] && v[j] == c;
      assert f[j];
    }
    assert Marked(v, f) == Marked(v, flags) + {v[i]};
    SumWith(Marked(v, flags), v[i]);
  }

  lemma MarkedNone(v: seq<Coin>, flags: seq<bool>)
    requires |flags| == |v| && forall i :: 0 <= i < |v| ==> !flags[i]
    ensures Marked(v, flags) == {} && Sum(Marked(v, flags)) == 0
  {
  }

  lemma MarkedAll(v: seq<Coin>, s: set<Coin>, flags: seq<bool>)
    requires Lists(v, s) && |flags| == |v| && forall i :: 0 <= i < |v| ==> flags[i]
    ensures Marked(v, flags) == s
  {
    forall c | c in s ensures c in Marked(v, flags) {
      var i :| 0 <= i < |v| && v[i] == c;
      assert flags[i];
    }
  }

  lemma MarkedListed(v: seq<Coin>, s: set<Coin>, flags: seq<bool>)
    requires Lists(v, s) && |flags| == |v|
    ensures Marked(v, flags) <= s
  {
  }

  // Sorting

  ghost predicate Descending(v: seq<Coin>) {
    forall i, j :: 0 <= i < j < |v| ==> v[i].value >= v[j].value
  }

  function InsertAt(r: seq<Coin>, k: nat, x: Coin): seq<Coin>
    requires k <= |r|
  {
    r[..k] + [x] + r[k..]
  }

  lemma InsertedAt(r: seq<Coin>, k: nat, x: Coin)
    requires k <= |r|
    ensures multiset(InsertAt(r, k, x)) == multiset(r) + multiset{x}
  {
    assert r == r[..k] + r[k..];
  }

  lemma InsertDescending(r: seq<Coin>, k: nat, x: Coin)
    requires k <= |r| && Descending(r) && (k > 0 ==> r[k - 1].value >= x.value) && (k < |r| ==> r[k].value <= x.value)
    ensures Descending(InsertAt(r, k, x))
  {
    var t := InsertAt(r, k, x);
    forall i | 0 <= i < |t| ensures t[i] == if i < k then r[i] else if i == k then x else r[i - 1] {}
  }

  /** The sort from the largest value down. */
  method SortDescending(v: seq<Coin>) returns (r: seq<Coin>)
    ensures Descending(r) && multiset(r) == multiset(v)
  {
    hide Descending, InsertAt;
    r := [];
    assert Descending(r) by { NoneDescending(); }
    for i := 0 to |v|
      invariant Descending(r) && multiset(r) == multiset(v[..i])
    {
      var k := |r|;
      while k > 0 && r[k - 1].value < v[i].value
        invariant 0 <= k <= |r| && (k < |r| ==> r[k].value < v[i].value)
      {
        k := k - 1;
      }
      assert v[..i + 1] == v[..i] + [v[i]];
      InsertedAt(r, k, v[i]);
      InsertDescending(r, k, v[i]);
      r := InsertAt(r, k, v[i]);
    }
    assert v[..|v|] == v;
  }

  lemma NoneDescending()
    ensures Descending([])
  {
  }

  lemma {:induction false} OnceEach(v: seq<Coin>)
    ensures (forall i, j :: 0 <= i < j < |v| ==> v[i] != v[j]) <==> (forall c :: multiset(v)[c] <= 1)
  {
    if v != [] {
      var w := v[1..];
      OnceEach(w);
      assert v == [v[0]] + w;
      assert forall c :: multiset(v)[c] == multiset(w)[c] + if c == v[0] then 1 else 0;
      if forall i, j :: 0 <= i < j < |v| ==> v[i] != v[j] {
        forall i, j | 0 <= i < j < |w| ensures w[i] != w[j] { assert v[i + 1] != v[j + 1]; }
        assert v[0] !in w;
        assert multiset(w)[v[0]] == 0;
      } else {
        var i, j :| 0 <= i < j < |v| && v[i] == v[j];
        if i == 0 {
          assert w[j - 1] in multiset(w);
        } else {
          assert w[i - 1] == w[j - 1];
          var c :| multiset(w)[c] > 1;
          assert multiset(v)[c] > 1;
        }
      }
    }
  }

  lemma SortedLists(v: seq<Coin>, r: seq<Coin>, s: set<Coin>)
    requires Lists(v, s) && multiset(r) == multiset(v)
    ensures Lists(r, s)
  {
    OnceEach(v);
    OnceEach(r);
    forall i | 0 <= i < |r| ensures r[i] in s { assert r[i] in multiset(v); }
    forall c | c in s ensures c in r { assert c in multiset(v); }
  }

  // The subset sum

  /** One random trial: what is included, and the best that was reached on the way. */
  datatype Trial = Trial(included: seq<bool>, total: int, reached: bool, best: seq<bool>, nBest: int)

  ghost predicate Trying(v: seq<Coin>, target: int, all: int, t: Trial) {
    && |t.included| == |v| && |t.best| == |v|
    && t.total == Sum(Marked(v, t.included)) && t.nBest == Sum(Marked(v, t.best))
    && target <= t.nBest <= all
  }

  /** Without the coin at this place the marked ones fall short. */
  ghost predicate Needed(v: seq<Coin>, flags: seq<bool>, target: int, j: int) {
    |flags| == |v| && 0 <= j < |v| && flags[j] && Sum(Marked(v, flags)) - v[j].value < target
  }

  ghost predicate Tight(v: seq<Coin>, flags: seq<bool>, target: int) {
    exists j :: Needed(v, flags, target, j)
  }

  /** What is included falls short, and the best so far is tight once the target was reached at all. */
  ghost predicate Closing(v: seq<Coin>, target: int, all: int, t: Trial) {
    && t.total < target
    && (Tight(v, t.best, target) || (t.nBest == all && !t.reached && forall i :: 0 <= i < |t.best| ==> t.best[i]))
  }

  /** The coin is put in; if that reaches the target it is noted and taken out again. */
  function Tried(v: seq<Coin>, target: int, t: Trial, i: nat): Trial
    requires i < |v| == |t.included|
  {
    var n := t.total + v[i].value;
    if n < target then t.(included := t.included[i := true], total := n)
    else if n < t.nBest then t.(reached := true, best := t.included[i := true], nBest := n,
                                included := t.included[i := false])
    else t.(reached := true, included := t.included[i := false])
  }

  lemma TriedKeeps(v: seq<Coin>, s: set<Coin>, target: int, all: int, t: Trial, i: nat)
    requires Lists(v, s) && Trying(v, target, all, t) && i < |v| && !t.included[i]
    ensures Trying(v, target, all, Tried(v, target, t, i))
    ensures forall j :: i < j < |v| ==> Tried(v, target, t, i).included[j] == t.included[j]
  {
    hide Lists, Marked, Sum;
    MarkOne(v, s, t.included, i);
    assert t.included[i := false] == t.included;
  }

  /** The total of some coins listed is at most that of all. */
  lemma MarkedWithin(v: seq<Coin>, s: set<Coin>, flags: seq<bool>)
    requires Lists(v, s) && |flags| == |v| && Positive(s)
    ensures Sum(Marked(v, flags)) <= Sum(s)
  {
    MarkedListed(v, s, flags);
    SumMonotone(Marked(v, flags), s);
  }

  lemma TriedCloses(v: seq<Coin>, s: set<Coin>, target: int, all: int, t: Trial, i: nat)
    requires Lists(v, s) && Positive(s) && all == Sum(s) && Trying(v, target, all, t) && i < |v| && !t.included[i]
    requires Closing(v, target, all, t)
    ensures Closing(v, target, all, Tried(v, target, t, i))
    ensures var u := Tried(v, target, t, i); !u.reached ==> u.included[i]
    ensures var u := Tried(v, target, t, i); t.reached ==> u.reached
    ensures forall j :: 0 <= j < i ==> Tried(v, target, t, i).included[j] == t.included[j]
  {
    hide Lists, Marked, Sum, Positive;
    var n, with, u := t.total + v[i].value, t.included[i := true], Tried(v, target, t, i);
    MarkOne(v, s, t.included, i);
    MarkedWithin(v, s, with);
    if n >= target {
      if n < t.nBest {
        assert Needed(v, u.best, target, i);
      } else if t.nBest == all && t.best[i] {
        assert n == all;
        assert Needed(v, u.best, target, i);
      }
    }
  }

  /** One pass over the coins: by lot in the first pass, all that are out in the second. */
  method Pass(v: seq<Coin>, ghost s: set<Coin>, target: int, ghost all: int, first: bool, start: Trial)
    returns (t: Trial)
    requires Lists(v, s) && Positive(s) && all == Sum(s) && Trying(v, target, all, start)
    requires first ==> forall i :: 0 <= i < |v| ==> !start.included[i]
    ensures Trying(v, target, all, t) && (Closing(v, target, all, start) ==> Closing(v, target, all, t))
    ensures Closing(v, target, all, start) && !first && !t.reached ==> forall j :: 0 <= j < |v| ==> t.included[j]
  {
    hide Lists, Marked, Sum, Positive, Closing;
    t := start;
    for i := 0 to |v|
      invariant Trying(v, target, all, t) && (Closing(v, target, all, start) ==> Closing(v, target, all, t))
      invariant first ==> forall j :: i <= j < |v| ==> !t.included[j]
      invariant Closing(v, target, all, start) && !first && !t.reached ==> forall j :: 0 <= j < i ==> t.included[j]
    {
      var lot: bool := *;
      if if first then lot else !t.included[i] {
        TriedKeeps(v, s, target, all, t, i);
        if Closing(v, target, all, t) {
          TriedCloses(v, s, target, all, t, i);
        }
        t := Tried(v, target, t, i);
      }
    }
  }

  /** A second pass always reaches the target: all coins together do. */
  lemma AllReach(v: seq<Coin>, s: set<Coin>, target: int, all: int, t: Trial)
    requires Lists(v, s) && all == Sum(s) >= target && Trying(v, target, all, t) && t.total < target
    ensures exists j :: 0 <= j < |v| && !t.included[j]
  {
    if forall j :: 0 <= j < |v| ==> t.included[j] {
      MarkedAll(v, s, t.included);
    }
  }

  /** When all coins are worth exactly the target, each of them is needed. */
  lemma ExactlyAll(v: seq<Coin>, s: set<Coin>, target: int, flags: seq<bool>)
    requires Lists(v, s) && Positive(s) && target == Sum(s) > 0 && |flags| == |v|
    requires forall i :: 0 <= i < |v| ==> flags[i]
    ensures Tight(v, flags, target)
  {
    MarkedAll(v, s, flags);
    assert v == [] ==> s == {};
    assert v[0] in s;
    assert Needed(v, flags, target, 0);
  }

  /**
   A thousand trials at most; the smallest total found that reaches the target. However the lots fall, one of
   the coins taken is needed: without it they fall short.
   */
  method Approximate(v: seq<Coin>, ghost s: set<Coin>, target: int, all: int) returns (best: seq<bool>, nBest: int)
    requires Lists(v, s) && Positive(s) && all == Sum(s) >= target
    ensures |best| == |v| && Sum(Marked(v, best)) == nBest && target <= nBest <= all
    ensures target > 0 ==> Tight(v, best, target)
  {
    var none, every := seq(|v|, i => false), seq(|v|, i => true);
    MarkedNone(v, none);
    MarkedAll(v, s, every);
    var t := Trial(none, 0, false, every, all);
    assert target > 0 ==> Closing(v, target, all, t);
    if target == all > 0 {
      ExactlyAll(v, s, target, every);
    }
    hide Lists, Marked, Sum, Positive, Tight;
    var rep := 0;
    while rep < 1000 && t.nBest != target
      invariant Trying(v, target, all, t) && (target > 0 ==> Closing(v, target, all, t))
      invariant target > 0 && (rep > 0 || t.nBest == target) ==> Tight(v, t.best, target)
    {
      t := t.(included := none, total := 0, reached := false);
      var pass := 0;
      while pass < 2 && !t.reached
        invariant Trying(v, target, all, t) && (target > 0 ==> Closing(v, target, all, t))
        invariant pass == 0 ==> t.included == none
        invariant target > 0 && pass >= 2 ==> t.reached
        invariant pass <= 2
      {
        t := Pass(v, s, target, all, pass == 0, t);
        if target > 0 {
          AllReach(v, s, target, all, t);
        }
        pass := pass + 1;
      }
      rep := rep + 1;
    }
    return t.best, t.nBest;
  }

  /** The marked coins and their worth. */
  method Collect(v: seq<Coin>, ghost s: set<Coin>, flags: seq<bool>) returns (chosen: set<Coin>, total: int)
    requires Lists(v, s) && |flags| == |v|
    ensures chosen == Marked(v, flags) && total == Sum(chosen)
  {
    chosen, total := {}, 0;
    ghost var done := seq(|v|, i => false);
    MarkedNone(v, done);
    hide Lists, Marked, Sum;
    for i := 0 to |v|
      invariant |done| == |v| && chosen == Marked(v, done) && total == Sum(chosen)
      invariant forall j :: 0 <= j < |v| ==> done[j] == (flags[j] && j < i)
    {
      if flags[i] {
        MarkOne(v, s, done, i);
        chosen, total := chosen + {v[i]}, total + v[i].value;
        done := done[i := true];
      }
    }
    assert done == flags;
  }

  // The selection

  function Below(s: set<Coin>, bound: int): set<Coin> {
    set c | c in s && c.value < bound
  }

  /** coinLowestLarger: the smallest coin of at least the bound, if there is one. */
  ghost predicate Lowest(s: set<Coin>, bound: int, c: Option<Coin>) {
    if c.None? then forall x :: x in s ==> x.value < bound
    else c.value in s && c.value.value >= bound && forall x :: x in s && x.value >= bound ==> c.value.value <= x.value
  }

  lemma PoolStep(outputs: seq<Output>, k: nat, confMine: int, confTheirs: int)
    requires k < |outputs| && Distinct(outputs)
    ensures var pool := Pool(outputs, k, confMine, confTheirs);
            Pool(outputs, k + 1, confMine, confTheirs) ==
            if Eligible(outputs[k], confMine, confTheirs) then pool + {outputs[k].coin} else pool
    ensures outputs[k].coin !in Pool(outputs, k, confMine, confTheirs)
  {
  }

  lemma BelowStep(s: set<Coin>, c: Coin, bound: int)
    requires c !in s
    ensures Below(s + {c}, bound) == if c.value < bound then Below(s, bound) + {c} else Below(s, bound)
    ensures c !in Below(s, bound)
  {
  }

  lemma ListsStep(v: seq<Coin>, s: set<Coin>, c: Coin)
    requires Lists(v, s) && c !in s
    ensures Lists(v + [c], s + {c}) && Sum(s + {c}) == Sum(s) + c.value
  {
    SumWith(s, c);
  }

  /** What the first loop has found among the coins seen. */
  ghost predicate Sifted(s: set<Coin>, target: int, lower: seq<Coin>, total: int, larger: Option<Coin>) {
    && (forall c :: c in s ==> c.value != target)
    && Lists(lower, Below(s, target + CENT)) && total == Sum(Below(s, target + CENT))
    && Lowest(s, target + CENT, larger)
  }

  lemma SiftStep(s: set<Coin>, target: int, lower: seq<Coin>, total: int, larger: Option<Coin>, c: Coin)
    requires Sifted(s, target, lower, total, larger) && c !in s && c.value != target && c.value < INT64_MAX
    ensures c.value < target + CENT ==> Sifted(s + {c}, target, lower + [c], total + c.value, larger)
    ensures c.value >= target + CENT && c.value < (if larger.Some? then larger.value.value else INT64_MAX) ==>
              Sifted(s + {c}, target, lower, total, Some(c))
    ensures c.value >= target + CENT && larger.Some? && c.value >= larger.value.value ==>
              Sifted(s + {c}, target, lower, total, larger)
  {
    BelowStep(s, c, target + CENT);
    ListsStep(lower, Below(s, target + CENT), c) by { assert c !in Below(s, target + CENT); }
    hide Lists, Sum, Below;
  }

  /** The first loop of SelectCoinsMinConf, up to an exact coin if there is one. */
  method Sift(target: int, confMine: int, confTheirs: int, outputs: seq<Output>)
    returns (exact: Option<Coin>, lower: seq<Coin>, total: int, larger: Option<Coin>)
    requires Distinct(outputs) && forall i :: 0 <= i < |outputs| ==> outputs[i].coin.value < INT64_MAX
    ensures exact.Some? ==> exact.value in Pool(outputs, |outputs|, confMine, confTheirs) && exact.value.value == target
    ensures exact.None? ==> Sifted(Pool(outputs, |outputs|, confMine, confTheirs), target, lower, total, larger)
  {
    hide Lists, Sum, Below, Sifted;
    exact, lower, total, larger := None, [], 0, None;
    assert Sifted(Pool(outputs, 0, confMine, confTheirs), target, lower, total, larger) by {
      NothingSifted(outputs, target, confMine, confTheirs);
    }
    for i := 0 to |outputs|
      invariant exact.None? && Sifted(Pool(outputs, i, confMine, confTheirs), target, lower, total, larger)
    {
      PoolStep(outputs, i, confMine, confTheirs);
      if Eligible(outputs[i], confMine, confTheirs) {
        var coin := outputs[i].coin;
        if coin.value == target {
          exact := Some(coin);
          assert coin in Pool(outputs, |outputs|, confMine, confTheirs);
          return;
        }
        SiftStep(Pool(outputs, i, confMine, confTheirs), target, lower, total, larger, coin);
        if coin.value < target + CENT {
          lower, total := lower + [coin], total + coin.value;
        } else if coin.value < (if larger.Some? then larger.value.value else INT64_MAX) {
          larger := Some(coin);
        }
      }
    }
  }

  lemma NothingSifted(outputs: seq<Output>, target: int, confMine: int, confTheirs: int)
    ensures Sifted(Pool(outputs, 0, confMine, confTheirs), target, [], 0, None)
  {
    assert Below(Pool(outputs, 0, confMine, confTheirs), target + CENT) == {};
  }

  /** The coins of the first k outputs. */
  function Coins(outputs: seq<Output>, k: nat): set<Coin>
    requires k <= |outputs|
  {
    set i | 0 <= i < k :: outputs[i].coin
  }

  /** Values as AvailableCoins lists them, and sums that fit into 64 bits. */
  ghost predicate Fits(target: int, outputs: seq<Output>) {
    && 0 <= target <= INT64_MAX - CENT
    && (forall i :: 0 <= i < |outputs| ==> 0 < outputs[i].coin.value)
    && Sum(Coins(outputs, |outputs|)) <= INT64_MAX - CENT
  }

  /** Without one of the coins less than the bound would be left. */
  ghost predicate OneNeeded(chosen: set<Coin>, total: int, bound: int) {
    exists c :: c in chosen && total - c.value < bound
  }

  /**
   What a selection from a pool promises. It fails only if the pool is too small. It hits the target or
   leaves at least a cent of change, unless the whole pool is worth less than a cent too much. It takes
   no more than any one coin that leaves a cent of change, and an exact coin is always used. One of the coins
   it takes is needed: without it less than the target and a cent would be left.
   */
  ghost predicate Selects(pool: set<Coin>, target: int, ok: bool, chosen: set<Coin>, total: int) {
    && (ok <==> Sum(pool) >= target)
    && chosen <= pool && total == Sum(chosen)
    && (ok ==> total >= target && (total == target || total >= target + CENT || target < Sum(pool) < target + CENT))
    && (!ok ==> chosen == {}) && (chosen != {} ==> OneNeeded(chosen, total, target + CENT))
    && (forall c :: c in pool && (c.value == target || c.value >= target + CENT) ==> total <= c.value)
  }

  lemma FitsPool(target: int, outputs: seq<Output>, confMine: int, confTheirs: int)
    requires Fits(target, outputs)
    ensures Positive(Pool(outputs, |outputs|, confMine, confTheirs))
    ensures Sum(Pool(outputs, |outputs|, confMine, confTheirs)) <= INT64_MAX - CENT
    ensures forall i :: 0 <= i < |outputs| ==> outputs[i].coin.value < INT64_MAX
  {
    var every := Coins(outputs, |outputs|);
    assert Positive(every);
    SumMonotone(Pool(outputs, |outputs|, confMine, confTheirs), every);
    SumPositive(every);
    forall i | 0 <= i < |outputs| ensures outputs[i].coin.value < INT64_MAX { assert outputs[i].coin in every; }
  }

  lemma PoolOf(s: set<Coin>, bound: int, larger: Option<Coin>)
    requires Positive(s) && Lowest(s, bound, larger)
    ensures larger.None? ==> Below(s, bound) == s
    ensures larger.Some? ==> Sum(s) >= larger.value.value
    ensures Below(s, bound) <= s && Sum(Below(s, bound)) <= Sum(s)
  {
    SumPositive(s);
    SumMonotone(Below(s, bound), s);
    if larger.None? {
      forall c | c in s ensures c in Below(s, bound) {}
    }
  }

  lemma One(c: Coin)
    ensures Sum({c}) == c.value
  {
    SumWith({}, c);
    assert {} + {c} == {c};
  }

  /** The last part of SelectCoinsMinConf: the best subset found, or the next larger coin if that is no worse. */
  method Approach(target: int, ghost low: set<Coin>, lower: seq<Coin>, totalLower: int, larger: Option<Coin>)
    returns (chosen: set<Coin>, total: int)
    requires Lists(lower, low) && Positive(low) && target >= 0
    requires totalLower == Sum(low) >= target + (if larger.Some? then CENT else 0)
    requires larger.Some? ==> larger.value.value >= target + CENT
    ensures total == Sum(chosen) && total >= target && (totalLower >= target + CENT ==> total >= target + CENT)
    ensures larger.Some? ==> total <= larger.value.value
    ensures chosen <= low || (larger.Some? && chosen == {larger.value})
    ensures chosen != {} ==> OneNeeded(chosen, total, target + CENT)
  {
    hide Lists, Sum, Marked, Positive, Tight;
    var goal := if totalLower >= target + CENT then target + CENT else target;
    var v := SortDescending(lower);
    SortedLists(lower, v, low);
    var best, nBest := Approximate(v, low, goal, totalLower);
    if larger.Some? && larger.value.value - goal <= nBest - goal {
      One(larger.value);
      chosen, total := {larger.value}, larger.value.value;
      assert larger.value in chosen;
      return;
    }
    chosen, total := Collect(v, low, best);
    MarkedListed(v, low, best);
    if goal > 0 {
      TightNeeds(v, best, goal, chosen, total, target + CENT);
    } else if chosen != {} {
      SomeNeeded(chosen, low, total, target + CENT);
    }
  }

  lemma TightNeeds(v: seq<Coin>, flags: seq<bool>, goal: int, chosen: set<Coin>, total: int, bound: int)
    requires Tight(v, flags, goal) && |flags| == |v| && chosen == Marked(v, flags)
    requires total == Sum(chosen) && goal <= bound
    ensures OneNeeded(chosen, total, bound)
  {
    var j :| Needed(v, flags, goal, j);
    assert v[j] in chosen;
  }

  lemma SomeNeeded(chosen: set<Coin>, pool: set<Coin>, total: int, bound: int)
    requires chosen != {} && chosen <= pool && Positive(pool) && total <= bound
    ensures OneNeeded(chosen, total, bound)
  {
    var c := Pick(chosen);
    assert c in pool && total - c.value < bound;
  }

  /** An exact coin. */
  lemma ExactSelects(pool: set<Coin>, target: int, c: Coin)
    requires Positive(pool) && c in pool && c.value == target
    ensures Selects(pool, target, true, {c}, target)
  {
    One(c);
    SumPositive(pool);
    SomeNeeded({c}, pool, target, target + CENT);
  }

  /** The lowest larger coin, when the lower ones leave less than a cent of change or are dearer. */
  lemma LargerSelects(pool: set<Coin>, target: int, lower: seq<Coin>, totalLower: int, larger: Option<Coin>)
    requires Positive(pool) && Sifted(pool, target, lower, totalLower, larger) && larger.Some? && target >= 0
    ensures Selects(pool, target, true, {larger.value}, larger.value.value)
  {
    One(larger.value);
    PoolOf(pool, target + CENT, larger);
    OneIsNeeded(larger.value, target + CENT);
    hide Lists, Below, Sum, Positive, OneNeeded;
  }

  lemma OneIsNeeded(c: Coin, bound: int)
    requires bound > 0
    ensures OneNeeded({c}, c.value, bound)
  {
    assert c in {c};
  }

  /** Coins among the lower ones. */
  lemma LowerSelects(pool: set<Coin>, target: int, lower: seq<Coin>, totalLower: int, larger: Option<Coin>,
                     chosen: set<Coin>, total: int)
    requires Positive(pool) && Sifted(pool, target, lower, totalLower, larger)
    requires chosen <= Below(pool, target + CENT) && total == Sum(chosen) >= target
             && (larger.Some? ==> total <= larger.value.value)
    requires total == target || total >= target + CENT || (larger.None? && target < totalLower < target + CENT)
    requires chosen != {} ==> OneNeeded(chosen, total, target + CENT)
    ensures Selects(pool, target, true, chosen, total)
  {
    PoolOf(pool, target + CENT, larger);
    SumMonotone(chosen, pool);
    hide Lists, Below, Sum, Positive, OneNeeded;
  }

  lemma NothingSelects(pool: set<Coin>, target: int, lower: seq<Coin>, totalLower: int)
    requires Positive(pool) && Sifted(pool, target, lower, totalLower, None) && totalLower < target
    ensures Selects(pool, target, false, {}, 0)
  {
    PoolOf(pool, target + CENT, None);
  }

  lemma BelowPositive(pool: set<Coin>, bound: int)
    requires Positive(pool)
    ensures Positive(Below(pool, bound))
  {
  }

  /** SelectCoinsMinConf, for every outcome of its lots. */
  method SelectCoinsMinConf(target: int, confMine: int, confTheirs: int, outputs: seq<Output>)
    returns (ok: bool, chosen: set<Coin>, total: int)
    requires Distinct(outputs) && Fits(target, outputs)
    ensures Selects(Pool(outputs, |outputs|, confMine, confTheirs), target, ok, chosen, total)
  {
    ghost var pool := Pool(outputs, |outputs|, confMine, confTheirs);
    FitsPool(target, outputs, confMine, confTheirs);
    assert target >= 0;
    hide Distinct, Fits, Positive, Pool, Below, Lists, Sum, Marked, Selects, OneNeeded;
    var exact, lower, totalLower, larger := Sift(target, confMine, confTheirs, outputs);
    if exact.Some? {
      ExactSelects(pool, target, exact.value);
      return true, {exact.value}, target;
    }
    ghost var low := Below(pool, target + CENT);
    assert Positive(low) by { BelowPositive(pool, target + CENT); }
    ok := true;
    if totalLower == target || totalLower == target + CENT {
      var every := seq(|lower|, i => true);
      MarkedAll(lower, low, every);
      chosen, total := Collect(lower, low, every);
      if chosen != {} {
        SomeNeeded(chosen, low, total, target + CENT);
      }
      LowerSelects(pool, target, lower, totalLower, larger, chosen, total);
      return;
    }
    if totalLower < target + (if larger.Some? then CENT else 0) {
      if larger.None? {
        NothingSelects(pool, target, lower, totalLower);
        return false, {}, 0;
      }
      LargerSelects(pool, target, lower, totalLower, larger);
      return true, {larger.value}, larger.value.value;
    }
    chosen, total := Approach(target, low, lower, totalLower, larger);
    if chosen <= low {
      LowerSelects(pool, target, lower, totalLower, larger, chosen, total);
    } else {
      LargerSelects(pool, target, lower, totalLower, larger);
      One(larger.value);
    }
  }

  /** The coins to be selected from: the first of the three tiers that covers the target. */
  ghost function Tier(target: int, outputs: seq<Output>): set<Coin> {
    var n := |outputs|;
    if Sum(Pool(outputs, n, 1, 6)) >= target then Pool(outputs, n, 1, 6)
    else if Sum(Pool(outputs, n, 1, 1)) >= target then Pool(outputs, n, 1, 1)
    else Pool(outputs, n, 0, 1)
  }

  /** SelectCoins: fails exactly when the loosest tier falls short. */
  method SelectCoins(target: int, outputs: seq<Output>) returns (ok: bool, chosen: set<Coin>, total: int)
    requires Distinct(outputs) && Fits(target, outputs)
    ensures Selects(Tier(target, outputs), target, ok, chosen, total)
    ensures ok <==> Sum(Pool(outputs, |outputs|, 0, 1)) >= target
    ensures chosen <= Pool(outputs, |outputs|, 0, 1)
  {
    FitsPool(target, outputs, 0, 1);
    assert Pool(outputs, |outputs|, 1, 6) <= Pool(outputs, |outputs|, 1, 1) <= Pool(outputs, |outputs|, 0, 1);
    SumMonotone(Pool(outputs, |outputs|, 1, 6), Pool(outputs, |outputs|, 0, 1));
    SumMonotone(Pool(outputs, |outputs|, 1, 1), Pool(outputs, |outputs|, 0, 1));
    hide Fits, Distinct, Pool, Sum;
    ok, chosen, total := SelectCoinsMinConf(target, 1, 6, outputs);
    if !ok {
      ok, chosen, total := SelectCoinsMinConf(target, 1, 1, outputs);
      if !ok {
        ok, chosen, total := SelectCoinsMinConf(target, 0, 1, outputs);
      }
    }
  }

  /** The outputs SelectCoins may use: our own from depth zero on, others once they are in a block. */
  ghost function Usable(outputs: seq<Output>): set<Coin> {
    set i | 0 <= i < |outputs| && outputs[i].depth >= (if outputs[i].fromMe then 0 else 1) :: outputs[i].coin
  }

  /** Those in a block. */
  ghost function Mined(outputs: seq<Output>): set<Coin> {
    set i | 0 <= i < |outputs| && outputs[i].depth >= 1 :: outputs[i].coin
  }

  /** Those in a block, and if they are not our own six blocks deep. */
  ghost function Settled(outputs: seq<Output>): set<Coin> {
    set i | 0 <= i < |outputs| && outputs[i].depth >= (if outputs[i].fromMe then 1 else 6) :: outputs[i].coin
  }

  /**
   What a selection from the tiers takes: only usable coins, only mined ones if those suffice, and only settled
   ones if those do; it fails exactly if the usable ones fall short.
   */
  lemma SelectsCautiously(target: int, outputs: seq<Output>, ok: bool, chosen: set<Coin>, total: int)
    requires Selects(Tier(target, outputs), target, ok, chosen, total)
    ensures chosen <= Usable(outputs) && (!ok ==> Sum(Usable(outputs)) < target)
    ensures Sum(Mined(outputs)) >= target ==> chosen <= Mined(outputs) && ok
    ensures Sum(Settled(outputs)) >= target ==> chosen <= Settled(outputs) && ok
  {
    hide Sum;
    var n := |outputs|;
    assert Pool(outputs, n, 1, 6) == Settled(outputs);
    assert Pool(outputs, n, 1, 1) == Mined(outputs);
    assert Pool(outputs, n, 0, 1) == Usable(outputs);
    assert Settled(outputs) <= Mined(outputs) <= Usable(outputs);
  }

  lemma CoinsStep(outputs: seq<Output>, k: nat)
    requires Distinct(outputs) && k < |outputs|
    ensures Coins(outputs, k + 1) == Coins(outputs, k) + {outputs[k].coin} && outputs[k].coin !in Coins(outputs, k)
  {
  }

  /** What the listed coins are worth. */
  method Worth(outputs: seq<Output>) returns (total: int)
    requires Distinct(outputs)
    ensures total == Sum(Coins(outputs, |outputs|))
  {
    hide Distinct, Coins, Sum;
    total := 0;
    assert Sum(Coins(outputs, 0)) == 0 by { NoCoins(outputs); }
    for k := 0 to |outputs|
      invariant total == Sum(Coins(outputs, k))
    {
      CoinsStep(outputs, k);
      SumWith(Coins(outputs, k), outputs[k].coin);
      total := total + outputs[k].coin.value;
    }
  }

  lemma NoCoins(outputs: seq<Output>)
    ensures Sum(Coins(outputs, 0)) == 0
  {
    assert Coins(outputs, 0) == {};
  }
}
