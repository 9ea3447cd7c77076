/** Building and committing a transaction: value is conserved and no coin is spent twice. */
module Spend {
  import opened Bytes
  import opened CoinSelect

  const TX_FEE := CENT
  const MIN_TXOUT_AMOUNT := TX_FEE
  const MAX_BLOCK_SIZE_GEN := 5_000_000

  datatype TxOut = TxOut(value: int, script: Data)

  datatype Tx = Tx(vin: seq<Outpoint>, vout: seq<TxOut>, time: int)

  /** CWalletTx: a transaction and which of its outputs are known to be spent (vfSpent may be short). */
  datatype WalletTx = WalletTx(tx: Tx, spent: seq<bool>)

  /** mapWallet, by transaction hash. */
  type Txs = map<Data, WalletTx>

  /** What the chain, the keys, the hash and the signer say at the time of a call. */
  datatype View = View(final: Data -> bool, confirmed: Data -> bool, maturing: Data -> bool, depth: Data -> int,
                       fromMe: Data -> bool, mine: TxOut -> bool, signs: (Tx, nat) -> bool, size: Tx -> nat,
                       txid: Tx -> Data)

  // Spent flags

  function Resized(f: seq<bool>, n: nat): (r: seq<bool>)
    ensures |r| == n && forall i :: 0 <= i < n ==> r[i] == (i < |f| && f[i])
  {
    seq(n, i requires 0 <= i < n => i < |f| && f[i])
  }

  /** IsSpent; None for an index out of range, where the code throws. */
  function IsSpent(w: WalletTx, n: nat): Option<bool> {
    if n >= |w.tx.vout| then None
    else if n >= |w.spent| then Some(false)
    else Some(w.spent[n])
  }

  function MarkSpent(w: WalletTx, n: nat): Option<WalletTx> {
    if n >= |w.tx.vout| then None
    else Some(w.(spent := Resized(w.spent, |w.tx.vout|)[n := true]))
  }

  function MarkUnspent(w: WalletTx, n: nat): Option<WalletTx> {
    if n >= |w.tx.vout| then None
    else Some(w.(spent := Resized(w.spent, |w.tx.vout|)[n := false]))
  }

  /** Marking changes the answer for one output and for no other, whatever the length of the flags. */
  lemma MarkLaws(w: WalletTx, n: nat, m: nat)
    ensures MarkSpent(w, n).Some? <==> n < |w.tx.vout|
    ensures MarkSpent(w, n).Some? ==> IsSpent(MarkSpent(w, n).value, m) == if m == n then Some(true) else IsSpent(w, m)
    ensures MarkUnspent(w, n).Some? ==>
              IsSpent(MarkUnspent(w, n).value, m) == if m == n then Some(false) else IsSpent(w, m)
  {
  }

  /** The output is in the wallet and marked as spent. */
  predicate SpentAt(txs: Txs, p: Outpoint) {
    p.hash in txs && IsSpent(txs[p.hash], p.n) == Some(true)
  }

  predicate KnownAt(txs: Txs, p: Outpoint) {
    p.hash in txs && p.n < |txs[p.hash].tx.vout|
  }

  /** Transactions stay what they are, and what was spent stays spent. */
  ghost predicate Grows(a: Txs, b: Txs) {
    && (forall h :: h in a ==> h in b && b[h].tx == a[h].tx)
    && (forall p :: SpentAt(a, p) ==> SpentAt(b, p))
  }

  /** Exactly these outputs become spent as well. */
  ghost predicate Spends(a: Txs, b: Txs, vin: seq<Outpoint>) {
    && (forall h :: h in a ==> h in b && b[h].tx == a[h].tx)
    && (forall p :: SpentAt(b, p) <==> SpentAt(a, p) || p in vin)
  }

  // Coins

  /** The test in AvailableCoins. */
  predicate CanSpend(txs: Txs, v: View, time: int, onlyConfirmed: bool, p: Outpoint) {
    && KnownAt(txs, p) && v.final(p.hash) && (onlyConfirmed ==> v.confirmed(p.hash)) && !v.maturing(p.hash)
    && txs[p.hash].tx.time <= time
    && IsSpent(txs[p.hash], p.n) != Some(true) && v.mine(txs[p.hash].tx.vout[p.n]) && txs[p.hash].tx.vout[p.n].value > 0
  }

  function OutputAt(txs: Txs, v: View, p: Outpoint): Output
    requires KnownAt(txs, p)
  {
    Output(Coin(txs[p.hash].tx.vout[p.n].value, p), v.depth(p.hash), v.fromMe(p.hash))
  }

  /** A list of all spendable outputs of some of the transactions, each once. */
  ghost predicate Available(txs: Txs, v: View, time: int, onlyConfirmed: bool, hashes: set<Data>,
                            outputs: seq<Output>) {
    && Distinct(outputs)
    && (forall i :: 0 <= i < |outputs| ==> Spendable(txs, v, time, onlyConfirmed, hashes, outputs[i]))
    && (forall p :: CanSpend(txs, v, time, onlyConfirmed, p) && p.hash in hashes ==> OutputAt(txs, v, p) in outputs)
  }

  predicate Spendable(txs: Txs, v: View, time: int, onlyConfirmed: bool, hashes: set<Data>, o: Output) {
    && CanSpend(txs, v, time, onlyConfirmed, o.coin.point) && o.coin.point.hash in hashes
    && o == OutputAt(txs, v, o.coin.point)
  }

  /** The outputs of one transaction that can be spent, from index n on. */
  function SpendableFrom(txs: Txs, v: View, time: int, onlyConfirmed: bool, h: Data, n: nat): seq<Output>
    requires h in txs && n <= |txs[h].tx.vout|
    decreases |txs[h].tx.vout| - n
  {
    if n == |txs[h].tx.vout| then []
    else
      var rest := SpendableFrom(txs, v, time, onlyConfirmed, h, n + 1);
      if CanSpend(txs, v, time, onlyConfirmed, Outpoint(h, n)) then [OutputAt(txs, v, Outpoint(h, n))] + rest else rest
  }

  /** The list has all spendable outputs of one transaction from index n on, in order. */
  ghost predicate Runs(txs: Txs, v: View, time: int, onlyConfirmed: bool, h: Data, n: nat, s: seq<Output>) {
    && (forall i :: 0 <= i < |s| ==> Spendable(txs, v, time, onlyConfirmed, {h}, s[i]))
    && (forall i :: 0 <= i < |s| ==> s[i].coin.point.n >= n)
    && (forall i, j :: 0 <= i < j < |s| ==> s[i].coin.point.n < s[j].coin.point.n)
    && (forall p :: CanSpend(txs, v, time, onlyConfirmed, p) && p.hash == h && p.n >= n ==> OutputAt(txs, v, p) in s)
  }

  lemma RunsCons(txs: Txs, v: View, time: int, onlyConfirmed: bool, h: Data, n: nat, rest: seq<Output>)
    requires Runs(txs, v, time, onlyConfirmed, h, n + 1, rest) && CanSpend(txs, v, time, onlyConfirmed, Outpoint(h, n))
    ensures Runs(txs, v, time, onlyConfirmed, h, n, [OutputAt(txs, v, Outpoint(h, n))] + rest)
  {
    var o := OutputAt(txs, v, Outpoint(h, n));
    assert Spendable(txs, v, time, onlyConfirmed, {h}, o);
    hide CanSpend, Spendable;
    var s := [o] + rest;
    forall i | 0 <= i < |s| ensures Spendable(txs, v, time, onlyConfirmed, {h}, s[i]) && s[i].coin.point.n >= n {
      if i > 0 { assert s[i] == rest[i - 1]; }
    }
    forall p | CanSpend(txs, v, time, onlyConfirmed, p) && p.hash == h && p.n >= n
      ensures KnownAt(txs, p) && OutputAt(txs, v, p) in s {
      CanSpendKnown(txs, v, time, onlyConfirmed, p);
      if p.n == n {
        assert p == Outpoint(h, n) && s[0] == o;
      } else {
        assert OutputAt(txs, v, p) in rest;
      }
    }
  }

  lemma RunsSkip(txs: Txs, v: View, time: int, onlyConfirmed: bool, h: Data, n: nat, rest: seq<Output>)
    requires Runs(txs, v, time, onlyConfirmed, h, n + 1, rest) && !CanSpend(txs, v, time, onlyConfirmed, Outpoint(h, n))
    ensures Runs(txs, v, time, onlyConfirmed, h, n, rest)
  {
    hide Spendable;
    forall p | CanSpend(txs, v, time, onlyConfirmed, p) && p.hash == h && p.n >= n ensures p.n >= n + 1 {
      assert p == Outpoint(h, p.n);
    }
  }

  lemma {:induction false} SpendableFromAll(txs: Txs, v: View, time: int, onlyConfirmed: bool, h: Data, n: nat)
    requires h in txs && n <= |txs[h].tx.vout|
    ensures Runs(txs, v, time, onlyConfirmed, h, n, SpendableFrom(txs, v, time, onlyConfirmed, h, n))
    decreases |txs[h].tx.vout| - n
  {
    if n < |txs[h].tx.vout| {
      hide CanSpend, Runs;
      SpendableFromAll(txs, v, time, onlyConfirmed, h, n + 1);
      var rest := SpendableFrom(txs, v, time, onlyConfirmed, h, n + 1);
      if CanSpend(txs, v, time, onlyConfirmed, Outpoint(h, n)) {
        RunsCons(txs, v, time, onlyConfirmed, h, n, rest);
      } else {
        RunsSkip(txs, v, time, onlyConfirmed, h, n, rest);
      }
    } else {
      forall p | CanSpend(txs, v, time, onlyConfirmed, p) && p.hash == h ensures p.n < n {}
    }
  }

  lemma CanSpendKnown(txs: Txs, v: View, time: int, onlyConfirmed: bool, p: Outpoint)
    requires CanSpend(txs, v, time, onlyConfirmed, p)
    ensures KnownAt(txs, p)
  {
  }

  lemma AvailableMore(txs: Txs, v: View, time: int, onlyConfirmed: bool, done: set<Data>, outputs: seq<Output>, h: Data,
                      more: seq<Output>)
    requires Available(txs, v, time, onlyConfirmed, done, outputs) && h in txs && h !in done
    requires Runs(txs, v, time, onlyConfirmed, h, 0, more)
    ensures Available(txs, v, time, onlyConfirmed, done + {h}, outputs + more)
  {
    hide CanSpend;
    var all := outputs + more;
    forall i | 0 <= i < |all| ensures Spendable(txs, v, time, onlyConfirmed, done + {h}, all[i]) {
      if i < |outputs| {
        assert Spendable(txs, v, time, onlyConfirmed, done, outputs[i]);
      } else {
        assert Spendable(txs, v, time, onlyConfirmed, {h}, more[i - |outputs|]);
      }
    }
    assert Distinct(all) by {
      forall i, j | 0 <= i < j < |all| ensures all[i].coin.point != all[j].coin.point {
        if j < |outputs| {
        } else if i >= |outputs| {
          assert more[i - |outputs|].coin.point.n < more[j - |outputs|].coin.point.n;
        } else {
          assert Spendable(txs, v, time, onlyConfirmed, done, outputs[i])
                 && Spendable(txs, v, time, onlyConfirmed, {h}, more[j - |outputs|]);
        }
      }
    }
    forall p | CanSpend(txs, v, time, onlyConfirmed, p) && p.hash in done + {h}
      ensures KnownAt(txs, p) && OutputAt(txs, v, p) in all {
      CanSpendKnown(txs, v, time, onlyConfirmed, p);
      if p.hash == h {
        assert OutputAt(txs, v, p) in more;
      }
    }
  }

  lemma {:induction false} NoneSpendable(txs: Txs, v: View, time: int, onlyConfirmed: bool, h: Data, n: nat)
    requires h in txs && n <= |txs[h].tx.vout|
    requires !v.final(h) || (onlyConfirmed && !v.confirmed(h)) || v.maturing(h)
    ensures SpendableFrom(txs, v, time, onlyConfirmed, h, n) == []
    decreases |txs[h].tx.vout| - n
  {
    if n < |txs[h].tx.vout| {
      NoneSpendable(txs, v, time, onlyConfirmed, h, n + 1);
    }
  }

  /** AvailableCoins; the wallet is walked in any order. */
  method AvailableCoins(txs: Txs, v: View, time: int, onlyConfirmed: bool) returns (outputs: seq<Output>)
    ensures Available(txs, v, time, onlyConfirmed, txs.Keys, outputs)
  {
    hide Available, CanSpend, OutputAt, Runs, SpendableFrom;
    outputs := [];
    NoneAvailable(txs, v, time, onlyConfirmed);
    var rest := txs.Keys;
    ghost var done: set<Data> := {};
    while rest != {}
      invariant rest <= txs.Keys && done == txs.Keys - rest
      invariant Available(txs, v, time, onlyConfirmed, done, outputs)
      decreases |rest|
    {
      ghost var some := Pick(rest);
      var h :| h in rest;
      SpendableFromAll(txs, v, time, onlyConfirmed, h, 0);
      AvailableMore(txs, v, time, onlyConfirmed, done, outputs, h, SpendableFrom(txs, v, time, onlyConfirmed, h, 0));
      if !v.final(h) || (onlyConfirmed && !v.confirmed(h)) || v.maturing(h) {
        NoneSpendable(txs, v, time, onlyConfirmed, h, 0);
        assert outputs + [] == outputs;
      } else {
        outputs := SpendableOf(txs, v, time, onlyConfirmed, h, outputs);
      }
      rest, done := rest - {h}, done + {h};
    }
    assert done == txs.Keys;
  }

  lemma NoneAvailable(txs: Txs, v: View, time: int, onlyConfirmed: bool)
    ensures Available(txs, v, time, onlyConfirmed, {}, [])
  {
  }

  /** The loop over the outputs of one transaction. */
  method SpendableOf(txs: Txs, v: View, time: int, onlyConfirmed: bool, h: Data, before: seq<Output>)
    returns (outputs: seq<Output>)
    requires h in txs && v.final(h) && (onlyConfirmed ==> v.confirmed(h)) && !v.maturing(h)
    ensures outputs == before + SpendableFrom(txs, v, time, onlyConfirmed, h, 0)
  {
    outputs := before;
    ghost var all := SpendableFrom(txs, v, time, onlyConfirmed, h, 0);
    var w := txs[h];
    for i := 0 to |w.tx.vout|
      invariant outputs + SpendableFrom(txs, v, time, onlyConfirmed, h, i) == before + all
    {
      if w.tx.time <= time && IsSpent(w, i) != Some(true) && v.mine(w.tx.vout[i]) && w.tx.vout[i].value > 0 {
        var o := Output(Coin(w.tx.vout[i].value, Outpoint(h, i)), v.depth(h), v.fromMe(h));
        assert outputs + ([o] + SpendableFrom(txs, v, time, onlyConfirmed, h, i + 1)) ==
               outputs + [o] + SpendableFrom(txs, v, time, onlyConfirmed, h, i + 1);
        outputs := outputs + [o];
      }
    }
    assert outputs + [] == outputs;
  }

  /** The confirmed coins that can be spent at all: what the loosest tier of SelectCoins sees. */
  ghost function Funds(txs: Txs, v: View, time: int, confMine: int, confTheirs: int): set<Coin> {
    set h, i | h in txs && 0 <= i < |txs[h].tx.vout| && CanSpend(txs, v, time, true, Outpoint(h, i)) &&
               Eligible(OutputAt(txs, v, Outpoint(h, i)), confMine, confTheirs)
      :: OutputAt(txs, v, Outpoint(h, i)).coin
  }

  lemma AvailablePool(txs: Txs, v: View, time: int, outputs: seq<Output>, confMine: int, confTheirs: int)
    requires Available(txs, v, time, true, txs.Keys, outputs)
    ensures Pool(outputs, |outputs|, confMine, confTheirs) == Funds(txs, v, time, confMine, confTheirs)
  {
    var pool, funds := Pool(outputs, |outputs|, confMine, confTheirs), Funds(txs, v, time, confMine, confTheirs);
    forall c | c in pool ensures c in funds {
      var i :| 0 <= i < |outputs| && Eligible(outputs[i], confMine, confTheirs) && outputs[i].coin == c;
      assert Spendable(txs, v, time, true, txs.Keys, outputs[i]);
      var h, n := c.point.hash, c.point.n;
      assert c.point == Outpoint(h, n) && h in txs;
      assert c == OutputAt(txs, v, Outpoint(h, n)).coin;
    }
    forall c | c in funds ensures c in pool {
      var h, n :| h in txs && 0 <= n < |txs[h].tx.vout| && CanSpend(txs, v, time, true, Outpoint(h, n)) &&
                  Eligible(OutputAt(txs, v, Outpoint(h, n)), confMine, confTheirs)
                  && c == OutputAt(txs, v, Outpoint(h, n)).coin;
      var i :| 0 <= i < |outputs| && outputs[i] == OutputAt(txs, v, Outpoint(h, n));
    }
  }

  /**
   An output is listed exactly if its transaction is final, confirmed, mature and not from after the time of
   spending, and the output itself is not marked spent, ours and worth something; it is listed with its value.
   */
  lemma ListedIff(txs: Txs, v: View, time: int, outputs: seq<Output>, p: Outpoint)
    requires Available(txs, v, time, true, txs.Keys, outputs)
    ensures (exists o :: o in outputs && o.coin.point == p) <==>
            && p.hash in txs && v.final(p.hash) && v.confirmed(p.hash) && !v.maturing(p.hash)
            && var w := txs[p.hash];
               && w.tx.time <= time && p.n < |w.tx.vout| && !(p.n < |w.spent| && w.spent[p.n])
               && v.mine(w.tx.vout[p.n]) && w.tx.vout[p.n].value > 0
    ensures forall o :: o in outputs && o.coin.point == p ==>
              && p.hash in txs && p.n < |txs[p.hash].tx.vout| && o.coin.value == txs[p.hash].tx.vout[p.n].value
              && o.depth == v.depth(p.hash) && o.fromMe == v.fromMe(p.hash)
  {
    forall o | o in outputs ensures Spendable(txs, v, time, true, txs.Keys, o) {
      var i :| 0 <= i < |outputs| && outputs[i] == o;
    }
    if CanSpend(txs, v, time, true, p) {
      assert OutputAt(txs, v, p) in outputs && OutputAt(txs, v, p).coin.point == p;
    }
  }

  // Building a transaction

  function OutTotal(vout: seq<TxOut>): int {
    if vout == [] then 0 else OutTotal(vout[..|vout| - 1]) + vout[|vout| - 1].value
  }

  function InTotal(txs: Txs, vin: seq<Outpoint>): int
    requires forall i :: 0 <= i < |vin| ==> KnownAt(txs, vin[i])
  {
    if vin == [] then 0
    else
      var p := vin[|vin| - 1];
      assert KnownAt(txs, p);
      InTotal(txs, vin[..|vin| - 1]) + txs[p.hash].tx.vout[p.n].value
  }

  /** The total of outputs is the sum of their values. */
  lemma {:induction false} OutTotalSums(a: seq<TxOut>, b: seq<TxOut>)
    ensures OutTotal(a + b) == OutTotal(a) + OutTotal(b)
    ensures OutTotal([]) == 0 && forall o :: OutTotal([o]) == o.value
    decreases |b|
  {
    forall o ensures OutTotal([o]) == o.value {
      assert [o][..0] == [];
    }
    if b == [] {
      assert a + b == a;
    } else {
      var front := b[..|b| - 1];
      OutTotalSums(a, front);
      assert (a + b)[..|a + b| - 1] == a + front;
    }
  }

  /** The total of inputs is the sum of the values of the outputs they spend. */
  lemma {:induction false} InTotalSums(txs: Txs, a: seq<Outpoint>, b: seq<Outpoint>)
    requires (forall i :: 0 <= i < |a| ==> KnownAt(txs, a[i])) && forall i :: 0 <= i < |b| ==> KnownAt(txs, b[i])
    ensures InTotal(txs, a + b) == InTotal(txs, a) + InTotal(txs, b)
    ensures InTotal(txs, []) == 0
    ensures forall p :: KnownAt(txs, p) ==> InTotal(txs, [p]) == txs[p.hash].tx.vout[p.n].value
    decreases |b|
  {
    forall p | KnownAt(txs, p) ensures InTotal(txs, [p]) == txs[p.hash].tx.vout[p.n].value {
      assert [p][..0] == [];
    }
    if b == [] {
      assert a + b == a;
    } else {
      var front := b[..|b| - 1];
      InTotalSums(txs, a, front);
      assert (a + b)[..|a + b| - 1] == a + front;
    }
  }

  /** No partial sum of the payments is negative. */
  ghost predicate Payable(payments: seq<TxOut>) {
    payments != [] && forall k :: 0 <= k <= |payments| ==> OutTotal(payments[..k]) >= 0
  }

  /** The first loop of CreateTransaction. */
  method Amount(payments: seq<TxOut>) returns (ok: bool, value: int)
    ensures ok <==> Payable(payments)
    ensures ok ==> value == OutTotal(payments)
  {
    value := 0;
    for i := 0 to |payments|
      invariant value == OutTotal(payments[..i]) && forall k :: 0 <= k < i ==> OutTotal(payments[..k]) >= 0
    {
      if value < 0 {
        return false, value;
      }
      assert payments[..i + 1][..i] == payments[..i];
      value := value + payments[i].value;
    }
    assert payments[..|payments|] == payments;
    ok := payments != [] && value >= 0;
  }

  /** Inputs that can be spent, each once. */
  ghost predicate Inputs(txs: Txs, v: View, time: int, vin: seq<Outpoint>) {
    && (forall i :: 0 <= i < |vin| ==> CanSpend(txs, v, time, true, vin[i]) && KnownAt(txs, vin[i]))
    && (forall i, j :: 0 <= i < j < |vin| ==> vin[i] != vin[j])
  }

  /** What CreateTransaction builds: the change first, then the payments, and every unit accounted for. */
  ghost predicate Builds(txs: Txs, v: View, time: int, payments: seq<TxOut>, change: Data, tx: Tx, fee: int) {
    && tx.time == time && |tx.vout| == |payments| + 1 && tx.vout[1..] == payments && tx.vout[0].script == change
    && (tx.vout[0].value == 0 || tx.vout[0].value >= MIN_TXOUT_AMOUNT)
    && TX_FEE <= fee < TX_FEE + MIN_TXOUT_AMOUNT && (tx.vout[0].value != 0 ==> fee == TX_FEE)
    && Inputs(txs, v, time, tx.vin)
    && InTotal(txs, tx.vin) == OutTotal(tx.vout) + fee
    && (forall p :: p in tx.vin ==> Deep(v, p)) && InputNeeded(txs, tx.vin, OutTotal(payments) + TX_FEE + CENT)
  }

  /** Our own transactions are spent from depth zero on, others once they are in a block. */
  predicate Deep(v: View, p: Outpoint) {
    v.depth(p.hash) >= if v.fromMe(p.hash) then 0 else 1
  }

  /** Without one of the inputs less than the bound would be left. */
  ghost predicate InputNeeded(txs: Txs, vin: seq<Outpoint>, bound: int)
    requires forall i :: 0 <= i < |vin| ==> KnownAt(txs, vin[i])
  {
    exists p :: p in vin && KnownAt(txs, p) && InTotal(txs, vin) - txs[p.hash].tx.vout[p.n].value < bound
  }

  ghost predicate Signed(v: View, tx: Tx) {
    forall i :: 0 <= i < |tx.vin| ==> v.signs(tx, i)
  }

  predicate Small(v: View, tx: Tx) {
    v.size(tx) < MAX_BLOCK_SIZE_GEN / 5
  }

  /** A fifth of the largest block made here. */
  lemma SmallIs(v: View, tx: Tx)
    ensures Small(v, tx) <==> v.size(tx) < 1_000_000
  {
  }

  /** Sums stay within 64 bits. */
  ghost predicate Affordable(txs: Txs, v: View, time: int, payments: seq<TxOut>) {
    && OutTotal(payments) <= INT64_MAX - 2 * CENT
    && Sum(Listed(txs, v, time)) <= INT64_MAX - CENT
  }

  ghost function Listed(txs: Txs, v: View, time: int): set<Coin> {
    set h, i | h in txs && 0 <= i < |txs[h].tx.vout| && CanSpend(txs, v, time, true, Outpoint(h, i))
      :: OutputAt(txs, v, Outpoint(h, i)).coin
  }

  lemma AvailableListed(txs: Txs, v: View, time: int, outputs: seq<Output>)
    requires Available(txs, v, time, true, txs.Keys, outputs)
    ensures Coins(outputs, |outputs|) == Listed(txs, v, time)
  {
    var every, listed := Coins(outputs, |outputs|), Listed(txs, v, time);
    forall c | c in every ensures c in listed {
      var i :| 0 <= i < |outputs| && outputs[i].coin == c;
      assert Spendable(txs, v, time, true, txs.Keys, outputs[i]);
      var h, n := c.point.hash, c.point.n;
      assert c.point == Outpoint(h, n) && h in txs && c == OutputAt(txs, v, Outpoint(h, n)).coin;
    }
    forall c | c in listed ensures c in every {
      var h, n :| h in txs && 0 <= n < |txs[h].tx.vout| && CanSpend(txs, v, time, true, Outpoint(h, n)) &&
                  c == OutputAt(txs, v, Outpoint(h, n)).coin;
      var i :| 0 <= i < |outputs| && outputs[i] == OutputAt(txs, v, Outpoint(h, n));
    }
  }

  lemma AvailableFits(txs: Txs, v: View, time: int, payments: seq<TxOut>, outputs: seq<Output>)
    requires Available(txs, v, time, true, txs.Keys, outputs) && Affordable(txs, v, time, payments)
             && OutTotal(payments) >= 0
    ensures Fits(OutTotal(payments) + TX_FEE, outputs)
  {
    AvailableListed(txs, v, time, outputs);
    forall i | 0 <= i < |outputs| ensures 0 < outputs[i].coin.value {
      assert Spendable(txs, v, time, true, txs.Keys, outputs[i]);
    }
  }

  /** Whether the sums of a payment stay within 64 bits. */
  method CanAfford(txs: Txs, v: View, time: int, payments: seq<TxOut>) returns (ok: bool)
    ensures ok <==> Affordable(txs, v, time, payments)
  {
    hide Available, Sum, Listed, Coins;
    var outputs := AvailableCoins(txs, v, time, true);
    AvailableDistinct(txs, v, time, outputs);
    AvailableListed(txs, v, time, outputs);
    var total := Worth(outputs);
    ok := OutTotal(payments) <= INT64_MAX - 2 * CENT && total <= INT64_MAX - CENT;
  }

  /** The chosen coins as inputs, in any order. */
  method FillInputs(txs: Txs, ghost v: View, ghost time: int, chosen: set<Coin>) returns (vin: seq<Outpoint>)
    requires chosen <= Funds(txs, v, time, 0, 1)
    ensures Inputs(txs, v, time, vin) && InTotal(txs, vin) == Sum(chosen)
    ensures forall p :: p in vin ==> exists c :: c in chosen && c.point == p
    ensures forall c :: c in chosen ==> c.point in vin
  {
    vin := [];
    var rest := chosen;
    assert Inputs(txs, v, time, vin) && InTotal(txs, vin) == 0;
    hide Funds, CanSpend, InTotal, Sum;
    while rest != {}
      invariant rest <= chosen && Inputs(txs, v, time, vin) && InTotal(txs, vin) + Sum(rest) == Sum(chosen)
      invariant forall p :: p in vin ==> exists c :: c in chosen - rest && c.point == p
      invariant forall c :: c in chosen && c !in rest ==> c.point in vin
      decreases |rest|
    {
      ghost var some := Pick(rest);
      var c :| c in rest;
      FundsCoin(txs, v, time, c);
      SumWithout(rest, c);
      FillStep(txs, v, time, chosen, rest, vin, c);
      vin := vin + [c.point];
      rest := rest - {c};
    }
    NothingIsWorthless();
  }

  lemma FundsCoin(txs: Txs, v: View, time: int, c: Coin)
    requires c in Funds(txs, v, time, 0, 1)
    ensures CanSpend(txs, v, time, true, c.point) && c.value == txs[c.point.hash].tx.vout[c.point.n].value
  {
  }

  /** What the inputs take over from the coins chosen. */
  lemma FilledInputs(txs: Txs, v: View, time: int, chosen: set<Coin>, vin: seq<Outpoint>, bound: int)
    requires chosen <= Funds(txs, v, time, 0, 1) && Inputs(txs, v, time, vin) && InTotal(txs, vin) == Sum(chosen)
    requires forall p :: p in vin ==> exists c :: c in chosen && c.point == p
    requires (forall c :: c in chosen ==> c.point in vin) && OneNeeded(chosen, Sum(chosen), bound)
    ensures (forall p :: p in vin ==> Deep(v, p)) && InputNeeded(txs, vin, bound)
  {
    hide Sum, InTotal;
    forall p | p in vin ensures Deep(v, p) {
      var c :| c in chosen && c.point == p;
      assert c in Funds(txs, v, time, 0, 1);
    }
    var c :| c in chosen && Sum(chosen) - c.value < bound;
    FundsCoin(txs, v, time, c);
    assert c.point in vin && KnownAt(txs, c.point);
  }

  lemma FillStep(txs: Txs, v: View, time: int, chosen: set<Coin>, rest: set<Coin>, vin: seq<Outpoint>, c: Coin)
    requires chosen <= Funds(txs, v, time, 0, 1) && c in rest && rest <= chosen && Inputs(txs, v, time, vin)
    requires forall p :: p in vin ==> exists x :: x in chosen - rest && x.point == p
    ensures Inputs(txs, v, time, vin + [c.point]) && InTotal(txs, vin + [c.point]) == InTotal(txs, vin) + c.value
    ensures forall p :: p in vin + [c.point] ==> exists x :: x in chosen - (rest - {c}) && x.point == p
  {
    hide Funds, CanSpend;
    FundsCoin(txs, v, time, c);
    assert (vin + [c.point])[..|vin|] == vin;
    if c.point in vin {
      var x :| x in chosen - rest && x.point == c.point;
      FundsCoin(txs, v, time, x);
      assert false;
    }
    forall p | p in vin + [c.point] ensures exists x :: x in chosen - (rest - {c}) && x.point == p {
      if p == c.point {
        assert c in chosen - (rest - {c});
      } else {
        var x :| x in chosen - rest && x.point == p;
        assert x in chosen - (rest - {c});
      }
    }
  }

  /** How much of what is left over goes to the fee. */
  method Change(left: int) returns (change: int, fee: int)
    requires left >= 0
    ensures change + fee == left + TX_FEE && TX_FEE <= fee < TX_FEE + MIN_TXOUT_AMOUNT
    ensures change == if left < MIN_TXOUT_AMOUNT then 0 else left
  {
    change, fee := left, TX_FEE;
    if fee < TX_FEE && change > 0 && change < CENT {
      var move := if change < TX_FEE - fee then change else TX_FEE - fee;
      change, fee := change - move, fee + move;
    }
    if change > 0 && change < MIN_TXOUT_AMOUNT {
      fee := fee + change;
      change := 0;
    }
  }

  /** Choosing the coins and filling in inputs, change and fee. */
  method Assemble(txs: Txs, v: View, time: int, payments: seq<TxOut>, changeScript: Data, value: int)
    returns (ok: bool, tx: Tx, fee: int)
    requires Affordable(txs, v, time, payments) && value == OutTotal(payments) >= 0
    ensures ok <==> Sum(Funds(txs, v, time, 0, 1)) >= value + TX_FEE
    ensures ok ==> Builds(txs, v, time, payments, changeScript, tx, fee)
  {
    hide Available, Affordable, Sum, Funds, Inputs, Fits, Pool, Tier, CanSpend, KnownAt, InTotal, OutTotal, Distinct;
    hide OneNeeded, InputNeeded, Deep;
    tx, fee := Tx([], payments, time), TX_FEE;
    var outputs := AvailableCoins(txs, v, time, true);
    AvailableFits(txs, v, time, payments, outputs);
    AvailablePool(txs, v, time, outputs, 0, 1);
    AvailableDistinct(txs, v, time, outputs);
    var chosen, total;
    ok, chosen, total := SelectCoins(value + TX_FEE, outputs);
    if ok {
      var change;
      change, fee := Change(total - value - TX_FEE);
      var vin := FillInputs(txs, v, time, chosen);
      assert chosen != {} by { NothingIsWorthless(); }
      FilledInputs(txs, v, time, chosen, vin, value + TX_FEE + CENT);
      tx := Tx(vin, [TxOut(change, changeScript)] + payments, time);
      OutTotalSums([TxOut(change, changeScript)], payments);
    }
  }

  lemma NothingIsWorthless()
    ensures Sum({}) == 0
  {
  }

  /** The reasons for which no transaction comes about; the last one names a transaction that was built. */
  ghost predicate Refused(txs: Txs, v: View, time: int, payments: seq<TxOut>, changeScript: Data) {
    || !Payable(payments)
    || Sum(Funds(txs, v, time, 0, 1)) < OutTotal(payments) + TX_FEE
    || exists tx, fee :: Builds(txs, v, time, payments, changeScript, tx, fee) && (!Signed(v, tx) || !Small(v, tx))
  }

  /**
   CreateTransaction, for every outcome of coin selection. It fails for unpayable amounts or short
   funds, or if the transaction it has built cannot be signed or is too large.
   */
  method CreateTransaction(txs: Txs, v: View, time: int, payments: seq<TxOut>, changeScript: Data)
    returns (ok: bool, tx: Tx, fee: int)
    requires Affordable(txs, v, time, payments)
    ensures ok ==> Builds(txs, v, time, payments, changeScript, tx, fee) && Signed(v, tx) && Small(v, tx)
    ensures ok ==> Payable(payments) && Sum(Funds(txs, v, time, 0, 1)) >= OutTotal(payments) + TX_FEE
    ensures !ok && Payable(payments) && Sum(Funds(txs, v, time, 0, 1)) >= OutTotal(payments) + TX_FEE ==>
              Builds(txs, v, time, payments, changeScript, tx, fee) && (!Signed(v, tx) || !Small(v, tx))
  {
    tx, fee := Tx([], payments, time), TX_FEE;
    var value;
    ok, value := Amount(payments);
    if !ok {
      return;
    }
    assert value >= 0 by { assert payments[..|payments|] == payments; }
    hide Affordable, Payable, Sum, Funds, Builds, OutTotal;
    ok, tx, fee := Assemble(txs, v, time, payments, changeScript, value);
    if !ok {
      return;
    }
    for i := 0 to |tx.vin|
      invariant forall j :: 0 <= j < i ==> v.signs(tx, j)
    {
      if !v.signs(tx, i) {
        return false, tx, fee;
      }
    }
    ok := v.size(tx) < MAX_BLOCK_SIZE_GEN / 5;
  }

  lemma AvailableDistinct(txs: Txs, v: View, time: int, outputs: seq<Output>)
    requires Available(txs, v, time, true, txs.Keys, outputs)
    ensures Distinct(outputs)
  {
  }

  // The wallet over time

  /** A wallet transaction that has taken over flags, as far as both lists go. */
  ghost predicate Merged(w: WalletTx, flags: seq<bool>, r: WalletTx) {
    && r.tx == w.tx && |r.spent| == |w.spent|
    && forall i :: 0 <= i < |r.spent| ==> r.spent[i] == (w.spent[i] || (i < |flags| && flags[i]))
  }

  /** UpdateSpent */
  method UpdateSpent(w: WalletTx, flags: seq<bool>) returns (r: WalletTx)
    ensures Merged(w, flags, r)
  {
    r := w;
    for i := 0 to |flags|
      invariant r.tx == w.tx && |r.spent| == |w.spent| && i <= |r.spent|
      invariant forall j :: 0 <= j < |r.spent| ==> r.spent[j] == (w.spent[j] || (j < i && flags[j]))
    {
      if i == |r.spent| {
        break;
      }
      if flags[i] && !r.spent[i] {
        r := r.(spent := r.spent[i := true]);
      }
    }
  }

  /** The wallet with a transaction entered as it is, or merged into the one it has. */
  ghost predicate Enters(a: Txs, b: Txs, h: Data, w: WalletTx) {
    && b.Keys == a.Keys + {h} && (forall x :: x in a && x != h ==> b[x] == a[x])
    && (if h in a then Merged(a[h], w.spent, b[h]) else b[h] == w)
  }

  lemma EntersGrow(a: Txs, b: Txs, h: Data, w: WalletTx)
    requires Enters(a, b, h, w)
    ensures Grows(a, b)
    ensures h !in a && w.spent == [] ==> forall p :: SpentAt(b, p) ==> SpentAt(a, p)
  {
  }

  /** The output is in the wallet and pays to it. */
  predicate Ours(txs: Txs, v: View, p: Outpoint) {
    KnownAt(txs, p) && v.mine(txs[p.hash].tx.vout[p.n])
  }

  /** Those of the outputs that are ours. */
  function OursOf(txs: Txs, v: View, vin: seq<Outpoint>): (r: seq<Outpoint>)
    ensures forall p :: p in r <==> p in vin && Ours(txs, v, p)
  {
    if vin == [] then []
    else
      var last, rest := vin[|vin| - 1], OursOf(txs, v, vin[..|vin| - 1]);
      assert vin == vin[..|vin| - 1] + [last];
      if Ours(txs, v, last) then rest + [last] else rest
  }

  lemma OursMore(txs: Txs, v: View, vin: seq<Outpoint>, i: nat)
    requires i < |vin|
    ensures OursOf(txs, v, vin[..i + 1]) ==
            if Ours(txs, v, vin[i]) then OursOf(txs, v, vin[..i]) + [vin[i]] else OursOf(txs, v, vin[..i])
  {
    hide Ours;
    assert vin[..i + 1][..i] == vin[..i];
  }

  lemma SpendsNone(a: Txs)
    ensures Spends(a, a, [])
  {
  }

  lemma SpendsKnown(a: Txs, b: Txs, v: View, vin: seq<Outpoint>, p: Outpoint)
    requires Spends(a, b, vin) && a.Keys == b.Keys
    ensures KnownAt(a, p) <==> KnownAt(b, p)
    ensures Ours(a, v, p) <==> Ours(b, v, p)
  {
    hide SpentAt;
  }

  /** One input that is looked at: marked if it is ours and not marked yet. */
  lemma LookedAt(a: Txs, b: Txs, c: Txs, v: View, vin: seq<Outpoint>, i: nat)
    requires i < |vin| && a.Keys == b.Keys && Spends(a, b, OursOf(a, v, vin[..i]))
    requires var p := vin[i];
             c == if Ours(a, v, p) && KnownAt(b, p) && !SpentAt(b, p)
                  then b[p.hash := MarkSpent(b[p.hash], p.n).value] else b
    ensures Spends(a, c, OursOf(a, v, vin[..i + 1]))
  {
    hide SpentAt, OursOf, Ours;
    var p, done := vin[i], OursOf(a, v, vin[..i]);
    OursMore(a, v, vin, i);
    SpendsKnown(a, b, v, done, p);
    if Ours(a, v, p) {
      if SpentAt(b, p) {
        SpentTwice(a, b, done, p);
      } else {
        assert KnownAt(b, p) by { OursKnown(b, v, p); }
        MarkAt(b, p);
        SpendsThen(a, b, c, done, [p]);
      }
    }
  }

  lemma OursKnown(txs: Txs, v: View, p: Outpoint)
    requires Ours(txs, v, p)
    ensures KnownAt(txs, p)
  {
  }

  lemma SpentTwice(a: Txs, b: Txs, vin: seq<Outpoint>, p: Outpoint)
    requires Spends(a, b, vin) && SpentAt(b, p)
    ensures Spends(a, b, vin + [p])
  {
    hide SpentAt;
  }

  /** Marking one known output. */
  lemma MarkAt(txs: Txs, p: Outpoint)
    requires KnownAt(txs, p)
    ensures MarkSpent(txs[p.hash], p.n).Some?
    ensures Spends(txs, txs[p.hash := MarkSpent(txs[p.hash], p.n).value], [p])
  {
    var b := txs[p.hash := MarkSpent(txs[p.hash], p.n).value];
    forall q ensures SpentAt(b, q) <==> SpentAt(txs, q) || q in [p] {
      if q.hash == p.hash {
        MarkLaws(txs[p.hash], p.n, q.n);
      }
    }
  }

  lemma SpendsGrow(a: Txs, b: Txs, vin: seq<Outpoint>)
    requires Spends(a, b, vin)
    ensures Grows(a, b)
  {
  }

  lemma SpendsThen(a: Txs, b: Txs, c: Txs, vin: seq<Outpoint>, more: seq<Outpoint>)
    requires Spends(a, b, vin) && Spends(b, c, more)
    ensures Spends(a, c, vin + more)
  {
    hide SpentAt;
    forall h | h in a ensures h in c && c[h].tx == a[h].tx { assert h in b; }
  }

  lemma GrowsThen(a: Txs, b: Txs, c: Txs)
    requires Grows(a, b) && Grows(b, c)
    ensures Grows(a, c)
  {
    hide SpentAt;
    forall h | h in a ensures h in c && c[h].tx == a[h].tx { assert h in b; }
  }

  class Wallet {
    var txs: Txs

    /**
     WalletUpdateSpent: inputs that are ours are marked, up to the first that has a bad index, for which
     false stands instead of the exception.
     */
    method WalletUpdateSpent(v: View, vin: seq<Outpoint>) returns (ok: bool, ghost done: nat)
      modifies this
      ensures txs.Keys == old(txs).Keys && done <= |vin| && Spends(old(txs), txs, OursOf(old(txs), v, vin[..done]))
      ensures forall i :: 0 <= i < done && vin[i].hash in old(txs) ==> KnownAt(old(txs), vin[i])
      ensures ok <==> done == |vin|
      ensures !ok ==> vin[done].hash in old(txs) && !KnownAt(old(txs), vin[done])
    {
      hide SpentAt, OursOf;
      done := 0;
      SpendsNone(txs);
      assert OursOf(txs, v, vin[..0]) == [] by { OursNone(txs, v, vin); }
      for i := 0 to |vin|
        invariant done == i && txs.Keys == old(txs).Keys && Spends(old(txs), txs, OursOf(old(txs), v, vin[..i]))
        invariant forall j :: 0 <= j < i && vin[j].hash in old(txs) ==> KnownAt(old(txs), vin[j])
      {
        var p := vin[i];
        ghost var before := txs;
        SpendsKnown(old(txs), txs, v, OursOf(old(txs), v, vin[..i]), p);
        if p.hash in txs {
          var state := IsSpent(txs[p.hash], p.n);
          StateOf(txs, p);
          if state.None? {
            return false, i;
          }
          if state == Some(false) && v.mine(txs[p.hash].tx.vout[p.n]) {
            txs := txs[p.hash := MarkSpent(txs[p.hash], p.n).value];
          }
        }
        LookedAt(old(txs), before, txs, v, vin, i);
        done := i + 1;
      }
      ok := true;
    }

    /**
     AddToWallet: a new transaction is entered, a known one merged; then its inputs are looked at. The wallet
     in between is given for reference.
     */
    method AddToWallet(v: View, w: WalletTx) returns (ok: bool, ghost entered: Txs, ghost done: nat)
      modifies this
      ensures Receives(old(txs), entered, txs, v, w, done, ok) && Grows(old(txs), txs)
    {
      hide OursOf;
      var h := v.txid(w.tx);
      if h !in txs {
        txs := txs[h := w];
      } else {
        var merged := UpdateSpent(txs[h], w.spent);
        txs := txs[h := merged];
      }
      entered := txs;
      EntersGrow(old(txs), entered, h, w);
      hide SpentAt, Enters, Merged;
      ok, done := WalletUpdateSpent(v, txs[h].tx.vin);
      SpendsGrow(entered, txs, OursOf(entered, v, entered[h].tx.vin[..done]));
      GrowsThen(old(txs), entered, txs);
    }

    /** The inputs are marked in turn, up to one that is not in the wallet. */
    method MarkInputs(vin: seq<Outpoint>) returns (ok: bool, ghost done: nat)
      modifies this
      ensures txs.Keys == old(txs).Keys && done <= |vin| && Spends(old(txs), txs, vin[..done])
      ensures (ok <==> done == |vin|) && (ok <==> forall i :: 0 <= i < |vin| ==> KnownAt(old(txs), vin[i]))
    {
      hide SpentAt;
      done := 0;
      SpendsNone(txs);
      assert vin[..0] == [];
      for i := 0 to |vin|
        invariant done == i && Spends(old(txs), txs, vin[..i]) && txs.Keys == old(txs).Keys
        invariant forall j :: 0 <= j < i ==> KnownAt(old(txs), vin[j])
      {
        var p := vin[i];
        assert KnownAt(txs, p) <==> KnownAt(old(txs), p);
        if p.hash !in txs || p.n >= |txs[p.hash].tx.vout| {
          return false, i;
        }
        MarkAt(txs, p);
        SpendsThen(old(txs), txs, txs[p.hash := MarkSpent(txs[p.hash], p.n).value], vin[..i], [p]);
        assert vin[..i] + [p] == vin[..i + 1];
        txs := txs[p.hash := MarkSpent(txs[p.hash], p.n).value];
        done := i + 1;
      }
      ok := true;
    }

    /**
     CommitTransaction: the transaction is entered and its inputs marked as spent; false stands for
     the exception on an input that is not in the wallet. The mempool's verdict comes after and
     changes nothing here.
     */
    method CommitTransaction(v: View, tx: Tx) returns (ok: bool)
      modifies this
      ensures Grows(old(txs), txs)
      ensures ok ==> forall p :: p in tx.vin ==> SpentAt(txs, p)
      ensures ok && v.txid(tx) !in old(txs) ==> Spends(old(txs), txs, tx.vin)
      ensures v.txid(tx) !in old(txs) ==> (ok <==> forall i :: 0 <= i < |tx.vin| ==> KnownAt(txs, tx.vin[i]))
    {
      hide SpentAt, Receives;
      ghost var first, done;
      ok, first, done := AddToWallet(v, WalletTx(tx, []));
      if v.txid(tx) !in old(txs) {
        EntersNew(old(txs), first, txs, v, tx, done, ok);
      }
      if !ok {
        return;
      }
      ghost var entered := txs;
      ok, done := MarkInputs(tx.vin);
      SpendsGrow(entered, txs, tx.vin[..done]);
      GrowsThen(old(txs), entered, txs);
      forall p ensures KnownAt(txs, p) <==> KnownAt(entered, p) {}
      assert ok ==> tx.vin[..done] == tx.vin;
    }

    /** SendMoney on an unlocked wallet: create, then commit. */
    method SendMoney(v: View, time: int, payments: seq<TxOut>, changeScript: Data)
      returns (sent: Option<Tx>, fee: int, committed: bool)
      requires Affordable(txs, v, time, payments)
      modifies this
      ensures sent.None? ==> txs == old(txs) && !committed && Refused(old(txs), v, time, payments, changeScript)
      ensures sent.Some? ==> Builds(old(txs), v, time, payments, changeScript, sent.value, fee)
      ensures sent.Some? ==> Signed(v, sent.value) && Small(v, sent.value)
      ensures sent.Some? && v.txid(sent.value) !in old(txs) ==> committed
      ensures Next(old(txs), txs, if committed then Send(sent.value) else Other)
    {
      var ok, tx;
      committed := false;
      ok, tx, fee := CreateTransaction(txs, v, time, payments, changeScript);
      if !ok {
        return None, fee, false;
      }
      InputsUnspent(txs, v, time, tx.vin);
      committed := CommitTransaction(v, tx);
      InputsKnown(old(txs), txs, v, time, tx.vin);
      sent := Some(tx);
    }
  }

  /** A transaction is entered or merged, and as many of its inputs as have good indexes are looked at. */
  ghost predicate Receives(a: Txs, b: Txs, c: Txs, v: View, w: WalletTx, done: nat, ok: bool) {
    var h := v.txid(w.tx);
    && Enters(a, b, h, w) && h in b && c.Keys == b.Keys
    && var vin := b[h].tx.vin;
       && done <= |vin| && Spends(b, c, OursOf(b, v, vin[..done]))
       && (ok <==> done == |vin|)
       && (ok <==> forall i :: 0 <= i < |vin| && vin[i].hash in b ==> KnownAt(b, vin[i]))
  }

  lemma OursNone(txs: Txs, v: View, vin: seq<Outpoint>)
    ensures OursOf(txs, v, vin[..0]) == []
  {
  }

  lemma StateOf(txs: Txs, p: Outpoint)
    requires p.hash in txs
    ensures IsSpent(txs[p.hash], p.n).None? <==> !KnownAt(txs, p)
    ensures IsSpent(txs[p.hash], p.n) == Some(true) <==> SpentAt(txs, p)
  {
  }

  /** A transaction of our own, entered without flags: only its inputs become spent. */
  lemma EntersNew(a: Txs, b: Txs, c: Txs, v: View, tx: Tx, done: nat, ok: bool)
    requires Receives(a, b, c, v, WalletTx(tx, []), done, ok) && v.txid(tx) !in a
    ensures forall p :: SpentAt(c, p) ==> SpentAt(a, p) || p in tx.vin
    ensures ok <==> forall i :: 0 <= i < |tx.vin| && tx.vin[i].hash in c ==> KnownAt(c, tx.vin[i])
  {
    EntersGrow(a, b, v.txid(tx), WalletTx(tx, []));
    hide SpentAt;
    forall p ensures KnownAt(c, p) <==> KnownAt(b, p) {}
  }

  lemma InputsUnspent(txs: Txs, v: View, time: int, vin: seq<Outpoint>)
    requires Inputs(txs, v, time, vin)
    ensures forall p :: p in vin ==> !SpentAt(txs, p)
  {
  }

  lemma InputsKnown(a: Txs, b: Txs, v: View, time: int, vin: seq<Outpoint>)
    requires Inputs(a, v, time, vin) && Grows(a, b)
    ensures forall i :: 0 <= i < |vin| ==> KnownAt(b, vin[i])
  {
    forall i | 0 <= i < |vin| ensures KnownAt(b, vin[i]) { assert KnownAt(a, vin[i]); }
  }

  // Runs

  /** A payment of our own, or anything else that marks nothing as unspent. */
  datatype Step = Send(tx: Tx) | Other

  ghost predicate Next(a: Txs, b: Txs, step: Step) {
    && Grows(a, b)
    && (step.Send? ==> forall p :: p in step.tx.vin ==> !SpentAt(a, p) && SpentAt(b, p))
  }

  ghost predicate Run(states: seq<Txs>, steps: seq<Step>) {
    |states| == |steps| + 1 && forall i :: 0 <= i < |steps| ==> Next(states[i], states[i + 1], steps[i])
  }

  lemma {:induction false} StaysSpent(states: seq<Txs>, steps: seq<Step>, i: nat, j: nat, p: Outpoint)
    requires Run(states, steps) && i <= j < |states| && SpentAt(states[i], p)
    ensures SpentAt(states[j], p)
    decreases j - i
  {
    if i < j {
      assert Next(states[i], states[i + 1], steps[i]);
      StaysSpent(states, steps, i + 1, j, p);
    }
  }

  /** In any run the payments sent spend pairwise disjoint outputs. */
  lemma SentDisjoint(states: seq<Txs>, steps: seq<Step>, i: nat, j: nat, p: Outpoint)
    requires Run(states, steps) && i < j < |steps| && steps[i].Send? && steps[j].Send?
    ensures !(p in steps[i].tx.vin && p in steps[j].tx.vin)
  {
    hide SpentAt;
    if p in steps[i].tx.vin {
      assert Next(states[i], states[i + 1], steps[i]);
      StaysSpent(states, steps, i + 1, j, p);
      assert Next(states[j], states[j + 1], steps[j]);
    }
  }

  lemma RunStart(txs: Txs)
    ensures Run([txs], [])
  {
  }

  lemma RunSnoc(states: seq<Txs>, steps: seq<Step>, b: Txs, step: Step)
    requires Run(states, steps) && Next(states[|steps|], b, step)
    ensures Run(states + [b], steps + [step])
  {
    hide Next;
  }

  /** The transactions sent are those of the steps at these places, in order. */
  ghost predicate SentAt(steps: seq<Step>, places: seq<nat>, sent: seq<Tx>) {
    && |places| == |sent| && (forall i :: 0 <= i < |sent| ==> places[i] < |steps| && steps[places[i]] == Send(sent[i]))
    && (forall i, j :: 0 <= i < j < |places| ==> places[i] < places[j])
    && (forall i :: 0 <= i < |steps| && steps[i].Send? ==> i in places)
  }

  lemma SentAtSnoc(steps: seq<Step>, places: seq<nat>, sent: seq<Tx>, step: Step)
    requires SentAt(steps, places, sent)
    ensures step.Other? ==> SentAt(steps + [step], places, sent)
    ensures step.Send? ==> SentAt(steps + [step], places + [|steps|], sent + [step.tx])
  {
  }

  /** What a user and the network may ask of the wallet. */
  datatype Task =
    | Pay(v: View, time: int, payments: seq<TxOut>, changeScript: Data)
    | Receive(v: View, w: WalletTx)

  /** What a task does: a payment is sent as built, or refused for a reason; sums outside 64 bits are not tried. */
  ghost predicate Done(a: Txs, b: Txs, task: Task, step: Step) {
    match task
    case Pay(v, time, payments, changeScript) =>
      if !Affordable(a, v, time, payments) then step == Other && b == a
      else if step.Send? then exists fee :: Builds(a, v, time, payments, changeScript, step.tx, fee)
      else
        || (b == a && Refused(a, v, time, payments, changeScript))
        || exists tx, fee :: Builds(a, v, time, payments, changeScript, tx, fee) && v.txid(tx) in a
    case Receive(v, w) => step == Other && exists entered, done, ok :: Receives(a, entered, b, v, w, done, ok)
  }

  ghost predicate DoneAll(states: seq<Txs>, tasks: seq<Task>, steps: seq<Step>) {
    && |states| == |steps| + 1 && |steps| <= |tasks|
    && forall i :: 0 <= i < |steps| ==> Done(states[i], states[i + 1], tasks[i], steps[i])
  }

  lemma DoneSnoc(states: seq<Txs>, tasks: seq<Task>, steps: seq<Step>, b: Txs, step: Step)
    requires DoneAll(states, tasks, steps) && |steps| < |tasks| && Done(states[|steps|], b, tasks[|steps|], step)
    ensures DoneAll(states + [b], tasks, steps + [step])
  {
    hide Done;
    var more, all := states + [b], steps + [step];
    forall i | 0 <= i < |all| ensures Done(more[i], more[i + 1], tasks[i], all[i]) {
      if i < |steps| {
        assert Done(states[i], states[i + 1], tasks[i], steps[i]);
      }
    }
  }

  /** One task is one step of a run. */
  method Perform(w: Wallet, task: Task) returns (sent: Option<Tx>, ghost step: Step)
    modifies w
    ensures Done(old(w.txs), w.txs, task, step) && Next(old(w.txs), w.txs, step)
    ensures step == if sent == None then Other else Send(sent.value)
  {
    hide Affordable, Builds, Refused, Grows, Next, Receives;
    sent, step := None, Other;
    ghost var a := w.txs;
    match task
    case Pay(v, time, payments, changeScript) =>
      var ok := CanAfford(w.txs, v, time, payments);
      if !ok {
        GrowsSelf(a);
        OtherNext(a, a);
        return;
      }
      var tx, fee, committed := w.SendMoney(v, time, payments, changeScript);
      if committed {
        sent, step := tx, Send(tx.value);
      }
    case Receive(v, tx) =>
      ghost var entered, done;
      var ok;
      ok, entered, done := w.AddToWallet(v, tx);
      OtherNext(a, w.txs);
  }

  lemma GrowsSelf(a: Txs)
    ensures Grows(a, a)
  {
  }

  /** Any sequence of payments and received transactions is a run, and what it sends is spent once. */
  method Drive(w: Wallet, tasks: seq<Task>)
    returns (sent: seq<Tx>, ghost states: seq<Txs>, ghost steps: seq<Step>, ghost places: seq<nat>)
    modifies w
    ensures Run(states, steps) && states[0] == old(w.txs) && states[|steps|] == w.txs
    ensures DoneAll(states, tasks, steps) && |steps| == |tasks| && SentAt(steps, places, sent)
    ensures forall i, j, p :: 0 <= i < j < |sent| && p in sent[i].vin ==> p !in sent[j].vin
  {
    hide Next, Run, Done, SentAt;
    sent, states, steps, places := [], [w.txs], [], [];
    RunStart(w.txs);
    assert DoneAll(states, tasks, steps);
    hide DoneAll;
    NoneSent();
    for n := 0 to |tasks|
      invariant |steps| == n && |states| == n + 1 && states[0] == old(w.txs) && states[n] == w.txs
      invariant Run(states, steps) && DoneAll(states, tasks, steps) && SentAt(steps, places, sent)
    {
      var tx;
      ghost var step;
      tx, step := Perform(w, tasks[n]);
      SentAtSnoc(steps, places, sent, step);
      if tx.Some? {
        sent, places := sent + [tx.value], places + [|steps|];
      }
      RunSnoc(states, steps, w.txs, step);
      DoneSnoc(states, tasks, steps, w.txs, step);
      states, steps := states + [w.txs], steps + [step];
    }
    SentApart(states, steps, places, sent);
  }

  lemma NoneSent()
    ensures SentAt([], [], [])
  {
  }

  lemma OtherNext(a: Txs, b: Txs)
    requires Grows(a, b)
    ensures Next(a, b, Other)
  {
  }

  lemma SentApart(states: seq<Txs>, steps: seq<Step>, places: seq<nat>, sent: seq<Tx>)
    requires Run(states, steps) && SentAt(steps, places, sent)
    ensures forall i, j, p :: 0 <= i < j < |sent| && p in sent[i].vin ==> p !in sent[j].vin
  {
    hide Run;
    forall i, j, p | 0 <= i < j < |sent| && p in sent[i].vin ensures p !in sent[j].vin {
      SentDisjoint(states, steps, places[i], places[j], p);
    }
  }
}
