/** Exactly what the signature-operation counts count, place by place, and that a run can reach them. */
module SigCount {
  import opened Bytes
  import opened Radix
  import opened BigNum
  import opened Script
  import opened Interp
  import opened SigOps
  import opened Multisig
  import opened Pushes
  import opened Signing
  import opened Opcodes
  import opened Outputs

  /** The opcodes of some instructions. */
  function Ops(parts: seq<Data>): (r: seq<Byte>)
    ensures |r| == |parts|
  {
    seq(|parts|, i requires 0 <= i < |parts| => if parts[i] == [] then 0 else parts[i][0])
  }

  predicate IsCheckSig(op: Byte) { op == 0xac || op == 0xad }

  predicate IsCheckMultisig(op: Byte) { op == 0xae || op == 0xaf }

  /** The instruction is a CHECKMULTISIG right behind one of OP_1 to OP_16. */
  predicate Numbered(ops: seq<Byte>, i: int) {
    0 < i < |ops| && IsCheckMultisig(ops[i]) && 0x51 <= ops[i - 1] <= 0x60
  }

  /** What the instruction at one place costs. */
  function CostAt(ops: seq<Byte>, i: nat, accurate: bool): nat
    requires i < |ops|
  {
    if IsCheckSig(ops[i]) then 1
    else if !IsCheckMultisig(ops[i]) then 0
    else if accurate && Numbered(ops, i) then ops[i - 1] - 0x50
    else 20
  }

  function CostFrom(ops: seq<Byte>, i: nat, accurate: bool): nat
    requires i <= |ops|
    decreases |ops| - i
  {
    if i == |ops| then 0 else CostAt(ops, i, accurate) + CostFrom(ops, i + 1, accurate)
  }

  lemma WeightIsCost(ops: seq<Byte>, i: nat, accurate: bool)
    requires i < |ops|
    ensures Weight(ops[i], if i == 0 then OP_INVALIDOPCODE else ops[i - 1], accurate) == CostAt(ops, i, accurate)
  {
  }

  lemma {:induction false} CountedFrom(s: Data, parts: seq<Data>, i: nat, accurate: bool)
    requires i <= |parts| && Instructions(s) == parts[i..]
    ensures var ops := Ops(parts);
            SigOpsFrom(s, if i == 0 then OP_INVALIDOPCODE else ops[i - 1], accurate) == CostFrom(ops, i, accurate)
    decreases |s|
  {
    hide Decode, GetOp, Weight, Instructions, Tail, Counted, CostAt;
    if Decode(s).None? {
      Unparsed(s);
    } else {
      var ins := Decode(s).value;
      FirstInstruction(s);
      assert parts[i] == s[..GetOp(s).size] && Instructions(ins.after) == parts[i + 1..];
      CountedFrom(ins.after, parts, i + 1, accurate);
      WeightIsCost(Ops(parts), i, accurate);
    }
  }

  lemma Unparsed(s: Data)
    requires Decode(s).None?
    ensures Instructions(s) == []
  {
    hide GetOp;
  }

  /** GetSigOpCount is the sum over all instructions of what each costs where it stands. */
  lemma CountIsCost(s: Data, accurate: bool)
    ensures SigOpCount(s, accurate) == CostFrom(Ops(Instructions(s)), 0, accurate)
  {
    hide SigOpsFrom, CostFrom;
    var parts := Instructions(s);
    assert parts[0..] == parts;
    CountedFrom(s, parts, 0, accurate);
  }

  /** The places from i on that hold CHECKSIG or CHECKSIGVERIFY, and those that hold the multisignature forms. */
  function Ones(ops: seq<Byte>, i: nat): set<int> {
    set j | i <= j < |ops| && IsCheckSig(ops[j])
  }

  function Manys(ops: seq<Byte>, i: nat): set<int> {
    set j | i <= j < |ops| && IsCheckMultisig(ops[j])
  }

  lemma {:induction false} PlainFrom(ops: seq<Byte>, i: nat)
    requires i <= |ops|
    ensures CostFrom(ops, i, false) == |Ones(ops, i)| + 20 * |Manys(ops, i)|
    decreases |ops| - i
  {
    if i < |ops| {
      PlainFrom(ops, i + 1);
      assert Ones(ops, i) == Ones(ops, i + 1) + if IsCheckSig(ops[i]) then {i as int} else {};
      assert Manys(ops, i) == Manys(ops, i + 1) + if IsCheckMultisig(ops[i]) then {i as int} else {};
    } else {
      assert Ones(ops, i) == {} && Manys(ops, i) == {};
    }
  }

  /** The plain count: one for each single check and twenty for each multiple one. */
  lemma PlainCount(s: Data)
    ensures var ops := Ops(Instructions(s));
            SigOpCount(s, false) == |Ones(ops, 0)| + 20 * |Manys(ops, 0)|
  {
    hide SigOpCount, CostFrom, Ones, Manys;
    CountIsCost(s, false);
    PlainFrom(Ops(Instructions(s)), 0);
  }

  lemma {:induction false} SavedFrom(ops: seq<Byte>, i: nat)
    requires i <= |ops|
    ensures CostFrom(ops, i, true) <= CostFrom(ops, i, false)
    ensures CostFrom(ops, i, true) < CostFrom(ops, i, false) <==> exists j :: i <= j && Numbered(ops, j)
    decreases |ops| - i
  {
    if i < |ops| {
      SavedFrom(ops, i + 1);
      if j :| i <= j && Numbered(ops, j) {
        assert j == i || i + 1 <= j;
      }
    }
  }

  /** The accurate count is lower exactly if some CHECKMULTISIG stands right behind a small integer. */
  lemma AccurateIsLower(s: Data)
    ensures SigOpCount(s, true) < SigOpCount(s, false) <==> exists j :: Numbered(Ops(Instructions(s)), j)
  {
    hide SigOpCount, CostFrom;
    CountIsCost(s, true);
    CountIsCost(s, false);
    SavedFrom(Ops(Instructions(s)), 0);
  }

  // Multisignature scripts

  lemma CountOp(op: Byte, rest: Data, last: Byte, accurate: bool)
    requires op > OP_PUSHDATA4
    ensures SigOpsFrom([op] + rest, last, accurate) == Weight(op, last, accurate) + SigOpsFrom(rest, op, accurate)
  {
    hide Weight;
    assert Decode([op] + rest) == Some(Ins(op, [], rest)) by { assert ([op] + rest)[1..] == rest; }
  }

  lemma {:induction false} CountPushes(values: seq<Data>, op: Byte, rest: Data, last: Byte, accurate: bool)
    requires (forall v :: v in values ==> |v| < WORD) && SmallInt(op)
    ensures SigOpsFrom(PushAll(values) + ([op] + rest), last, accurate) == SigOpsFrom(rest, op, accurate)
    decreases |values|
  {
    hide PushData, Decode;
    if values == [] {
      assert PushAll(values) + ([op] + rest) == [op] + rest;
      CountOp(op, rest, last, accurate);
    } else {
      var v, more := values[0], PushAll(values[1..]);
      Assoc(PushData(v), more, [op] + rest);
      DecodePush(v, more + ([op] + rest));
      CountPushes(values[1..], op, rest, PushData(v)[0], accurate);
    }
  }

  /** A multisignature script counts for its keys, or plainly for twenty. */
  lemma MultisigCount(required: nat, keys: seq<Data>, accurate: bool)
    requires 1 <= required <= |keys| <= 16 && forall k :: k in keys ==> |k| < WORD
    ensures SigOpCount(MultisigScript(required, keys), accurate) == if accurate then |keys| else 20
  {
    hide SigOpsFrom, PushAll;
    var n: Byte := OP_1 - 1 + |keys|;
    CountOp(OP_1 - 1 + required, PushAll(keys) + ([n] + [OP_CHECKMULTISIG]), OP_INVALIDOPCODE, accurate);
    CountPushes(keys, n, [OP_CHECKMULTISIG], OP_1 - 1 + required, accurate);
    assert [OP_CHECKMULTISIG] + [] == [OP_CHECKMULTISIG];
    CountOp(OP_CHECKMULTISIG, [], n, accurate);
    assert SigOpsFrom([], OP_CHECKMULTISIG, accurate) == 0 by { CountNone(OP_CHECKMULTISIG, accurate); }
  }

  lemma CountNone(last: Byte, accurate: bool)
    ensures SigOpsFrom([], last, accurate) == 0
  {
  }

  lemma {:induction false} EveryKeyTried(env: Env, sig: Data, keys: seq<Data>, code: Data)
    requires keys != [] && forall v, k, c :: !env.checkSig(v, k, c)
    ensures Match(env, [sig], keys, code) == Tally(false, |keys|)
    decreases |keys|
  {
    if |keys| > 1 {
      EveryKeyTried(env, sig, keys[1..], code);
    }
  }

  /** The accurate count is reached: a script for one of several keys tries them all when none fits. */
  lemma CountReached(env: Env, spare: Data, sig: Data, keys: seq<Data>)
    requires 1 <= |keys| <= 16 && (forall k :: k in keys ==> |k| <= MAX_ELEMENT)
    requires |MultisigScript(1, keys)| <= MAX_SCRIPT && forall v, k, c :: !env.checkSig(v, k, c)
    ensures Evaluate(env, MultisigScript(1, keys), [spare, sig]).m.checks == SigOpCount(MultisigScript(1, keys), true)
  {
    hide Evaluate, SigOpCount, Match, MultisigScript, Unsigned;
    MultisigScriptRuns(env, spare, [sig], keys);
    assert [spare] + [sig] == [spare, sig] && Reverse([sig]) == [sig];
    EveryKeyTried(env, sig, Reverse(keys), Unsigned(MultisigScript(1, keys), [sig]));
    MultisigCount(1, keys, true);
  }

  // Inputs

  /** What an input counts for: the script it pushes last, or nothing if it does more than push. */
  lemma InputCount(scriptSig: Data, hash: Data)
    requires |hash| == 20
    ensures !(Tail(scriptSig) == [] && AllPush(Instructions(scriptSig))) ==>
              InputSigOps(ScriptHashOutput(hash), scriptSig) == 0
    ensures forall values: seq<Data>, redeem :: scriptSig == PushAll(values + [redeem]) && |scriptSig| < WORD ==>
              InputSigOps(ScriptHashOutput(hash), scriptSig) == SigOpCount(redeem, true)
  {
    hide SigOpCount, LastPush, Instructions, Tail, PushAll, ScriptHashOutput;
    ScriptHashForm(ScriptHashOutput(hash));
    LastPushIff(scriptSig, []);
    forall values: seq<Data>, redeem | scriptSig == PushAll(values + [redeem]) && |scriptSig| < WORD
      ensures InputSigOps(ScriptHashOutput(hash), scriptSig) == SigOpCount(redeem, true)
    {
      PushAllSize(values + [redeem]);
      LastPushed(values + [redeem], []);
    }
  }
}
