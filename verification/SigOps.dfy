/**
 Signature-operation counting, which limits what a script may cost before it is run, and
 VerifyScript with its pay-to-script-hash case, whose cost it must cover.
 */
module SigOps {
  import opened Bytes
  import opened Radix
  import opened BigNum
  import opened Script
  import opened Interp

  const OP_INVALIDOPCODE: Byte := 0xff

  predicate ChecksOne(op: Byte) { op == OP_CHECKSIG || op == OP_CHECKSIGVERIFY }

  predicate ChecksMany(op: Byte) { op == OP_CHECKMULTISIG || op == OP_CHECKMULTISIGVERIFY }

  predicate SmallInt(op: Byte) { OP_1 <= op <= OP_16 }

  /** What one opcode costs; the accurate count trusts a small integer standing right before it. */
  function Weight(op: Byte, last: Byte, accurate: bool): nat {
    if ChecksOne(op) then 1
    else if ChecksMany(op) then if accurate && SmallInt(last) then last - (OP_1 - 1) else 20
    else 0
  }

  function SigOpsFrom(s: Data, last: Byte, accurate: bool): nat
    decreases |s|
  {
    match Decode(s)
    case None => 0
    case Some(i) => Weight(i.op, last, accurate) + SigOpsFrom(i.after, i.op, accurate)
  }

  function SigOpCount(s: Data, accurate: bool): nat {
    SigOpsFrom(s, OP_INVALIDOPCODE, accurate)
  }

  /** CScript::GetSigOpCount(bool) */
  method GetSigOpCount(s: Data, accurate: bool) returns (n: nat)
    ensures n == SigOpCount(s, accurate)
  {
    hide Decode;
    n := 0;
    var rest, last: Byte := s, OP_INVALIDOPCODE;
    while rest != []
      invariant n + SigOpsFrom(rest, last, accurate) == SigOpCount(s, accurate)
      decreases |rest|
    {
      match Decode(rest)
      case None => return;
      case Some(i) =>
        if ChecksOne(i.op) {
          n := n + 1;
        } else if ChecksMany(i.op) {
          if accurate && SmallInt(last) {
            n := n + (last - (OP_1 - 1));
          } else {
            n := n + 20;
          }
        }
        rest, last := i.after, i.op;
    }
    assert Decode([]).None? by { NothingToDecode(); }
  }

  lemma NothingToDecode()
    ensures Decode([]).None?
  {
  }

  lemma {:induction false} AccurateIsLess(s: Data, last: Byte)
    ensures SigOpsFrom(s, last, true) <= SigOpsFrom(s, last, false)
    decreases |s|
  {
    hide Decode;
    if Decode(s).Some? {
      AccurateIsLess(Decode(s).value.after, Decode(s).value.op);
    }
  }

  lemma OneByteMagnitude(a: nat)
    requires 1 <= a <= 16
    ensures Magnitude(a) == [a]
  {
    assert a / 256 == 0 && a % 256 == a;
    var d: seq<nat> := Digits(a, 256);
    assert Digits(0, 256) == [];
    assert d == [a];
  }

  lemma SmallVch(k: int)
    requires 1 <= k <= 16 || k == -1
    ensures ToVch(k) == if k == -1 then [0x81] else [k]
    ensures CastToNum(ToVch(k)) == Some(k)
  {
    OneByteMagnitude(Abs(k));
    VchRoundTrip(k);
    hide Magnitude, FromVch;
    assert Payload(k) == if k == -1 then [0x81] else [k];
  }

  /** After a small integer ran, it lies on top of the stack. */
  predicate Linked(last: Byte, m: Machine, exec: seq<bool>) {
    SmallInt(last) && Live(exec) ==> m.stack != [] && Top(m.stack, 1) == ToVch(last - (OP_1 - 1))
  }

  lemma OthersDoNotCheck(env: Env, op: Byte, after: Data, m: Machine)
    requires !ChecksOne(op) && !ChecksMany(op)
    ensures Apply(env, op, after, m).m.checks == m.checks
  {
    hide ToVch, Truthy, CastToNum, Unary, Binary, Shuffle;
  }

  lemma ManyChecks(env: Env, verify: bool, m: Machine)
    ensures m.checks <= CheckMany(env, verify, m).m.checks <= m.checks + 20
    ensures forall k: nat :: m.stack != [] && CastToNum(Top(m.stack, 1)) == Some(k) ==>
              CheckMany(env, verify, m).m.checks <= m.checks + k
  {
    hide Match, Unsigned, CastToNum;
  }

  lemma ApplyCost(env: Env, i: Ins, m: Machine, last: Byte)
    requires Linked(last, m, [])
    ensures ApplyOrPush(env, i, m).m.checks <= m.checks + Weight(i.op, last, true)
  {
    hide Apply, CheckOne, CheckMany, ToVch, CastToNum;
    if i.op > OP_PUSHDATA4 {
      if ChecksMany(i.op) {
        ManyChecks(env, i.op == OP_CHECKMULTISIGVERIFY, m);
        if SmallInt(last) {
          SmallVch(last - (OP_1 - 1));
        }
        ApplyMany(env, i.op, i.after, m);
      } else if ChecksOne(i.op) {
        ApplyOne(env, i.op, i.after, m);
      } else {
        OthersDoNotCheck(env, i.op, i.after, m);
      }
    }
  }

  lemma ApplyMany(env: Env, op: Byte, after: Data, m: Machine)
    requires ChecksMany(op)
    ensures Apply(env, op, after, m) == CheckMany(env, op == OP_CHECKMULTISIGVERIFY, m)
  {
    hide CheckMany;
  }

  lemma ApplyOne(env: Env, op: Byte, after: Data, m: Machine)
    requires ChecksOne(op)
    ensures Apply(env, op, after, m).m.checks <= m.checks + 1
  {
  }

  lemma StepCost(env: Env, i: Ins, m: Machine, exec: seq<bool>, last: Byte)
    requires Linked(last, m, exec)
    ensures Step(env, i, m, exec).m.checks <= m.checks + Weight(i.op, last, true)
  {
    hide ApplyOrPush, Weight, ToVch, Truthy, Disabled;
    var m1 := Admit(i, m).m;
    assert m1 == m.(ops := m1.ops);
    if Live(exec) {
      ApplyCost(env, i, m1, last);
    }
  }

  lemma StepLinks(env: Env, i: Ins, m: Machine, exec: seq<bool>)
    requires Step(env, i, m, exec).Next?
    ensures Linked(i.op, Step(env, i, m, exec).m, Step(env, i, m, exec).exec)
  {
    hide ToVch, Truthy, Disabled;
    if SmallInt(i.op) && Live(exec) {
      var m1 := Admit(i, m).m;
      SmallPush(env, i, m1);
    }
  }

  /** Small integers are pushed; the one other opcode up to OP_16 stops the script. */
  lemma SmallPush(env: Env, i: Ins, m: Machine)
    requires OP_PUSHDATA4 < i.op <= OP_16
    ensures if i.op == OP_1NEGATE || SmallInt(i.op)
            then ApplyOrPush(env, i, m) == Run(With(m, m.stack + [ToVch(i.op - (OP_1 - 1))]))
            else ApplyOrPush(env, i, m).Halt?
  {
    hide ToVch;
  }

  lemma {:induction false} EvalCost(env: Env, s: Data, m: Machine, exec: seq<bool>, last: Byte)
    requires Linked(last, m, exec)
    ensures Eval(env, s, m, exec).m.checks <= m.checks + SigOpsFrom(s, last, true)
    decreases |s|
  {
    hide Step, Decode, Weight, Linked;
    if s != [] && Decode(s).Some? {
      var i := Decode(s).value;
      StepCost(env, i, m, exec, last);
      var f := Step(env, i, m, exec);
      if f.Next? {
        StepLinks(env, i, m, exec);
        EvalCost(env, i.after, f.m, f.exec, i.op);
      }
    }
  }

  /** However a run ends, it made no more signature checks than either count says. */
  lemma CountsCoverRuns(env: Env, s: Data, stack: seq<Data>)
    ensures Evaluate(env, s, stack).m.checks <= SigOpCount(s, true) <= SigOpCount(s, false)
  {
    hide Eval, SigOpsFrom;
    if |s| <= MAX_SCRIPT {
      EvalCost(env, s, Start(s, stack), [], OP_INVALIDOPCODE);
    }
    AccurateIsLess(s, OP_INVALIDOPCODE);
  }

  // Pay-to-script-hash

  /** CScript::IsPayToScriptHash */
  predicate IsPayToScriptHash(s: Data) {
    |s| == 23 && s[0] == OP_HASH160 && s[1] == 0x14 && s[22] == OP_EQUAL
  }

  /** The data of the last instruction; None unless every instruction is a push or OP_RESERVED. */
  function LastPush(s: Data, data: Data): Option<Data>
    decreases |s|
  {
    if s == [] then Some(data)
    else
      match Decode(s)
      case None => None
      case Some(i) => if i.op > OP_16 then None else LastPush(i.after, i.data)
  }

  predicate PushOnly(s: Data) {
    LastPush(s, []).Some?
  }

  /** What the redeem script of an input counts for; zero when the input could not be valid. */
  function InputSigOps(scriptPubKey: Data, scriptSig: Data): nat {
    if !IsPayToScriptHash(scriptPubKey) then SigOpCount(scriptPubKey, true)
    else
      match LastPush(scriptSig, [])
      case None => 0
      case Some(data) => SigOpCount(data, true)
  }

  /** CScript::GetSigOpCount(const CScript&) */
  method GetInputSigOps(scriptPubKey: Data, scriptSig: Data) returns (n: nat)
    ensures n == InputSigOps(scriptPubKey, scriptSig)
  {
    hide Decode, SigOpCount;
    if !IsPayToScriptHash(scriptPubKey) {
      n := GetSigOpCount(scriptPubKey, true);
      return;
    }
    var rest, data: Data := scriptSig, [];
    while rest != []
      invariant LastPush(rest, data) == LastPush(scriptSig, [])
      decreases |rest|
    {
      match Decode(rest)
      case None => return 0;
      case Some(i) =>
        if i.op > OP_16 {
          return 0;
        }
        rest, data := i.after, i.data;
    }
    n := GetSigOpCount(data, true);
  }

  /** CScript::IsPushOnly */
  method IsPushOnly(s: Data) returns (r: bool)
    ensures r == PushOnly(s)
  {
    hide Decode;
    var rest, data: Data := s, [];
    while rest != []
      invariant LastPush(rest, data) == LastPush(s, [])
      decreases |rest|
    {
      match Decode(rest)
      case None => return false;
      case Some(i) =>
        if i.op > OP_16 {
          return false;
        }
        rest, data := i.after, i.data;
    }
    return true;
  }

  /** The verdict, and the signature checks made by each of the three runs. */
  datatype Verification = Verification(ok: bool, sigChecks: nat, keyChecks: nat, redeemChecks: nat)

  predicate Accepts(o: Outcome) {
    o.Run? && o.m.stack != [] && Truthy(Top(o.m.stack, 1))
  }

  /** VerifyScript. The last item the input pushed is there to be read whenever it is read. */
  function Verify(env: Env, scriptSig: Data, scriptPubKey: Data, p2sh: bool): Verification {
    var first := Evaluate(env, scriptSig, []);
    if first.Halt? then Verification(false, first.m.checks, 0, 0)
    else
      var second := Evaluate(env, scriptPubKey, first.m.stack);
      if !Accepts(second) then Verification(false, first.m.checks, second.m.checks, 0)
      else if !p2sh || !IsPayToScriptHash(scriptPubKey) then
        Verification(true, first.m.checks, second.m.checks, 0)
      else if !PushOnly(scriptSig) then Verification(false, first.m.checks, second.m.checks, 0)
      else
        HashNeedsItem(env, scriptPubKey, first.m.stack);
        var copy := first.m.stack;
        var third := Evaluate(env, Top(copy, 1), Drop(copy, 1));
        Verification(Accepts(third), first.m.checks, second.m.checks, third.m.checks)
  }

  method VerifyScript(env: Env, scriptSig: Data, scriptPubKey: Data, p2sh: bool) returns (ok: bool)
    ensures ok == Verify(env, scriptSig, scriptPubKey, p2sh).ok
  {
    hide Evaluate, LastPush;
    var run, m := EvalScript(env, scriptSig, []);
    if !run {
      return false;
    }
    var copy := m.stack;
    run, m := EvalScript(env, scriptPubKey, copy);
    if !run || m.stack == [] {
      return false;
    }
    ok := CastToBool(Top(m.stack, 1));
    if !ok {
      return false;
    }
    if p2sh && IsPayToScriptHash(scriptPubKey) {
      var literals := IsPushOnly(scriptSig);
      if !literals {
        return false;
      }
      HashNeedsItem(env, scriptPubKey, copy);
      var redeem := Top(copy, 1);
      copy := Drop(copy, 1);
      run, m := EvalScript(env, redeem, copy);
      if !run || m.stack == [] {
        return false;
      }
      ok := CastToBool(Top(m.stack, 1));
    }
  }

  lemma HashNeedsItem(env: Env, scriptPubKey: Data, stack: seq<Data>)
    requires IsPayToScriptHash(scriptPubKey) && Evaluate(env, scriptPubKey, stack).Run?
    ensures stack != []
  {
    var i := Ins(OP_HASH160, [], scriptPubKey[1..]);
    assert Decode(scriptPubKey) == Some(i);
    HashStops(env, i, Start(scriptPubKey, stack));
  }

  lemma HashStops(env: Env, i: Ins, m: Machine)
    requires i.op == OP_HASH160 && m.ops == 0 && i.data == []
    ensures m.stack == [] ==> Step(env, i, m, []).Stop?
  {
  }

  /** The top of the stack after pushes, next to the data of the last instruction. */
  ghost predicate Agrees(top: Data, data: Data) {
    top == data || (data == [] && exists k :: (k == -1 || 1 <= k <= 16) && top == ToVch(k))
  }

  lemma PushStep(env: Env, i: Ins, m: Machine)
    requires i.op <= OP_16 && (i.op > OP_PUSHDATA4 ==> i.data == []) && Step(env, i, m, []).Next?
    ensures var f := Step(env, i, m, []);
            f.exec == [] && f.m.stack != [] && Agrees(Top(f.m.stack, 1), i.data)
  {
    hide ToVch, Truthy, Disabled;
    if i.op > OP_PUSHDATA4 {
      SmallPush(env, i, m);
    }
  }

  lemma DecodeData(s: Data)
    requires Decode(s).Some?
    ensures Decode(s).value.op > OP_PUSHDATA4 ==> Decode(s).value.data == []
  {
  }

  lemma {:induction false} TopIsLastPush(env: Env, s: Data, m: Machine, data: Data)
    requires LastPush(s, data).Some? && Eval(env, s, m, []).Run?
    requires s == [] ==> m.stack != [] && Agrees(Top(m.stack, 1), data)
    ensures var r := Eval(env, s, m, []).m;
            r.stack != [] && Agrees(Top(r.stack, 1), LastPush(s, data).value)
    decreases |s|
  {
    hide Step, Decode, Agrees;
    if s != [] {
      var i := Decode(s).value;
      DecodeData(s);
      PushStep(env, i, m);
      TopIsLastPush(env, i.after, Step(env, i, m, []).m, i.data);
    }
  }

  /** The script made of a small integer's bytes cannot even be read, or is disabled. */
  lemma SmallScriptStops(env: Env, k: int, stack: seq<Data>)
    requires k == -1 || 1 <= k <= 16
    ensures Evaluate(env, ToVch(k), stack).m.checks == 0
  {
    hide ToVch, Step;
    SmallVch(k);
    var s := ToVch(k);
    if k == -1 {
      assert Decode(s) == Some(Ins(0x81, [], []));
      DisabledStops(env, Ins(0x81, [], []), Start(s, stack));
    } else {
      assert Decode(s).None?;
    }
  }

  lemma DisabledStops(env: Env, i: Ins, m: Machine)
    requires Disabled(i.op)
    ensures Step(env, i, m, []).Stop? && Step(env, i, m, []).m.checks == m.checks
  {
  }

  /** Every run VerifyScript makes is paid for by the count made beforehand. */
  lemma VerifyIsPaidFor(env: Env, scriptSig: Data, scriptPubKey: Data, p2sh: bool)
    ensures var v := Verify(env, scriptSig, scriptPubKey, p2sh);
            && v.sigChecks <= SigOpCount(scriptSig, true)
            && v.keyChecks <= SigOpCount(scriptPubKey, true)
            && v.redeemChecks <= InputSigOps(scriptPubKey, scriptSig)
  {
    hide Evaluate, SigOpCount, LastPush, Agrees;
    CountsCoverRuns(env, scriptSig, []);
    var first := Evaluate(env, scriptSig, []);
    if first.Run? {
      CountsCoverRuns(env, scriptPubKey, first.m.stack);
      var second := Evaluate(env, scriptPubKey, first.m.stack);
      if second.Run? && IsPayToScriptHash(scriptPubKey) && PushOnly(scriptSig) {
        HashNeedsItem(env, scriptPubKey, first.m.stack);
        RedeemIsPaidFor(env, scriptSig, first.m.stack);
      }
    }
  }

  lemma RedeemIsPaidFor(env: Env, scriptSig: Data, stack: seq<Data>)
    requires Evaluate(env, scriptSig, []).Run? && Evaluate(env, scriptSig, []).m.stack == stack && stack != []
    requires PushOnly(scriptSig)
    ensures Evaluate(env, Top(stack, 1), Drop(stack, 1)).m.checks <= SigOpCount(LastPush(scriptSig, []).value, true)
  {
    hide SigOpCount, ToVch, Eval;
    var data := LastPush(scriptSig, []).value;
    EmptyInput(env);
    TopIsLastPush(env, scriptSig, Start(scriptSig, []), []);
    if Top(stack, 1) == data {
      CountsCoverRuns(env, data, Drop(stack, 1));
    } else {
      var k :| (k == -1 || 1 <= k <= 16) && Top(stack, 1) == ToVch(k);
      SmallScriptStops(env, k, Drop(stack, 1));
    }
  }

  lemma EmptyInput(env: Env)
    ensures Evaluate(env, [], []).m.stack == []
  {
  }
}
