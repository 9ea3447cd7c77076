/**
 The script machine: what one opcode does, and EvalScript's loop over a script with its flat
 stack of conditions. Signature checks and hashes are parameters. An outcome keeps the machine
 as it stood when the run ended, also when the script was refused.
 */
module Interp {
  import opened Bytes
  import opened Radix
  import opened BigNum
  import opened Script

  const OP_NOP: Byte := 0x61
  const OP_IF: Byte := 0x63
  const OP_NOTIF: Byte := 0x64
  const OP_ELSE: Byte := 0x67
  const OP_ENDIF: Byte := 0x68
  const OP_VERIFY: Byte := 0x69
  const OP_TOALTSTACK: Byte := 0x6b
  const OP_FROMALTSTACK: Byte := 0x6c
  const OP_2DROP: Byte := 0x6d
  const OP_2DUP: Byte := 0x6e
  const OP_3DUP: Byte := 0x6f
  const OP_2OVER: Byte := 0x70
  const OP_2ROT: Byte := 0x71
  const OP_2SWAP: Byte := 0x72
  const OP_IFDUP: Byte := 0x73
  const OP_DEPTH: Byte := 0x74
  const OP_DROP: Byte := 0x75
  const OP_DUP: Byte := 0x76
  const OP_NIP: Byte := 0x77
  const OP_OVER: Byte := 0x78
  const OP_PICK: Byte := 0x79
  const OP_ROLL: Byte := 0x7a
  const OP_ROT: Byte := 0x7b
  const OP_SWAP: Byte := 0x7c
  const OP_TUCK: Byte := 0x7d
  const OP_CAT: Byte := 0x7e
  const OP_RIGHT: Byte := 0x81
  const OP_SIZE: Byte := 0x82
  const OP_INVERT: Byte := 0x83
  const OP_XOR: Byte := 0x86
  const OP_EQUAL: Byte := 0x87
  const OP_EQUALVERIFY: Byte := 0x88
  const OP_1ADD: Byte := 0x8b
  const OP_1SUB: Byte := 0x8c
  const OP_2MUL: Byte := 0x8d
  const OP_2DIV: Byte := 0x8e
  const OP_NEGATE: Byte := 0x8f
  const OP_ABS: Byte := 0x90
  const OP_NOT: Byte := 0x91
  const OP_0NOTEQUAL: Byte := 0x92
  const OP_ADD: Byte := 0x93
  const OP_SUB: Byte := 0x94
  const OP_MUL: Byte := 0x95
  const OP_RSHIFT: Byte := 0x99
  const OP_BOOLAND: Byte := 0x9a
  const OP_BOOLOR: Byte := 0x9b
  const OP_NUMEQUAL: Byte := 0x9c
  const OP_NUMEQUALVERIFY: Byte := 0x9d
  const OP_NUMNOTEQUAL: Byte := 0x9e
  const OP_LESSTHAN: Byte := 0x9f
  const OP_GREATERTHAN: Byte := 0xa0
  const OP_LESSTHANOREQUAL: Byte := 0xa1
  const OP_GREATERTHANOREQUAL: Byte := 0xa2
  const OP_MIN: Byte := 0xa3
  const OP_MAX: Byte := 0xa4
  const OP_WITHIN: Byte := 0xa5
  const OP_RIPEMD160: Byte := 0xa6
  const OP_HASH160: Byte := 0xa9
  const OP_HASH256: Byte := 0xaa
  const OP_CODESEPARATOR: Byte := 0xab
  const OP_CHECKSIG: Byte := 0xac
  const OP_CHECKSIGVERIFY: Byte := 0xad
  const OP_CHECKMULTISIG: Byte := 0xae
  const OP_CHECKMULTISIGVERIFY: Byte := 0xaf
  const OP_NOP1: Byte := 0xb0
  const OP_NOP10: Byte := 0xb9

  const MAX_SCRIPT := 10000
  const MAX_ELEMENT := 520
  const MAX_OPS := 201
  const MAX_STACK := 1000

  /** What the script cannot decide: whether a signature is good for a key and a script, and the hashes. */
  datatype Env = Env(checkSig: (Data, Data, Data) -> bool, digest: (Byte, Data) -> Data)

  /** code is the script from the last code separator on; checks counts the CheckSig calls made. */
  datatype Machine = Machine(stack: seq<Data>, alt: seq<Data>, ops: nat, code: Data, checks: nat)

  datatype Outcome = Run(m: Machine) | Halt(m: Machine)

  /** CastToBool: any set bit counts, except a lone sign bit at the end. */
  predicate Truthy(v: Data) {
    exists i :: 0 <= i < |v| && v[i] != 0 && (i < |v| - 1 || v[i] != 0x80)
  }

  function BoolData(b: bool): Data {
    if b then [1] else []
  }

  function ToNum(b: bool): int {
    if b then 1 else 0
  }

  /** CastToBigNum; None is the overflow exception. */
  function CastToNum(v: Data): Option<int> {
    if |v| > 4 then None else Some(FromVch(v))
  }

  /** The i-th item from the top, counting from one. */
  function Top(s: seq<Data>, i: nat): Data
    requires 1 <= i <= |s|
  {
    s[|s| - i]
  }

  function Drop(s: seq<Data>, n: nat): (r: seq<Data>)
    requires n <= |s|
    ensures |r| == |s| - n
  {
    s[..|s| - n]
  }

  function With(m: Machine, stack: seq<Data>): Machine {
    m.(stack := stack)
  }

  /** Opcodes that only move stack items: the items taken from the top, and what replaces them. */
  function Shuffle(op: Byte, s: seq<Data>): Option<seq<Data>> {
    var n := |s|;
    if op == OP_2DROP then if n < 2 then None else Some(Drop(s, 2))
    else if op == OP_2DUP then if n < 2 then None else Some(s + [Top(s, 2), Top(s, 1)])
    else if op == OP_3DUP then if n < 3 then None else Some(s + [Top(s, 3), Top(s, 2), Top(s, 1)])
    else if op == OP_2OVER then if n < 4 then None else Some(s + [Top(s, 4), Top(s, 3)])
    else if op == OP_2ROT then
      if n < 6 then None
      else Some(Drop(s, 6) + [Top(s, 4), Top(s, 3), Top(s, 2), Top(s, 1), Top(s, 6), Top(s, 5)])
    else if op == OP_2SWAP then
      if n < 4 then None else Some(Drop(s, 4) + [Top(s, 2), Top(s, 1), Top(s, 4), Top(s, 3)])
    else if op == OP_IFDUP then if n < 1 then None else Some(if Truthy(Top(s, 1)) then s + [Top(s, 1)] else s)
    else if op == OP_DEPTH then Some(s + [ToVch(n)])
    else if op == OP_DROP then if n < 1 then None else Some(Drop(s, 1))
    else if op == OP_DUP then if n < 1 then None else Some(s + [Top(s, 1)])
    else if op == OP_NIP then if n < 2 then None else Some(Drop(s, 2) + [Top(s, 1)])
    else if op == OP_OVER then if n < 2 then None else Some(s + [Top(s, 2)])
    else if op == OP_ROT then if n < 3 then None else Some(Drop(s, 3) + [Top(s, 2), Top(s, 1), Top(s, 3)])
    else if op == OP_SWAP then if n < 2 then None else Some(Drop(s, 2) + [Top(s, 1), Top(s, 2)])
    else if op == OP_TUCK then if n < 2 then None else Some(Drop(s, 2) + [Top(s, 1), Top(s, 2), Top(s, 1)])
    else if op == OP_SIZE then if n < 1 then None else Some(s + [ToVch(|Top(s, 1)|)])
    else None
  }

  /** OP_PICK and OP_ROLL: the index is popped before it is checked. */
  function PickRoll(op: Byte, m: Machine): Outcome {
    var s := m.stack;
    if |s| < 2 then Halt(m)
    else
      match CastToNum(Top(s, 1))
      case None => Halt(m)
      case Some(n) =>
        var t := Drop(s, 1);
        if n < 0 || n >= |t| then Halt(With(m, t))
        else if op == OP_ROLL then Run(With(m, t[..|t| - n - 1] + t[|t| - n..] + [t[|t| - n - 1]]))
        else Run(With(m, t + [t[|t| - n - 1]]))
  }

  function Unary(op: Byte, n: int): Option<int> {
    if op == OP_1ADD then Some(n + 1)
    else if op == OP_1SUB then Some(n - 1)
    else if op == OP_NEGATE then Some(-n)
    else if op == OP_ABS then Some(Abs(n))
    else if op == OP_NOT then Some(ToNum(n == 0))
    else if op == OP_0NOTEQUAL then Some(ToNum(n != 0))
    else None
  }

  function Binary(op: Byte, a: int, b: int): Option<int> {
    if op == OP_ADD then Some(a + b)
    else if op == OP_SUB then Some(a - b)
    else if op == OP_BOOLAND then Some(ToNum(a != 0 && b != 0))
    else if op == OP_BOOLOR then Some(ToNum(a != 0 || b != 0))
    else if op == OP_NUMEQUAL || op == OP_NUMEQUALVERIFY then Some(ToNum(a == b))
    else if op == OP_NUMNOTEQUAL then Some(ToNum(a != b))
    else if op == OP_LESSTHAN then Some(ToNum(a < b))
    else if op == OP_GREATERTHAN then Some(ToNum(a > b))
    else if op == OP_LESSTHANOREQUAL then Some(ToNum(a <= b))
    else if op == OP_GREATERTHANOREQUAL then Some(ToNum(a >= b))
    else if op == OP_MIN then Some(if a < b then a else b)
    else if op == OP_MAX then Some(if a > b then a else b)
    else None
  }

  /** The ...VERIFY forms: a false result stays on the stack and refuses the script. */
  function Verified(verify: bool, ok: bool, m: Machine, rest: seq<Data>, result: Data): Outcome {
    if !verify then Run(With(m, rest + [result]))
    else if ok then Run(With(m, rest))
    else Halt(With(m, rest + [result]))
  }

  function Numeric(op: Byte, m: Machine): Outcome {
    var s := m.stack;
    if OP_1ADD <= op <= OP_0NOTEQUAL then
      if |s| < 1 then Halt(m)
      else
        match CastToNum(Top(s, 1))
        case None => Halt(m)
        case Some(n) =>
          match Unary(op, n)
          case None => Halt(m)
          case Some(r) => Run(With(m, Drop(s, 1) + [ToVch(r)]))
    else if OP_ADD <= op <= OP_MAX then
      if |s| < 2 then Halt(m)
      else
        match (CastToNum(Top(s, 2)), CastToNum(Top(s, 1)))
        case (Some(a), Some(b)) =>
          (match Binary(op, a, b)
           case None => Halt(m)
           case Some(r) => Verified(op == OP_NUMEQUALVERIFY, Truthy(ToVch(r)), m, Drop(s, 2), ToVch(r)))
        case _ => Halt(m)
    else if op == OP_WITHIN then
      if |s| < 3 then Halt(m)
      else
        match (CastToNum(Top(s, 3)), CastToNum(Top(s, 2)), CastToNum(Top(s, 1)))
        case (Some(x), Some(low), Some(high)) =>
          Run(With(m, Drop(s, 3) + [BoolData(low <= x < high)]))
        case _ => Halt(m)
    else Halt(m)
  }

  /** The script signed over, with the signatures themselves cut out. */
  function Unsigned(code: Data, sigs: seq<Data>): Data
    decreases |sigs|
  {
    if sigs == [] then code else Unsigned(Stripped(code, PushData(sigs[0])), sigs[1..])
  }

  function CheckOne(env: Env, verify: bool, m: Machine): Outcome {
    var s := m.stack;
    if |s| < 2 then Halt(m)
    else
      var sig, key := Top(s, 2), Top(s, 1);
      var ok := env.checkSig(sig, key, Unsigned(m.code, [sig]));
      Verified(verify, ok, m.(checks := m.checks + 1), Drop(s, 2), BoolData(ok))
  }

  datatype Tally = Tally(ok: bool, checks: nat)

  /** The CHECKMULTISIG loop: each key is tried once, on the first signature not yet matched. */
  function Match(env: Env, sigs: seq<Data>, keys: seq<Data>, code: Data): (t: Tally)
    requires |sigs| <= |keys|
    ensures t.checks <= |keys|
    decreases |keys|
  {
    if sigs == [] then Tally(true, 0)
    else
      var left := if env.checkSig(sigs[0], keys[0], code) then sigs[1..] else sigs;
      if |left| > |keys| - 1 then Tally(false, 1)
      else
        var t := Match(env, left, keys[1..], code);
        Tally(t.ok, t.checks + 1)
  }

  /** count items of the stack, from the one at depth from (one is the top) downwards. */
  function Below(s: seq<Data>, from: nat, count: nat): (r: seq<Data>)
    requires 1 <= from && from + count - 1 <= |s|
    ensures |r| == count && forall j :: 0 <= j < count ==> r[j] == s[|s| - from - j]
  {
    seq(count, j requires 0 <= j < count => s[|s| - from - j])
  }

  function CheckMany(env: Env, verify: bool, m: Machine): Outcome {
    var s := m.stack;
    if |s| < 1 || CastToNum(Top(s, 1)).None? then Halt(m)
    else
      var n := CastToNum(Top(s, 1)).value;
      if n < 0 || n > 20 then Halt(m)
      else
        var m1 := m.(ops := m.ops + n);
        if m1.ops > MAX_OPS || |s| < 2 + n || CastToNum(Top(s, 2 + n)).None? then Halt(m1)
        else
          var k := CastToNum(Top(s, 2 + n)).value;
          if k < 0 || k > n || |s| < 3 + n + k then Halt(m1)
          else
            var sigs := Below(s, 3 + n, k);
            var t := Match(env, sigs, Below(s, 2, n), Unsigned(m.code, sigs));
            Verified(verify, t.ok, m1.(checks := m.checks + t.checks), Drop(s, 3 + n + k), BoolData(t.ok))
  }

  /** Any opcode but the pushes and the conditionals. */
  function Apply(env: Env, op: Byte, after: Data, m: Machine): Outcome {
    var s := m.stack;
    if op == OP_1NEGATE || OP_1 <= op <= OP_16 then Run(With(m, s + [ToVch(op - (OP_1 - 1))]))
    else if op == OP_NOP || OP_NOP1 <= op <= OP_NOP10 then Run(m)
    else if op == OP_VERIFY then
      if |s| < 1 || !Truthy(Top(s, 1)) then Halt(m) else Run(With(m, Drop(s, 1)))
    else if op == OP_TOALTSTACK then
      if |s| < 1 then Halt(m) else Run(m.(stack := Drop(s, 1), alt := m.alt + [Top(s, 1)]))
    else if op == OP_FROMALTSTACK then
      if |m.alt| < 1 then Halt(m) else Run(m.(stack := s + [Top(m.alt, 1)], alt := Drop(m.alt, 1)))
    else if op == OP_PICK || op == OP_ROLL then PickRoll(op, m)
    else if OP_2DROP <= op <= OP_TUCK || op == OP_SIZE then
      (match Shuffle(op, s)
       case None => Halt(m)
       case Some(t) => Run(With(m, t)))
    else if op == OP_EQUAL || op == OP_EQUALVERIFY then
      if |s| < 2 then Halt(m)
      else
        var same := Top(s, 2) == Top(s, 1);
        Verified(op == OP_EQUALVERIFY, same, m, Drop(s, 2), BoolData(same))
    else if OP_1ADD <= op <= OP_WITHIN then Numeric(op, m)
    else if OP_RIPEMD160 <= op <= OP_HASH256 then
      if |s| < 1 then Halt(m) else Run(With(m, Drop(s, 1) + [env.digest(op, Top(s, 1))]))
    else if op == OP_CODESEPARATOR then Run(m.(code := after))
    else if op == OP_CHECKSIG || op == OP_CHECKSIGVERIFY then CheckOne(env, op == OP_CHECKSIGVERIFY, m)
    else if op == OP_CHECKMULTISIG || op == OP_CHECKMULTISIGVERIFY then
      CheckMany(env, op == OP_CHECKMULTISIGVERIFY, m)
    else Halt(m)
  }

  /** Opcodes refused wherever they stand, executed or not. */
  predicate Disabled(op: Byte) {
    || OP_CAT <= op <= OP_RIGHT
    || OP_INVERT <= op <= OP_XOR
    || op == OP_2MUL || op == OP_2DIV
    || OP_MUL <= op <= OP_RSHIFT
  }

  datatype Ins = Ins(op: Byte, data: Data, after: Data)

  /** Checks made on every instruction before it is looked at further. */
  function Admit(i: Ins, m: Machine): Outcome {
    if |i.data| > MAX_ELEMENT then Halt(m)
    else
      var m1 := if i.op > OP_16 then m.(ops := m.ops + 1) else m;
      if (i.op > OP_16 && m1.ops > MAX_OPS) || Disabled(i.op) then Halt(m1) else Run(m1)
  }

  /** The size check made after every instruction. */
  function Settle(o: Outcome): Outcome {
    if o.Run? && |o.m.stack| + |o.m.alt| > MAX_STACK then Halt(o.m) else o
  }

  function ApplyOrPush(env: Env, i: Ins, m: Machine): Outcome {
    if i.op <= OP_PUSHDATA4 then Run(With(m, m.stack + [i.data])) else Apply(env, i.op, i.after, m)
  }

  predicate Live(exec: seq<bool>) {
    forall j :: 0 <= j < |exec| ==> exec[j]
  }

  /** The machine and the condition stack after one instruction. */
  datatype Flow = Next(m: Machine, exec: seq<bool>) | Stop(m: Machine)

  function Flowing(o: Outcome, exec: seq<bool>): Flow {
    match Settle(o)
    case Run(m) => Next(m, exec)
    case Halt(m) => Stop(m)
  }

  /** One pass of EvalScript's loop. */
  function Step(env: Env, i: Ins, m: Machine, exec: seq<bool>): Flow {
    match Admit(i, m)
    case Halt(m1) => Stop(m1)
    case Run(m1) =>
      if i.op == OP_IF || i.op == OP_NOTIF then
        if !Live(exec) then Flowing(Run(m1), exec + [false])
        else if |m1.stack| < 1 then Stop(m1)
        else
          var value := Truthy(Top(m1.stack, 1)) != (i.op == OP_NOTIF);
          Flowing(Run(With(m1, Drop(m1.stack, 1))), exec + [value])
      else if i.op == OP_ELSE then
        if exec == [] then Stop(m1) else Flowing(Run(m1), exec[|exec| - 1 := !exec[|exec| - 1]])
      else if i.op == OP_ENDIF then
        if exec == [] then Stop(m1) else Flowing(Run(m1), exec[..|exec| - 1])
      else if Live(exec) then Flowing(ApplyOrPush(env, i, m1), exec)
      else if OP_IF <= i.op <= OP_ENDIF then Stop(m1)
      else Flowing(Run(m1), exec)
  }

  /** The instruction at the front of s, with what follows it. */
  function Decode(s: Data): (i: Option<Ins>)
    ensures i.Some? ==> |i.value.after| < |s|
  {
    match GetOp(s)
    case Unreadable => None
    case Fetched(op, data, size) => Some(Ins(op, data, s[size..]))
  }

  /** EvalScript from any point on: refused where it cannot be read or a conditional is left open. */
  function Eval(env: Env, s: Data, m: Machine, exec: seq<bool>): Outcome
    decreases |s|
  {
    if s == [] then if exec == [] then Run(m) else Halt(m)
    else
      match Decode(s)
      case None => Halt(m)
      case Some(i) =>
        match Step(env, i, m, exec)
        case Stop(m') => Halt(m')
        case Next(m', exec') => Eval(env, i.after, m', exec')
  }

  function Start(script: Data, stack: seq<Data>): Machine {
    Machine(stack, [], 0, script, 0)
  }

  function Evaluate(env: Env, script: Data, stack: seq<Data>): Outcome {
    if |script| > MAX_SCRIPT then Halt(Start(script, stack))
    else Eval(env, script, Start(script, stack), [])
  }

  /** CastToBool */
  method CastToBool(v: Data) returns (r: bool)
    ensures r == Truthy(v)
  {
    for i := 0 to |v|
      invariant forall j :: 0 <= j < i ==> v[j] == 0
    {
      if v[i] != 0 {
        if i == |v| - 1 && v[i] == 0x80 {
          return false;
        }
        return true;
      }
    }
    return false;
  }

  /** The loop of CHECKMULTISIG, on the signatures and keys below the top of the stack. */
  method MatchSignatures(env: Env, sigs: seq<Data>, keys: seq<Data>, code: Data) returns (ok: bool, checks: nat)
    requires |sigs| <= |keys|
    ensures Tally(ok, checks) == Match(env, sigs, keys, code)
  {
    var isig, ikey := 0, 0;
    ok, checks := true, 0;
    assert sigs[0..] == sigs && keys[0..] == keys;
    while ok && isig < |sigs|
      invariant isig <= |sigs| && ikey <= |keys| && checks == ikey
      invariant ok ==> |sigs| - isig <= |keys| - ikey
      invariant ok ==> var t := Match(env, sigs[isig..], keys[ikey..], code);
                       Match(env, sigs, keys, code) == Tally(t.ok, checks + t.checks)
      invariant !ok ==> Match(env, sigs, keys, code) == Tally(false, checks)
      decreases |keys| - ikey
    {
      if env.checkSig(sigs[isig], keys[ikey], code) {
        assert sigs[isig..][1..] == sigs[isig + 1..];
        isig := isig + 1;
      }
      assert keys[ikey..][1..] == keys[ikey + 1..];
      ikey := ikey + 1;
      checks := checks + 1;
      if |sigs| - isig > |keys| - ikey {
        ok := false;
      }
    }
  }

  /** Dropping the signatures from the script that was signed. */
  method DropSignatures(code: Data, sigs: seq<Data>) returns (r: Data)
    ensures r == Unsigned(code, sigs)
  {
    var script := new Builder();
    script.bytes := code;
    assert sigs[0..] == sigs;
    for k := 0 to |sigs|
      invariant Unsigned(script.bytes, sigs[k..]) == Unsigned(code, sigs)
    {
      assert sigs[k..][1..] == sigs[k + 1..];
      var found := script.FindAndDelete(PushData(sigs[k]));
    }
    r := script.bytes;
  }

  // The instructions, as they are carried out

  function Swap(s: seq<Data>, a: nat, b: nat): (r: seq<Data>)
    requires a < |s| && b < |s|
    ensures |r| == |s|
  {
    s[a := s[b]][b := s[a]]
  }

  /** The opcodes that copy or drop items. */
  method CopyOp(op: Byte, s: seq<Data>) returns (r: Option<seq<Data>>)
    requires op in {OP_2DROP, OP_2DUP, OP_3DUP, OP_2OVER, OP_IFDUP, OP_DEPTH, OP_DROP, OP_DUP, OP_OVER, OP_SIZE}
    ensures r == Shuffle(op, s)
  {
    hide Truthy, ToVch;
    var n, stack := |s|, s;
    if op == OP_DEPTH {
      var size := GetVch(n);
      stack := stack + [size];
    } else if n < 1 {
      return None;
    } else if op == OP_DROP {
      stack := stack[..n - 1];
    } else if op == OP_DUP {
      stack := stack + [s[n - 1]];
    } else if op == OP_IFDUP {
      var value := CastToBool(s[n - 1]);
      if value {
        stack := stack + [s[n - 1]];
      }
    } else if op == OP_SIZE {
      var size := GetVch(|s[n - 1]|);
      stack := stack + [size];
    } else if n < 2 {
      return None;
    } else if op == OP_2DROP {
      stack := stack[..n - 1];
      stack := stack[..n - 2];
    } else if op == OP_2DUP {
      stack := stack + [s[n - 2]];
      stack := stack + [s[n - 1]];
    } else if op == OP_OVER {
      stack := stack + [s[n - 2]];
    } else if op == OP_3DUP {
      if n < 3 {
        return None;
      }
      stack := stack + [s[n - 3]];
      stack := stack + [s[n - 2]];
      stack := stack + [s[n - 1]];
    } else {
      if n < 4 {
        return None;
      }
      stack := stack + [s[n - 4]];
      stack := stack + [s[n - 3]];
    }
    r := Some(stack);
    assert stack == Shuffle(op, s).value;
  }

  /** The opcodes that change the order of items. */
  method OrderOp(op: Byte, s: seq<Data>) returns (r: Option<seq<Data>>)
    requires op in {OP_2ROT, OP_2SWAP, OP_NIP, OP_ROT, OP_SWAP, OP_TUCK}
    ensures r == Shuffle(op, s)
  {
    hide Truthy, ToVch;
    var n, stack := |s|, s;
    if n < 2 {
      return None;
    } else if op == OP_NIP {
      stack := stack[..n - 2] + stack[n - 1..];
    } else if op == OP_SWAP {
      stack := Swap(stack, n - 2, n - 1);
    } else if op == OP_TUCK {
      stack := stack[..n - 2] + [s[n - 1]] + stack[n - 2..];
    } else if n < 3 {
      return None;
    } else if op == OP_ROT {
      stack := Swap(stack, n - 3, n - 2);
      stack := Swap(stack, n - 2, n - 1);
    } else if n < 4 {
      return None;
    } else if op == OP_2SWAP {
      stack := Swap(stack, n - 4, n - 2);
      stack := Swap(stack, n - 3, n - 1);
    } else {
      if n < 6 {
        return None;
      }
      stack := stack[..n - 6] + stack[n - 4..];
      stack := stack + [s[n - 6]];
      stack := stack + [s[n - 5]];
    }
    r := Some(stack);
    assert stack == Shuffle(op, s).value;
  }

  method PickRollOp(op: Byte, m: Machine) returns (o: Outcome)
    requires op == OP_PICK || op == OP_ROLL
    ensures o == PickRoll(op, m)
  {
    var stack := m.stack;
    if |stack| < 2 {
      return Halt(m);
    }
    var index := CastToNum(Top(stack, 1));
    if index.None? {
      return Halt(m);
    }
    var n := index.value;
    stack := Drop(stack, 1);
    if n < 0 || n >= |stack| {
      return Halt(With(m, stack));
    }
    var place := |stack| - n - 1;
    var item := stack[place];
    if op == OP_ROLL {
      stack := stack[..place] + stack[place + 1..];
    }
    stack := stack + [item];
    o := Run(With(m, stack));
  }

  /** Pushing the result of a check, and in the verifying form taking it off again or stopping. */
  method PushResult(verify: bool, ok: bool, m: Machine, rest: seq<Data>, result: Data) returns (o: Outcome)
    ensures o == Verified(verify, ok, m, rest, result)
  {
    var stack := rest + [result];
    if verify {
      if !ok {
        return Halt(With(m, stack));
      }
      stack := stack[..|stack| - 1];
      assert stack == rest;
    }
    o := Run(With(m, stack));
  }

  /** OP_CHECKSIG and OP_CHECKSIGVERIFY */
  method CheckSigOp(env: Env, verify: bool, m: Machine) returns (o: Outcome)
    ensures o == CheckOne(env, verify, m)
  {
    var stack := m.stack;
    if |stack| < 2 {
      return Halt(m);
    }
    var sig, key := Top(stack, 2), Top(stack, 1);
    var code := DropSignatures(m.code, [sig]);
    var ok := env.checkSig(sig, key, code);
    o := PushResult(verify, ok, m.(checks := m.checks + 1), Drop(stack, 2), BoolData(ok));
  }

  /** OP_CHECKMULTISIG and OP_CHECKMULTISIGVERIFY: keys, then signatures, are counted off from the top. */
  method CheckMultisigOp(env: Env, verify: bool, m: Machine) returns (o: Outcome)
    ensures o == CheckMany(env, verify, m)
  {
    hide CastToNum, Match, Unsigned;
    var stack, i := m.stack, 1;
    if |stack| < i || CastToNum(Top(stack, i)).None? {
      return Halt(m);
    }
    var keyCount := CastToNum(Top(stack, i)).value;
    if keyCount < 0 || keyCount > 20 {
      return Halt(m);
    }
    var counted := m.(ops := m.ops + keyCount);
    if counted.ops > MAX_OPS {
      return Halt(counted);
    }
    i := i + 1;
    var ikey := i;
    i := i + keyCount;
    if |stack| < i || CastToNum(Top(stack, i)).None? {
      return Halt(counted);
    }
    var sigCount := CastToNum(Top(stack, i)).value;
    if sigCount < 0 || sigCount > keyCount {
      return Halt(counted);
    }
    i := i + 1;
    var isig := i;
    i := i + sigCount;
    if |stack| < i {
      return Halt(counted);
    }
    var sigs, keys := Below(stack, isig, sigCount), Below(stack, ikey, keyCount);
    var code := DropSignatures(m.code, sigs);
    var ok, checks := MatchSignatures(env, sigs, keys, code);
    o := PushResult(verify, ok, counted.(checks := m.checks + checks), Drop(stack, i), BoolData(ok));
  }

  /** The arithmetic opcodes: operands are read, the result is written back as a number. */
  method NumericOp(op: Byte, m: Machine) returns (o: Outcome)
    requires OP_1ADD <= op <= OP_WITHIN
    ensures o == Numeric(op, m)
  {
    hide CastToNum, ToVch, Truthy, Unary, Binary, Verified;
    var stack := m.stack;
    var count := if op <= OP_0NOTEQUAL then 1 else if op <= OP_MAX then 2 else 3;
    if |stack| < count {
      return Halt(m);
    }
    var last := CastToNum(Top(stack, 1));
    if last.None? {
      return Halt(m);
    }
    var result := Unary(op, last.value);
    if count >= 2 {
      var before := CastToNum(Top(stack, 2));
      if before.None? {
        return Halt(m);
      }
      result := Binary(op, before.value, last.value);
      if count == 3 {
        var first := CastToNum(Top(stack, 3));
        if first.None? {
          return Halt(m);
        }
        var within := before.value <= first.value && first.value < last.value;
        return Run(With(m, Drop(stack, 3) + [BoolData(within)]));
      }
    }
    if result.None? {
      return Halt(m);
    }
    var item := GetVch(result.value);
    var value := CastToBool(item);
    o := PushResult(op == OP_NUMEQUALVERIFY, value, m, Drop(stack, count), item);
    NotVerifying(value, m, Drop(stack, count), item);
  }

  lemma NotVerifying(ok: bool, m: Machine, rest: seq<Data>, result: Data)
    ensures Verified(false, ok, m, rest, result) == Run(With(m, rest + [result]))
  {
  }

  /** Any opcode but the pushes and the conditionals. */
  method ApplyOp(env: Env, op: Byte, after: Data, m: Machine) returns (o: Outcome)
    ensures o == Apply(env, op, after, m)
  {
    hide Truthy, ToVch, Shuffle, PickRoll, CheckOne, CheckMany, Numeric, Verified;
    var stack := m.stack;
    if op == OP_1NEGATE || OP_1 <= op <= OP_16 {
      var number := GetVch(op - (OP_1 - 1));
      o := Run(With(m, stack + [number]));
    } else if op == OP_NOP || OP_NOP1 <= op <= OP_NOP10 {
      o := Run(m);
    } else if op == OP_VERIFY {
      if |stack| < 1 {
        return Halt(m);
      }
      var value := CastToBool(Top(stack, 1));
      o := if value then Run(With(m, Drop(stack, 1))) else Halt(m);
    } else if op == OP_PICK || op == OP_ROLL {
      o := PickRollOp(op, m);
    } else if op in {OP_2ROT, OP_2SWAP, OP_NIP, OP_ROT, OP_SWAP, OP_TUCK} {
      var moved := OrderOp(op, stack);
      o := if moved.None? then Halt(m) else Run(With(m, moved.value));
    } else if OP_2DROP <= op <= OP_TUCK || op == OP_SIZE {
      var moved := CopyOp(op, stack);
      o := if moved.None? then Halt(m) else Run(With(m, moved.value));
    } else if op == OP_EQUAL || op == OP_EQUALVERIFY {
      if |stack| < 2 {
        return Halt(m);
      }
      var same := Top(stack, 2) == Top(stack, 1);
      o := PushResult(op == OP_EQUALVERIFY, same, m, Drop(stack, 2), BoolData(same));
    } else if op == OP_CHECKSIG || op == OP_CHECKSIGVERIFY {
      o := CheckSigOp(env, op == OP_CHECKSIGVERIFY, m);
    } else if op == OP_CHECKMULTISIG || op == OP_CHECKMULTISIGVERIFY {
      o := CheckMultisigOp(env, op == OP_CHECKMULTISIGVERIFY, m);
    } else if op == OP_TOALTSTACK {
      if |stack| < 1 {
        return Halt(m);
      }
      o := Run(m.(stack := Drop(stack, 1), alt := m.alt + [Top(stack, 1)]));
    } else if op == OP_FROMALTSTACK {
      if |m.alt| < 1 {
        return Halt(m);
      }
      o := Run(m.(stack := stack + [Top(m.alt, 1)], alt := Drop(m.alt, 1)));
    } else if OP_1ADD <= op <= OP_WITHIN {
      o := NumericOp(op, m);
    } else if OP_RIPEMD160 <= op <= OP_HASH256 {
      if |stack| < 1 {
        return Halt(m);
      }
      o := Run(With(m, Drop(stack, 1) + [env.digest(op, Top(stack, 1))]));
    } else {
      o := if op == OP_CODESEPARATOR then Run(m.(code := after)) else Halt(m);
    }
  }

  /** Whether no condition on the stack is false. */
  method AllTrue(exec: seq<bool>) returns (live: bool)
    ensures live == Live(exec)
  {
    for j := 0 to |exec|
      invariant forall k :: 0 <= k < j ==> exec[k]
    {
      if !exec[j] {
        return false;
      }
    }
    return true;
  }

  /** One pass of the loop, after the instruction was read. */
  method StepOver(env: Env, i: Ins, m: Machine, exec: seq<bool>) returns (f: Flow)
    ensures f == Step(env, i, m, exec)
  {
    hide Truthy, Apply, Disabled, Live;
    var live := AllTrue(exec);
    if |i.data| > MAX_ELEMENT {
      return Stop(m);
    }
    var m1 := m;
    if i.op > OP_16 {
      m1 := m.(ops := m.ops + 1);
      if m1.ops > MAX_OPS {
        return Stop(m1);
      }
    }
    if Disabled(i.op) {
      return Stop(m1);
    }
    var conditions := exec;
    if i.op == OP_IF || i.op == OP_NOTIF {
      var value := false;
      if live {
        if |m1.stack| < 1 {
          return Stop(m1);
        }
        value := CastToBool(Top(m1.stack, 1));
        if i.op == OP_NOTIF {
          value := !value;
        }
        m1 := With(m1, Drop(m1.stack, 1));
      }
      conditions := conditions + [value];
    } else if i.op == OP_ELSE {
      if conditions == [] {
        return Stop(m1);
      }
      conditions := conditions[|exec| - 1 := !conditions[|exec| - 1]];
    } else if i.op == OP_ENDIF {
      if conditions == [] {
        return Stop(m1);
      }
      conditions := conditions[..|exec| - 1];
    } else if live {
      var o := Run(With(m1, m1.stack + [i.data]));
      if i.op > OP_PUSHDATA4 {
        o := ApplyOp(env, i.op, i.after, m1);
      }
      if o.Halt? {
        return Stop(o.m);
      }
      m1 := o.m;
    } else if OP_IF <= i.op <= OP_ENDIF {
      return Stop(m1);
    }
    f := if |m1.stack| + |m1.alt| > MAX_STACK then Stop(m1) else Next(m1, conditions);
  }

  /** EvalScript itself: ok is the verdict, m the machine when it was reached. */
  method EvalScript(env: Env, script: Data, stack: seq<Data>) returns (ok: bool, m: Machine)
    ensures Evaluate(env, script, stack) == if ok then Run(m) else Halt(m)
  {
    hide Step, Decode;
    m := Start(script, stack);
    if |script| > MAX_SCRIPT {
      return false, m;
    }
    var pc, exec: seq<bool> := 0, [];
    assert script[0..] == script;
    while pc < |script|
      invariant pc <= |script|
      invariant Eval(env, script[pc..], m, exec) == Evaluate(env, script, stack)
    {
      var rest := script[pc..];
      match Decode(rest)
      case None => return false, m;
      case Some(i) =>
        var flow := StepOver(env, i, m, exec);
        match flow {
          case Stop(m') => return false, m';
          case Next(m', exec') =>
            m, exec := m', exec';
        }
        assert script[|script| - |i.after|..] == i.after by {
          DecodeAfter(rest);
          assert rest[|rest| - |i.after|..] == script[|script| - |i.after|..];
        }
        pc := |script| - |i.after|;
    }
    ok := exec == [];
  }

  lemma DecodeAfter(s: Data)
    requires Decode(s).Some?
    ensures s[|s| - |Decode(s).value.after|..] == Decode(s).value.after
  {
    hide GetOp;
  }

  /** A stack item is true exactly when it stands for a number other than zero. */
  lemma TruthyIsNonzero(v: Data)
    ensures Truthy(v) <==> FromVch(v) != 0
  {
    var p := Reverse(v);
    if p != [] {
      ZeroValue(ClearTop(p));
      if FromVch(v) == 0 {
        forall i | 0 <= i < |v|
          ensures v[i] == 0 || (i == |v| - 1 && v[i] == 0x80)
        {
          assert ClearTop(p)[|v| - 1 - i] == 0;
        }
      } else if !Truthy(v) {
        forall j | 0 <= j < |p|
          ensures ClearTop(p)[j] == 0
        {
          assert p[j] == v[|v| - 1 - j];
        }
      }
    }
  }

  lemma {:induction false} ZeroValue(s: Data)
    ensures ValueBE(s, 256) == 0 <==> forall i :: 0 <= i < |s| ==> s[i] == 0
  {
    if s != [] {
      ZeroValue(s[..|s| - 1]);
    }
  }
}
