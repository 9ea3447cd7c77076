/**
 What opcodes do to a running script, said without the interpreter's own definitions: stack effects as
 they are documented, arithmetic by what the items stand for, the verifying forms by the plain ones, and
 the limits by what a script holds.
 */
module Opcodes {
  import opened Bytes
  import opened Radix
  import opened BigNum
  import opened Script
  import opened Interp
  import opened SigOps
  import opened Pushes

  /** Executed by Apply alone: not a push, not a conditional, and not disabled. */
  predicate Plain(op: Byte) {
    op > OP_16 && !Disabled(op) && op != OP_IF && op != OP_NOTIF && op != OP_ELSE && op != OP_ENDIF
  }

  /** The rest of the script after an instruction. */
  function Continued(env: Env, o: Outcome, rest: Data): Outcome {
    match Settle(o)
    case Halt(m) => Halt(m)
    case Run(m) => Eval(env, rest, m, [])
  }

  function Ticked(m: Machine): Machine {
    m.(ops := m.ops + 1)
  }

  lemma EvalOp(env: Env, op: Byte, rest: Data, m: Machine)
    requires Plain(op)
    ensures Eval(env, [op] + rest, m, []) ==
            if m.ops >= MAX_OPS then Halt(Ticked(m)) else Continued(env, Apply(env, op, rest, Ticked(m)), rest)
  {
    hide Apply, Step, Disabled;
    var i := Ins(op, [], rest);
    assert Decode([op] + rest) == Some(i) by { assert ([op] + rest)[1..] == rest; }
    StepOp(env, i, m);
  }

  lemma StepOp(env: Env, i: Ins, m: Machine)
    requires Plain(i.op) && i.data == []
    ensures Step(env, i, m, []) ==
            if m.ops >= MAX_OPS then Stop(Ticked(m)) else Flowing(Apply(env, i.op, i.after, Ticked(m)), [])
  {
    hide Apply, Disabled;
  }

  // Stack effects

  lemma Tops(base: seq<Data>, taken: seq<Data>)
    ensures Drop(base + taken, |taken|) == base
    ensures forall k :: 1 <= k <= |taken| ==> Top(base + taken, k) == taken[|taken| - k]
  {
  }

  /** DROP (x -- ), DUP (x -- x x), IFDUP (x -- x | x x), SIZE (x -- x size). */
  lemma EffectsOfOne(s: seq<Data>, base: seq<Data>, x: Data)
    requires s == base + [x]
    ensures Shuffle(0x75, s) == Some(base)
    ensures Shuffle(0x76, s) == Some(base + [x, x])
    ensures Shuffle(0x73, s) == Some(if FromVch(x) == 0 then s else base + [x, x])
    ensures Shuffle(0x82, s) == Some(base + [x, ToVch(|x|)])
  {
    hide Truthy, ToVch, FromVch;
    Tops(base, [x]);
    TruthyIsNonzero(x);
    assert s + [x] == base + [x, x] && s + [ToVch(|x|)] == base + [x, ToVch(|x|)];
  }

  /**
   2DROP (x y -- ), 2DUP (x y -- x y x y), NIP (x y -- y), OVER (x y -- x y x), SWAP (x y -- y x),
   TUCK (x y -- y x y).
   */
  lemma EffectsOfTwo(s: seq<Data>, base: seq<Data>, x: Data, y: Data)
    requires s == base + [x, y]
    ensures Shuffle(0x6d, s) == Some(base)
    ensures Shuffle(0x6e, s) == Some(base + [x, y, x, y])
    ensures Shuffle(0x77, s) == Some(base + [y])
    ensures Shuffle(0x78, s) == Some(base + [x, y, x])
    ensures Shuffle(0x7c, s) == Some(base + [y, x])
    ensures Shuffle(0x7d, s) == Some(base + [y, x, y])
  {
    hide Truthy, ToVch;
    Tops(base, [x, y]);
    assert s + [x, y] == base + [x, y, x, y] && s + [x] == base + [x, y, x];
  }

  /** 3DUP (x y z -- x y z x y z), ROT (x y z -- y z x). */
  lemma EffectsOfThree(s: seq<Data>, base: seq<Data>, x: Data, y: Data, z: Data)
    requires s == base + [x, y, z]
    ensures Shuffle(0x6f, s) == Some(base + [x, y, z, x, y, z])
    ensures Shuffle(0x7b, s) == Some(base + [y, z, x])
  {
    hide Truthy, ToVch;
    Tops(base, [x, y, z]);
    assert s + [x, y, z] == base + [x, y, z, x, y, z];
  }

  /** 2OVER (w x y z -- w x y z w x), 2SWAP (w x y z -- y z w x). */
  lemma EffectsOfFour(s: seq<Data>, base: seq<Data>, w: Data, x: Data, y: Data, z: Data)
    requires s == base + [w, x, y, z]
    ensures Shuffle(0x70, s) == Some(base + [w, x, y, z, w, x])
    ensures Shuffle(0x72, s) == Some(base + [y, z, w, x])
  {
    hide Truthy, ToVch;
    Tops(base, [w, x, y, z]);
    assert s + [w, x] == base + [w, x, y, z, w, x];
  }

  /** 2ROT (u v w x y z -- w x y z u v). */
  lemma EffectsOfSix(s: seq<Data>, base: seq<Data>, u: Data, v: Data, w: Data, x: Data, y: Data, z: Data)
    requires s == base + [u, v, w, x, y, z]
    ensures Shuffle(0x71, s) == Some(base + [w, x, y, z, u, v])
  {
    hide Truthy, ToVch;
    Tops(base, [u, v, w, x, y, z]);
  }

  /** How many items the opcodes that only move items ask for. */
  function Needs(op: Byte): Option<nat> {
    if op == 0x74 then Some(0)
    else if op in {0x73, 0x75, 0x76, 0x82} then Some(1)
    else if op in {0x6d, 0x6e, 0x77, 0x78, 0x7c, 0x7d} then Some(2)
    else if op in {0x6f, 0x7b} then Some(3)
    else if op in {0x70, 0x72} then Some(4)
    else if op == 0x71 then Some(6)
    else None
  }

  /** These opcodes stop the script exactly when they find too few items; DEPTH adds the number of items. */
  lemma EffectsNeed(env: Env, op: Byte, after: Data, m: Machine)
    requires Needs(op).Some?
    ensures Shuffle(op, m.stack).Some? <==> |m.stack| >= Needs(op).value
    ensures Apply(env, op, after, m) ==
            if |m.stack| < Needs(op).value then Halt(m) else Run(With(m, Shuffle(op, m.stack).value))
    ensures op == 0x74 ==> Shuffle(op, m.stack) == Some(m.stack + [ToVch(|m.stack|)])
  {
    hide Numeric, CheckOne, CheckMany, PickRoll, Truthy, ToVch;
  }

  lemma EvalMoved(env: Env, op: Byte, rest: Data, m: Machine)
    requires Needs(op).Some? && |m.stack| >= Needs(op).value && m.ops < MAX_OPS
    requires Shuffle(op, m.stack).Some? && |Shuffle(op, m.stack).value| + |m.alt| <= MAX_STACK
    ensures Eval(env, [op] + rest, m, []) == Eval(env, rest, With(Ticked(m), Shuffle(op, m.stack).value), [])
  {
    hide Apply, Shuffle, Eval;
    EvalOp(env, op, rest, m);
    EffectsNeed(env, op, rest, Ticked(m));
  }

  /** A machine with room to go on: k more instructions that do not grow the stack. */
  predicate Ready(m: Machine, items: nat, k: nat) {
    |m.stack| >= items && m.ops + k <= MAX_OPS && |m.stack| + |m.alt| <= MAX_STACK
  }

  lemma Split(s: seq<Data>, k: nat) returns (base: seq<Data>, taken: seq<Data>)
    requires k <= |s|
    ensures s == base + taken && |taken| == k
  {
    base, taken := s[..|s| - k], s[|s| - k..];
  }

  /** SWAP twice, or 2SWAP twice, leaves everything as it was but the count of opcodes. */
  lemma SwappedBack(env: Env, op: Byte, rest: Data, m: Machine)
    requires (op == 0x7c && Ready(m, 2, 2)) || (op == 0x72 && Ready(m, 4, 2))
    ensures Eval(env, [op] + ([op] + rest), m, []) == Eval(env, rest, m.(ops := m.ops + 2), [])
  {
    hide Shuffle, Eval, Apply;
    var m1: Machine;
    if op == 0x7c {
      var base, t := Split(m.stack, 2);
      EffectsOfTwo(m.stack, base, t[0], t[1]);
      m1 := With(Ticked(m), base + [t[1], t[0]]);
      EffectsOfTwo(m1.stack, base, t[1], t[0]);
    } else {
      var base, t := Split(m.stack, 4);
      EffectsOfFour(m.stack, base, t[0], t[1], t[2], t[3]);
      m1 := With(Ticked(m), base + [t[2], t[3], t[0], t[1]]);
      EffectsOfFour(m1.stack, base, t[2], t[3], t[0], t[1]);
    }
    EvalMoved(env, op, [op] + rest, m);
    EvalMoved(env, op, rest, m1);
  }

  /** ROT three times, or 2ROT three times, likewise. */
  lemma RotatedBack(env: Env, op: Byte, rest: Data, m: Machine)
    requires (op == 0x7b && Ready(m, 3, 3)) || (op == 0x71 && Ready(m, 6, 3))
    ensures Eval(env, [op] + ([op] + ([op] + rest)), m, []) == Eval(env, rest, m.(ops := m.ops + 3), [])
  {
    hide Shuffle, Eval, Apply;
    var m1, m2: Machine;
    if op == 0x7b {
      var base, t := Split(m.stack, 3);
      EffectsOfThree(m.stack, base, t[0], t[1], t[2]);
      m1 := With(Ticked(m), base + [t[1], t[2], t[0]]);
      EffectsOfThree(m1.stack, base, t[1], t[2], t[0]);
      m2 := With(Ticked(m1), base + [t[2], t[0], t[1]]);
      EffectsOfThree(m2.stack, base, t[2], t[0], t[1]);
    } else {
      var base, t := Split(m.stack, 6);
      EffectsOfSix(m.stack, base, t[0], t[1], t[2], t[3], t[4], t[5]);
      m1 := With(Ticked(m), base + [t[2], t[3], t[4], t[5], t[0], t[1]]);
      EffectsOfSix(m1.stack, base, t[2], t[3], t[4], t[5], t[0], t[1]);
      m2 := With(Ticked(m1), base + [t[4], t[5], t[0], t[1], t[2], t[3]]);
      EffectsOfSix(m2.stack, base, t[4], t[5], t[0], t[1], t[2], t[3]);
    }
    EvalMoved(env, op, [op] + ([op] + rest), m);
    EvalMoved(env, op, [op] + rest, m1);
    EvalMoved(env, op, rest, m2);
  }

  // PICK and ROLL

  lemma AppliesPickRoll(env: Env, op: Byte, after: Data, m: Machine)
    requires op == 0x79 || op == 0x7a
    ensures Apply(env, op, after, m) == PickRoll(op, m)
  {
    hide PickRoll, Shuffle, Numeric, CheckOne, CheckMany, Truthy, ToVch;
  }

  /**
   PICK copies the item n below the top, ROLL takes it out from there, both behind the index; a number
   that is no depth of the stack below it, or is too long to be a number, stops the script.
   */
  lemma PickAndRoll(env: Env, op: Byte, after: Data, m: Machine, below: seq<Data>, v: Data)
    requires (op == 0x79 || op == 0x7a) && m.stack == below + [v] && below != []
    ensures var o, n := Apply(env, op, after, m), FromVch(v);
            && (o.Run? <==> |v| <= 4 && 0 <= n < |below|)
            && (o.Run? ==>
                  var k := |below| - 1 - n;
                  o.m == With(m, (if op == 0x79 then below else below[..k] + below[k + 1..]) + [below[k]]))
  {
    AppliesPickRoll(env, op, after, m);
    hide Apply, FromVch;
    Tops(below, [v]);
  }

  // The alternative stack

  /** TOALTSTACK moves the top item over, FROMALTSTACK moves it back; each asks for an item to move. */
  lemma AltEffects(env: Env, after: Data, m: Machine, base: seq<Data>, x: Data)
    ensures Apply(env, 0x6b, after, m.(stack := base + [x])) == Run(m.(stack := base, alt := m.alt + [x]))
    ensures Apply(env, 0x6c, after, m.(stack := base, alt := m.alt + [x])) == Run(m.(stack := base + [x]))
    ensures Apply(env, 0x6b, after, m.(stack := [])).Halt? && Apply(env, 0x6c, after, m.(alt := [])).Halt?
  {
    hide Shuffle, Numeric, CheckOne, CheckMany, Truthy, ToVch;
    Tops(base, [x]);
    Tops(m.alt, [x]);
  }

  // Arithmetic

  /** What the opcodes on one number compute, as a relation between operand and result. */
  ghost predicate Means1(op: Byte, a: int, r: int) {
    if op == 0x8b then r - a == 1                                         // 1ADD
    else if op == 0x8c then a - r == 1                                    // 1SUB
    else if op == 0x8f then a + r == 0                                    // NEGATE
    else if op == 0x90 then r >= 0 && (r == a || r == -a)                 // ABS
    else if op == 0x91 then (r == 1 && a == 0) || (r == 0 && a != 0)      // NOT
    else op == 0x92 && ((r == 1 && a != 0) || (r == 0 && a == 0))         // 0NOTEQUAL
  }

  ghost predicate Decides(r: int, truth: bool) {
    if truth then r == 1 else r == 0
  }

  /** What the opcodes on two numbers compute; a is the lower item. */
  ghost predicate Means2(op: Byte, a: int, b: int, r: int) {
    if op == 0x93 then r - b == a                                         // ADD
    else if op == 0x94 then r + b == a                                    // SUB
    else if op == 0x9a then Decides(r, a != 0 && b != 0)                  // BOOLAND
    else if op == 0x9b then Decides(r, !(a == 0 && b == 0))               // BOOLOR
    else if op == 0x9c then Decides(r, a == b)                            // NUMEQUAL
    else if op == 0x9e then Decides(r, a < b || b < a)                    // NUMNOTEQUAL
    else if op == 0x9f then Decides(r, a < b)                             // LESSTHAN
    else if op == 0xa0 then Decides(r, b < a)                             // GREATERTHAN
    else if op == 0xa1 then Decides(r, a < b || a == b)                   // LESSTHANOREQUAL
    else if op == 0xa2 then Decides(r, b < a || a == b)                   // GREATERTHANOREQUAL
    else if op == 0xa3 then r <= a && r <= b && (r == a || r == b)        // MIN
    else op == 0xa4 && r >= a && r >= b && (r == a || r == b)             // MAX
  }

  predicate Arithmetic1(op: Byte) { op in {0x8b, 0x8c, 0x8f, 0x90, 0x91, 0x92} }

  predicate Arithmetic2(op: Byte) { op in {0x93, 0x94, 0x9a, 0x9b, 0x9c, 0x9e, 0x9f, 0xa0, 0xa1, 0xa2, 0xa3, 0xa4} }

  /** The outcome of arithmetic: an operand of more than four bytes stops it, otherwise one item takes their place. */
  ghost predicate Computes(o: Outcome, m: Machine, base: seq<Data>, short: bool, r: int) {
    if short then o == Run(With(m, base + [ToVch(r)])) else o == Halt(m)
  }

  lemma Arithmetic1Runs(env: Env, op: Byte, after: Data, m: Machine, base: seq<Data>, v: Data) returns (r: int)
    requires Arithmetic1(op) && m.stack == base + [v]
    ensures Means1(op, FromVch(v), r) && Computes(Apply(env, op, after, m), m, base, |v| <= 4, r)
  {
    hide Shuffle, PickRoll, CheckOne, CheckMany, Truthy, ToVch, FromVch;
    Tops(base, [v]);
    r := Unary(op, FromVch(v)).value;
  }

  lemma Arithmetic2Runs(env: Env, op: Byte, after: Data, m: Machine, base: seq<Data>, v: Data, w: Data) returns (r: int)
    requires Arithmetic2(op) && m.stack == base + [v, w]
    ensures Means2(op, FromVch(v), FromVch(w), r)
    ensures Computes(Apply(env, op, after, m), m, base, |v| <= 4 && |w| <= 4, r)
  {
    hide Shuffle, PickRoll, CheckOne, CheckMany, Truthy, ToVch, FromVch;
    Tops(base, [v, w]);
    r := Binary(op, FromVch(v), FromVch(w)).value;
  }

  /** WITHIN (x low high -- bool): the lower bound belongs to the range, the upper does not. */
  lemma WithinRuns(env: Env, after: Data, m: Machine, base: seq<Data>, v: Data, low: Data, high: Data)
    requires m.stack == base + [v, low, high]
    ensures var o := Apply(env, 0xa5, after, m);
            if |v| > 4 || |low| > 4 || |high| > 4 then o == Halt(m)
            else o == Run(With(m, base + [if FromVch(low) <= FromVch(v) < FromVch(high) then [1] else []]))
  {
    hide Shuffle, PickRoll, CheckOne, CheckMany, Truthy, ToVch, FromVch;
    Tops(base, [v, low, high]);
  }

  /** Arithmetic asks for its operands. */
  lemma ArithmeticNeeds(env: Env, op: Byte, after: Data, m: Machine)
    ensures Arithmetic1(op) && |m.stack| < 1 ==> Apply(env, op, after, m) == Halt(m)
    ensures Arithmetic2(op) && |m.stack| < 2 ==> Apply(env, op, after, m) == Halt(m)
    ensures op == 0xa5 && |m.stack| < 3 ==> Apply(env, op, after, m) == Halt(m)
  {
    hide Shuffle, PickRoll, CheckOne, CheckMany, Truthy, ToVch, FromVch;
  }

  // Hashes, verifying forms, opcodes that refuse

  /** The five hash opcodes replace the top item by its hash. */
  lemma HashRuns(env: Env, op: Byte, after: Data, m: Machine, base: seq<Data>, x: Data)
    requires 0xa6 <= op <= 0xaa && m.stack == base + [x]
    ensures Apply(env, op, after, m) == Run(With(m, base + [env.digest(op, x)]))
  {
    hide Shuffle, Numeric, CheckOne, CheckMany, Truthy, ToVch;
    Tops(base, [x]);
  }

  /** EQUAL (x y -- bool) compares bytes, not numbers. */
  lemma EqualRuns(env: Env, after: Data, m: Machine, base: seq<Data>, x: Data, y: Data)
    requires m.stack == base + [x, y]
    ensures Apply(env, 0x87, after, m) == Run(With(m, base + [if x == y then [1] else []]))
  {
    hide Shuffle, Numeric, CheckOne, CheckMany, Truthy, ToVch;
    Tops(base, [x, y]);
  }

  /** VERIFY ( true -- ), or the script stops with the item still there. */
  lemma VerifyRuns(env: Env, after: Data, m: Machine, base: seq<Data>, x: Data)
    requires m.stack == base + [x]
    ensures Apply(env, 0x69, after, m) == if FromVch(x) != 0 then Run(With(m, base)) else Halt(m)
    ensures Apply(env, 0x69, after, With(m, [])) == Halt(With(m, []))
  {
    hide Shuffle, Numeric, CheckOne, CheckMany, Truthy, ToVch, FromVch;
    Tops(base, [x]);
    TruthyIsNonzero(x);
  }

  /** EQUALVERIFY, NUMEQUALVERIFY, CHECKSIGVERIFY, CHECKMULTISIGVERIFY and the opcode each stands for. */
  predicate Verifies(op: Byte, plain: Byte) {
    (op, plain) in {(0x88, 0x87), (0x9d, 0x9c), (0xad, 0xac), (0xaf, 0xae)}
  }

  lemma BoolIsTrue(b: bool)
    ensures Truthy(BoolData(b)) == b && Truthy(ToVch(ToNum(b))) == b
  {
    hide ToVch, FromVch;
    TruthyIsNonzero(ToVch(ToNum(b)));
    VchRoundTrip(ToNum(b));
    if b {
      assert BoolData(b)[0] == 1;
    }
  }

  /** A verifying form is the plain opcode followed by VERIFY, in verdict and in the whole machine. */
  lemma VerifyingForm(env: Env, op: Byte, plain: Byte, after: Data, m: Machine)
    requires Verifies(op, plain)
    ensures match Apply(env, plain, after, m)
            case Halt(x) => Apply(env, op, after, m) == Halt(x)
            case Run(x) => Apply(env, op, after, m) == Apply(env, 0x69, after, x)
  {
    hide Shuffle, PickRoll, Truthy, ToVch, CastToNum, Match, Unsigned, Below;
    BoolIsTrue(true);
    BoolIsTrue(false);
  }

  /** RESERVED, VER, RETURN, RESERVED1, RESERVED2 and everything behind NOP10 stop the script when executed. */
  lemma Refuses(env: Env, op: Byte, after: Data, m: Machine)
    requires op in {0x50, 0x62, 0x6a, 0x89, 0x8a} || op > 0xb9
    ensures Apply(env, op, after, m) == Halt(m)
  {
    hide Truthy, ToVch, CheckOne, CheckMany;
  }

  // Conditionals

  /** A machine that can take one more opcode. */
  predicate Going(m: Machine) {
    m.ops < MAX_OPS && |m.stack| + |m.alt| <= MAX_STACK
  }

  lemma EvalIns(env: Env, op: Byte, rest: Data, m: Machine, exec: seq<bool>)
    requires op > OP_PUSHDATA4
    ensures Eval(env, [op] + rest, m, exec) ==
            match Step(env, Ins(op, [], rest), m, exec)
            case Stop(m') => Halt(m')
            case Next(m', exec') => Eval(env, rest, m', exec')
  {
    hide Step;
    assert Decode([op] + rest) == Some(Ins(op, [], rest)) by { assert ([op] + rest)[1..] == rest; }
  }

  /** IF takes the top item and goes on if it is not zero, NOTIF if it is zero; without an item the script stops. */
  lemma IfTakes(env: Env, op: Byte, rest: Data, m: Machine, exec: seq<bool>, base: seq<Data>, x: Data)
    requires (op == 0x63 || op == 0x64) && Live(exec) && Going(m) && m.stack == base + [x]
    ensures Eval(env, [op] + rest, m, exec) ==
            Eval(env, rest, With(Ticked(m), base), exec + [if op == 0x63 then FromVch(x) != 0 else FromVch(x) == 0])
    ensures Eval(env, [op] + rest, With(m, []), exec).Halt?
  {
    hide Eval, Truthy, FromVch, Live;
    Tops(base, [x]);
    TruthyIsNonzero(x);
    EvalIns(env, op, rest, m, exec);
    EvalIns(env, op, rest, With(m, []), exec);
  }

  /** In code that is skipped, IF and NOTIF open a block that is skipped, and take nothing. */
  lemma IfSkipped(env: Env, op: Byte, rest: Data, m: Machine, exec: seq<bool>)
    requires (op == 0x63 || op == 0x64) && !Live(exec) && Going(m)
    ensures Eval(env, [op] + rest, m, exec) == Eval(env, rest, Ticked(m), exec + [false])
  {
    hide Eval, Truthy, Live;
    EvalIns(env, op, rest, m, exec);
  }

  /** ELSE turns the innermost condition round, ENDIF takes it away; without one the script stops. */
  lemma ElseAndEndif(env: Env, rest: Data, m: Machine, exec: seq<bool>, t: bool)
    requires Going(m)
    ensures Eval(env, [0x67] + rest, m, exec + [t]) == Eval(env, rest, Ticked(m), exec + [!t])
    ensures Eval(env, [0x68] + rest, m, exec + [t]) == Eval(env, rest, Ticked(m), exec)
    ensures Eval(env, [0x67] + rest, m, []).Halt? && Eval(env, [0x68] + rest, m, []).Halt?
  {
    hide Eval, Truthy, Live;
    EvalIns(env, 0x67, rest, m, exec + [t]);
    EvalIns(env, 0x68, rest, m, exec + [t]);
    EvalIns(env, 0x67, rest, m, []);
    EvalIns(env, 0x68, rest, m, []);
    assert (exec + [t])[..|exec|] == exec && (exec + [t])[|exec| := !t] == exec + [!t];
  }

  /** VERIF and VERNOTIF stop the script wherever they stand. */
  lemma VerIfRefused(env: Env, op: Byte, rest: Data, m: Machine, exec: seq<bool>)
    requires op == 0x65 || op == 0x66
    ensures Eval(env, [op] + rest, m, exec).Halt?
  {
    hide Eval, Live, CheckOne, CheckMany, Truthy, ToVch;
    EvalIns(env, op, rest, m, exec);
  }

  lemma StepPushUnder(env: Env, i: Ins, m: Machine, exec: seq<bool>)
    requires i.op <= OP_PUSHDATA4 && |i.data| <= MAX_ELEMENT
    requires |m.stack| + |m.alt| + (if Live(exec) then 1 else 0) <= MAX_STACK
    ensures Step(env, i, m, exec) == Next(if Live(exec) then With(m, m.stack + [i.data]) else m, exec)
  {
    hide Live, Apply, Disabled;
    PushNotDisabled(i.op);
  }

  lemma {:induction false} PushesUnder(env: Env, values: seq<Data>, rest: Data, m: Machine, exec: seq<bool>)
    requires |m.stack| + |m.alt| + (if Live(exec) then |values| else 0) <= MAX_STACK
    requires forall v :: v in values ==> |v| <= MAX_ELEMENT
    ensures Eval(env, PushAll(values) + rest, m, exec) ==
            Eval(env, rest, if Live(exec) then With(m, m.stack + values) else m, exec)
    decreases |values|
  {
    hide PushData, Decode, Step, Live;
    if values == [] {
      assert PushAll(values) + rest == rest && m.stack + values == m.stack;
    } else {
      var v, others := values[0], PushAll(values[1..]) + rest;
      Assoc(PushData(v), PushAll(values[1..]), rest);
      DecodePush(v, others);
      StepPushUnder(env, Ins(PushData(v)[0], v, others), m, exec);
      PushesUnder(env, values[1..], rest, if Live(exec) then With(m, m.stack + [v]) else m, exec);
      assert m.stack + [v] + values[1..] == m.stack + values;
    }
  }

  lemma LiveOne(t: bool)
    ensures Live([]) && (Live([t]) <==> t)
  {
    assert [t][0] == t;
  }

  /** IF, some pushes, ELSE, others, ENDIF: the item decides which of them happen. */
  lemma IfElseChooses(env: Env, op: Byte, a: seq<Data>, b: seq<Data>, rest: Data, m: Machine, base: seq<Data>, x: Data)
    requires (op == 0x63 || op == 0x64) && m.stack == base + [x] && m.ops + 3 <= MAX_OPS
    requires Fits(a, m) && Fits(b, m)
    ensures var first := if op == 0x63 then FromVch(x) != 0 else FromVch(x) == 0;
            Eval(env, [op] + (PushAll(a) + ([0x67] + (PushAll(b) + ([0x68] + rest)))), m, []) ==
            Eval(env, rest, m.(stack := base + (if first then a else b), ops := m.ops + 3), [])
  {
    hide Eval, FromVch, PushAll, Live;
    LiveOne(true);
    LiveOne(false);
    var first := if op == 0x63 then FromVch(x) != 0 else FromVch(x) == 0;
    var closing := [0x68] + rest;
    var second := [0x67] + (PushAll(b) + closing);
    IfTakes(env, op, PushAll(a) + second, m, [], base, x);
    assert [] + [first] == [first] && [] + [!first] == [!first];
    var m1 := With(Ticked(m), base);
    PushesUnder(env, a, second, m1, [first]);
    var m2 := if first then With(m1, base + a) else m1;
    ElseAndEndif(env, PushAll(b) + closing, m2, [], first);
    PushesUnder(env, b, closing, Ticked(m2), [!first]);
    var m3 := if first then Ticked(m2) else With(Ticked(m2), base + b);
    ElseAndEndif(env, rest, m3, [], !first);
  }

  // Arithmetic on pushed integers

  predicate Int64(n: int) { -0x8000_0000_0000_0000 <= n < 0x8000_0000_0000_0000 }

  predicate Short(n: int) { -0x8000_0000 < n < 0x8000_0000 }

  lemma EvalPushInt(env: Env, n: int, rest: Data, m: Machine)
    requires Int64(n) && |m.stack| + |m.alt| < MAX_STACK
    ensures Eval(env, PushInt(n) + rest, m, []) == Eval(env, rest, With(m, m.stack + [ToVch(n)]), [])
  {
    hide Eval, ToVch, PushPrefix;
    if n == -1 || 1 <= n <= 16 {
      EvalSmall(env, n + (OP_1 - 1), rest, m);
    } else {
      WideVch(n);
      var values := [ToVch(n)];
      assert PushAll(values) == PushInt(n) by { assert values[1..] == []; assert PushInt(n) + [] == PushInt(n); }
      EvalPushAll(env, values, rest, m);
    }
  }

  lemma IntSize(n: int)
    requires Int64(n)
    ensures |PushInt(n)| <= 10
  {
    hide ToVch, PushPrefix;
    if !(n == -1 || 1 <= n <= 16) {
      WideVch(n);
      ShortPush(ToVch(n));
    }
  }

  /** Two integers of any 64-bit size and an opcode: what is left when both can be computed with, and only then. */
  lemma PushedArithmetic(env: Env, op: Byte, a: int, b: int) returns (r: int)
    requires Arithmetic2(op) && Int64(a) && Int64(b)
    ensures Means2(op, a, b, r)
    ensures var o := Evaluate(env, PushInt(a) + (PushInt(b) + ([op] + [])), []);
            && (o.Run? <==> Short(a) && Short(b))
            && (o.Run? ==> |o.m.stack| == 1 && FromVch(o.m.stack[0]) == r)
  {
    hide Eval, ToVch, FromVch, PushInt, Apply, Means2, Disabled;
    var s := PushInt(a) + (PushInt(b) + ([op] + []));
    IntSize(a);
    IntSize(b);
    var m0 := Start(s, []);
    EvalPushInt(env, a, PushInt(b) + ([op] + []), m0);
    var m1 := With(m0, [] + [ToVch(a)]);
    EvalPushInt(env, b, [op] + [], m1);
    var m2 := With(m1, m1.stack + [ToVch(b)]);
    assert m2.stack == [] + [ToVch(a), ToVch(b)];
    ArithmeticIsPlain(op);
    EvalOp(env, op, [], m2);
    r := Arithmetic2Runs(env, op, [], Ticked(m2), [], ToVch(a), ToVch(b));
    VchRoundTrip(a);
    VchRoundTrip(b);
    VchLength(a);
    VchLength(b);
    VchRoundTrip(r);
    EvalEnd(env, With(Ticked(m2), [] + [ToVch(r)]));
  }

  lemma ArithmeticIsPlain(op: Byte)
    requires Arithmetic2(op)
    ensures Plain(op)
  {
  }

  // Limits

  /** The disabled opcodes: CAT to RIGHT, INVERT to XOR, 2MUL, 2DIV, MUL to RSHIFT. */
  const DISABLED: set<int> :=
    {0x7e, 0x7f, 0x80, 0x81, 0x83, 0x84, 0x85, 0x86, 0x8d, 0x8e, 0x95, 0x96, 0x97, 0x98, 0x99}

  lemma DisabledAre(op: Byte)
    ensures Disabled(op) <==> op in DISABLED
  {
  }

  /** How many of the instructions are neither pushes nor small integers. */
  function Counted(parts: seq<Data>): nat {
    if parts == [] then 0 else (if parts[0] != [] && parts[0][0] > 0x60 then 1 else 0) + Counted(parts[1..])
  }

  /** An instruction that every script may hold, executed or not. */
  predicate Allowed(part: Data) {
    part != [] && part[0] !in DISABLED && (GetOp(part).Fetched? ==> |GetOp(part).data| <= 520)
  }

  lemma StepAdmits(env: Env, i: Ins, m: Machine, exec: seq<bool>)
    requires Step(env, i, m, exec).Next?
    ensures i.op !in DISABLED && |i.data| <= 520
    ensures var r := Step(env, i, m, exec).m;
            && m.ops + (if i.op > 0x60 then 1 else 0) <= r.ops && (i.op > 0x60 ==> r.ops <= 201)
            && (i.op <= 0x60 ==> r.ops == m.ops) && |r.stack| + |r.alt| <= 1000
            && (!ChecksMany(i.op) ==> r.ops == m.ops + (if i.op > 0x60 then 1 else 0))
  {
    hide ApplyOrPush, ToVch, Truthy, Disabled;
    DisabledAre(i.op);
    if Live(exec) {
      ApplyOps(env, i, Admit(i, m).m);
    }
  }

  lemma ApplyOps(env: Env, i: Ins, m: Machine)
    ensures var o := ApplyOrPush(env, i, m);
            && m.ops <= o.m.ops && (!ChecksMany(i.op) ==> o.m.ops == m.ops)
            && (o.Run? && m.ops <= 201 ==> o.m.ops <= 201) && (i.op <= OP_16 ==> o.m.ops == m.ops)
  {
    hide ToVch, Truthy, CastToNum, Unary, Binary, Shuffle, Match, Unsigned;
  }

  lemma FirstInstruction(s: Data)
    requires Decode(s).Some?
    ensures GetOp(s).Fetched?
    ensures var i, n := Decode(s).value, GetOp(s).size;
            && 1 <= n <= |s| && Instructions(s) == [s[..n]] + Instructions(i.after) && Tail(s) == Tail(i.after)
            && s[..n] != [] && s[..n][0] == i.op && GetOp(s[..n]).Fetched? && GetOp(s[..n]).data == i.data
            && Counted(Instructions(s)) == (if i.op > 0x60 then 1 else 0) + Counted(Instructions(i.after))
  {
    hide GetOp, IsInstruction, Instructions, Tail;
    GetOpTake(s);
    InstructionsStep(s);
    var n := GetOp(s).size;
    var rest := Instructions(s[n..]);
    assert ([s[..n]] + rest)[1..] == rest;
  }

  lemma InstructionsStep(s: Data)
    requires GetOp(s).Fetched?
    ensures var n := GetOp(s).size;
            Instructions(s) == [s[..n]] + Instructions(s[n..]) && Tail(s) == Tail(s[n..])
  {
    hide GetOp;
  }

  /** The instructions that may add more than one to the count of opcodes. */
  predicate CountsKeys(parts: seq<Data>) {
    exists p :: p in parts && p != [] && (p[0] == 0xae || p[0] == 0xaf)
  }

  lemma {:induction false} RunAdmits(env: Env, s: Data, m: Machine, exec: seq<bool>)
    requires Eval(env, s, m, exec).Run?
    ensures var r, parts := Eval(env, s, m, exec).m, Instructions(s);
            && Tail(s) == [] && (forall p :: p in parts ==> Allowed(p))
            && m.ops + Counted(parts) <= r.ops && (m.ops <= 201 ==> r.ops <= 201)
            && (!CountsKeys(parts) ==> r.ops == m.ops + Counted(parts))
            && (s != [] ==> |r.stack| + |r.alt| <= 1000)
    decreases |s|
  {
    hide Step, Decode, Instructions, Tail, Counted, GetOp;
    if s == [] {
      NoInstructions();
    } else {
      var i := Decode(s).value;
      FirstInstruction(s);
      StepAdmits(env, i, m, exec);
      var f := Step(env, i, m, exec);
      RunAdmits(env, i.after, f.m, f.exec);
      var head, rest := s[..GetOp(s).size], Instructions(i.after);
      assert Allowed(head);
      assert forall p :: p in Instructions(s) <==> p == head || p in rest;
      if i.after == [] {
        AtEnd(env, f.m, f.exec);
      }
    }
  }

  lemma AtEnd(env: Env, m: Machine, exec: seq<bool>)
    ensures Eval(env, [], m, exec).m == m
  {
  }

  lemma NoInstructions()
    ensures Instructions([]) == [] && Tail([]) == [] && Counted([]) == 0
  {
  }

  /**
   What every accepted script holds to, executed or not: at most 10000 bytes, no disabled opcode, no item
   above 520 bytes, at most 201 opcodes, read to the end, and at most 1000 items left.
   */
  lemma Limits(env: Env, script: Data, stack: seq<Data>)
    requires Evaluate(env, script, stack).Run?
    ensures |script| <= 10000 && Tail(script) == [] && (forall p :: p in Instructions(script) ==> Allowed(p))
    ensures var r := Evaluate(env, script, stack).m;
            && Counted(Instructions(script)) <= r.ops <= 201 && (script != [] ==> |r.stack| + |r.alt| <= 1000)
            && (!CountsKeys(Instructions(script)) ==> r.ops == Counted(Instructions(script)))
  {
    hide Eval, Instructions, Tail, Counted;
    RunAdmits(env, script, Start(script, stack), []);
  }

  /** NOP and NOP1 to NOP10. */
  predicate Nop(op: Byte) { op == 0x61 || 0xb0 <= op <= 0xb9 }

  function Times(op: Byte, k: nat): (s: Data)
    ensures |s| == k
  {
    if k == 0 then [] else [op] + Times(op, k - 1)
  }

  lemma {:induction false} EvalNops(env: Env, op: Byte, k: nat, m: Machine)
    requires Nop(op) && m.ops <= 201
    ensures var o := Eval(env, Times(op, k), m, []);
            if m.ops + k <= 201 && (k == 0 || |m.stack| + |m.alt| <= 1000) then o == Run(m.(ops := m.ops + k))
            else o.Halt?
    decreases k
  {
    hide Apply, Disabled;
    if k > 0 {
      NopApplies(env, op, Times(op, k - 1), Ticked(m));
      EvalOp(env, op, Times(op, k - 1), m);
      if m.ops < 201 {
        EvalNops(env, op, k - 1, Ticked(m));
      }
    }
  }

  lemma NopApplies(env: Env, op: Byte, after: Data, m: Machine)
    requires Nop(op)
    ensures Plain(op) && Apply(env, op, after, m) == Run(m)
  {
    hide Truthy, ToVch, CheckOne, CheckMany;
  }

  /** The limit on opcodes is reached, and no lower: so many NOPs run exactly up to 201, and change nothing. */
  lemma NopsRun(env: Env, op: Byte, k: nat, stack: seq<Data>)
    requires Nop(op) && |stack| <= 1000
    ensures Evaluate(env, Times(op, k), stack).Run? <==> k <= 201
    ensures k <= 201 ==> Evaluate(env, Times(op, k), stack).m.stack == stack
  {
    hide Eval;
    EvalNops(env, op, k, Start(Times(op, k), stack));
  }
}
