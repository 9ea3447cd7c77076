/** Scripts that only push: what they leave on the stack is what they were built from. */
module Pushes {
  import opened Bytes
  import opened Radix
  import opened BigNum
  import opened Script
  import opened Interp
  import opened SigOps

  function PushAll(values: seq<Data>): Data
    decreases |values|
  {
    if values == [] then [] else PushData(values[0]) + PushAll(values[1..])
  }

  /** PushAll */
  method BuildPushAll(values: seq<Data>) returns (script: Data)
    ensures script == PushAll(values)
  {
    hide PushData;
    var result := new Builder();
    assert values[0..] == values && [] + PushAll(values) == PushAll(values);
    for i := 0 to |values|
      invariant result.bytes + PushAll(values[i..]) == PushAll(values)
    {
      assert values[i..][1..] == values[i + 1..];
      Assoc(result.bytes, PushData(values[i]), PushAll(values[i + 1..]));
      result.AddData(values[i]);
    }
    assert result.bytes + [] == result.bytes;
    script := result.bytes;
  }

  /** CScript::push_int64: small integers have opcodes of their own. */
  function PushInt(n: int): Data {
    if n == -1 || 1 <= n <= 16 then [n + (OP_1 - 1)] else PushData(ToVch(n))
  }

  method AddInt(script: Builder, n: int)
    requires -0x8000_0000_0000_0000 <= n < 0x8000_0000_0000_0000
    modifies script
    ensures script.bytes == old(script.bytes) + PushInt(n)
  {
    hide PushData, ToVch;
    if n == -1 || (n >= 1 && n <= 16) {
      script.AddOp(n + (OP_1 - 1));
    } else {
      var bn := SetInt64(n);
      var v := GetVch(bn);
      script.AddData(v);
    }
  }

  lemma DecodePush(v: Data, rest: Data)
    requires |v| < WORD
    ensures Decode(PushData(v) + rest) == Some(Ins(PushData(v)[0], v, rest)) && PushData(v)[0] <= OP_PUSHDATA4
  {
    hide GetOp, PushData;
    ReadPush(v, rest);
    assert (PushData(v) + rest)[|PushData(v)|..] == rest;
  }

  lemma StepPush(env: Env, i: Ins, m: Machine)
    requires i.op <= OP_PUSHDATA4
    ensures |i.data| > MAX_ELEMENT || |m.stack| + |m.alt| >= MAX_STACK ==> Step(env, i, m, []).Stop?
    ensures |i.data| <= MAX_ELEMENT && |m.stack| + |m.alt| < MAX_STACK ==>
              Step(env, i, m, []) == Next(With(m, m.stack + [i.data]), [])
  {
    hide Disabled;
    assert !Disabled(i.op) by { PushNotDisabled(i.op); }
  }

  lemma PushNotDisabled(op: Byte)
    requires op <= OP_16
    ensures !Disabled(op)
  {
  }

  /** Room for the values on the stack, and none of them too long. */
  predicate Fits(values: seq<Data>, m: Machine) {
    |m.stack| + |m.alt| + |values| <= MAX_STACK && forall v :: v in values ==> |v| <= MAX_ELEMENT
  }

  lemma {:induction false} EvalPushAll(env: Env, values: seq<Data>, rest: Data, m: Machine)
    requires |m.stack| + |m.alt| <= MAX_STACK && forall v :: v in values ==> |v| < WORD
    ensures Fits(values, m) ==>
              Eval(env, PushAll(values) + rest, m, []) == Eval(env, rest, With(m, m.stack + values), [])
    ensures !Fits(values, m) ==> Eval(env, PushAll(values) + rest, m, []).Halt?
    decreases |values|
  {
    hide PushData, Decode, Step;
    if values == [] {
      assert PushAll(values) + rest == rest && m.stack + values == m.stack;
    } else {
      var v, others := values[0], PushAll(values[1..]) + rest;
      Assoc(PushData(v), PushAll(values[1..]), rest);
      DecodePush(v, others);
      var i := Ins(PushData(v)[0], v, others);
      StepPush(env, i, m);
      assert values == [v] + values[1..];
      var f := Step(env, i, m, []);
      if f.Next? {
        EvalPushAll(env, values[1..], rest, f.m);
        assert m.stack + [v] + values[1..] == m.stack + values;
        assert Fits(values, m) == Fits(values[1..], f.m) by { FitsTail(values, m, f.m); }
      }
    }
  }

  lemma FitsTail(values: seq<Data>, m: Machine, m': Machine)
    requires values != [] && |values[0]| <= MAX_ELEMENT && |m'.stack| + |m'.alt| == |m.stack| + |m.alt| + 1
    ensures Fits(values, m) == Fits(values[1..], m')
  {
    assert forall v :: v in values <==> v == values[0] || v in values[1..];
  }

  lemma {:induction false} PushAllSize(values: seq<Data>)
    ensures forall v :: v in values ==> |v| < |PushAll(values)|
    decreases |values|
  {
    hide PushPrefix;
    if values != [] {
      PushAllSize(values[1..]);
      assert forall v :: v in values <==> v == values[0] || v in values[1..];
    }
  }

  /** Running PushAll's script on an empty stack returns the values, exactly when the limits allow it. */
  lemma PushAllRuns(env: Env, values: seq<Data>)
    ensures var s, o := PushAll(values), Evaluate(env, PushAll(values), []);
            && (o.Run? <==>
                  |s| <= MAX_SCRIPT && |values| <= MAX_STACK && forall v :: v in values ==> |v| <= MAX_ELEMENT)
            && (o.Run? ==> o.m.stack == values && o.m.alt == [] && o.m.checks == 0)
  {
    hide Eval;
    var s := PushAll(values);
    if |s| <= MAX_SCRIPT {
      PushAllSize(values);
      EvalPushAll(env, values, [], Start(s, []));
      assert s + [] == s && [] + values == values;
      EvalEnd(env, With(Start(s, []), values));
    }
  }

  lemma EvalEnd(env: Env, m: Machine)
    ensures Eval(env, [], m, []) == Run(m)
  {
  }

  lemma StepSmall(env: Env, i: Ins, m: Machine)
    requires (i.op == OP_1NEGATE || SmallInt(i.op)) && i.data == [] && |m.stack| + |m.alt| < MAX_STACK
    ensures Step(env, i, m, []) == Next(With(m, m.stack + [ToVch(i.op - (OP_1 - 1))]), [])
  {
    hide Disabled, ToVch, Apply;
    PushNotDisabled(i.op);
    SmallPush(env, i, m);
  }

  lemma EvalSmall(env: Env, op: Byte, rest: Data, m: Machine)
    requires (op == OP_1NEGATE || SmallInt(op)) && |m.stack| + |m.alt| < MAX_STACK
    ensures Eval(env, [op] + rest, m, []) == Eval(env, rest, With(m, m.stack + [ToVch(op - (OP_1 - 1))]), [])
  {
    hide Step, ToVch;
    var i := Ins(op, [], rest);
    assert Decode([op] + rest) == Some(i) by { assert ([op] + rest)[1..] == rest; }
    StepSmall(env, i, m);
  }

  lemma WideVch(n: int)
    requires -0x8000_0000_0000_0000 <= n < 0x8000_0000_0000_0000
    ensures |ToVch(n)| <= 9
  {
    hide Payload;
    PayloadSize(n);
    var k := |Payload(n)|;
    assert Pow(256, 8) == 0x1_0000_0000_0000_0000 && Pow(256, 9) == 256 * Pow(256, 8);
    if k > 9 {
      PowGrows(256, 9, k - 1);
    }
  }

  /** Executing CScript() << n leaves one item; script arithmetic reads it as n exactly when |n| < 2^31. */
  lemma PushIntRuns(env: Env, n: int)
    requires -0x8000_0000_0000_0000 <= n < 0x8000_0000_0000_0000
    ensures var o := Evaluate(env, PushInt(n), []);
            && o.Run? && |o.m.stack| == 1 && FromVch(o.m.stack[0]) == n
            && (CastToNum(o.m.stack[0]) == Some(n) <==> -0x8000_0000 < n < 0x8000_0000)
  {
    hide Eval, ToVch, FromVch, PushPrefix;
    var s := PushInt(n);
    VchRoundTrip(n);
    VchLength(n);
    WideVch(n);
    if n == -1 || 1 <= n <= 16 {
      EvalSmall(env, n + (OP_1 - 1), [], Start(s, []));
      assert s + [] == s && [] + [ToVch(n)] == [ToVch(n)];
      EvalEnd(env, With(Start(s, []), [ToVch(n)]));
    } else {
      assert PushAll([ToVch(n)]) == s by { assert [ToVch(n)][1..] == []; assert s + [] == s; }
      PushAllRuns(env, [ToVch(n)]);
      ShortPush(ToVch(n));
    }
  }

  lemma ShortPush(v: Data)
    requires |v| <= 9
    ensures |PushData(v)| == |v| + 1
  {
  }
}
