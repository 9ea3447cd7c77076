/** The standard outputs: what VerifyScript accepts for a key, a key hash and a script hash. */
module Outputs {
  import opened Bytes
  import opened Radix
  import opened BigNum
  import opened Script
  import opened Interp
  import opened SigOps
  import opened Multisig
  import opened Pushes
  import opened Signing
  import opened Opcodes

  /** The script a signature signs: all instructions but the pushes of that signature. */
  function SignedOver(code: Data, sig: Data): Data {
    Flatten(Remove(Instructions(code), PushData(sig))) + Tail(code)
  }

  lemma SignedIsUnsigned(code: Data, sig: Data)
    requires |sig| < WORD
    ensures Unsigned(code, [sig]) == SignedOver(code, sig)
  {
    hide PushData, Instructions, Stripped, IsInstruction, Tail, Flatten, Remove;
    PushIsInstruction(sig);
    StrippedIsFilter(code, PushData(sig));
    assert [sig][1..] == [];
  }

  /** CHECKSIG (sig key -- bool): the signature lies below the key and signs the script without itself. */
  lemma CheckSigRuns(env: Env, after: Data, m: Machine, base: seq<Data>, sig: Data, key: Data)
    requires m.stack == base + [sig, key] && |sig| < WORD
    ensures var ok := env.checkSig(sig, key, SignedOver(m.code, sig));
            Apply(env, 0xac, after, m) ==
            Run(m.(stack := base + [if ok then [1] else []], checks := m.checks + 1))
  {
    hide Shuffle, Numeric, CheckMany, Truthy, ToVch, SignedOver, Unsigned;
    Tops(base, [sig, key]);
    SignedIsUnsigned(m.code, sig);
  }

  lemma CheckSigNeeds(env: Env, after: Data, m: Machine)
    requires |m.stack| < 2
    ensures Apply(env, 0xac, after, m) == Halt(m)
  {
    hide Shuffle, Numeric, CheckMany, Truthy, ToVch, Unsigned;
  }

  lemma PlainOps()
    ensures Plain(0x76) && Plain(0xa9) && Plain(0x87) && Plain(0x88) && Plain(0xab) && Plain(0xac)
  {
  }

  // Pay to key

  /** CHECKSIG at the end of a script, on a stack with room. */
  lemma EndsWithCheck(env: Env, m: Machine, base: seq<Data>, sig: Data, key: Data)
    requires m.stack == base + [sig, key] && |sig| < WORD && m.ops < MAX_OPS && |m.stack| + |m.alt| <= MAX_STACK
    ensures var o := Eval(env, [0xac] + [], m, []);
            Accepts(o) <==> env.checkSig(sig, key, SignedOver(m.code, sig))
  {
    hide Eval, Apply, SignedOver, Truthy, Disabled;
    PlainOps();
    EvalOp(env, 0xac, [], m);
    CheckSigRuns(env, [], Ticked(m), base, sig, key);
    var ok := env.checkSig(sig, key, SignedOver(m.code, sig));
    EvalEnd(env, Ticked(m).(stack := base + [BoolData(ok)], checks := m.checks + 1));
    TruthOfBool(ok);
    Tops(base, [BoolData(ok)]);
  }

  /** VerifyScript for an output that is no script hash and an input that pushes. */
  lemma VerifyPushed(env: Env, values: seq<Data>, code: Data, p2sh: bool)
    requires !IsPayToScriptHash(code)
    ensures Verify(env, PushAll(values), code, p2sh).ok <==>
            && |PushAll(values)| <= MAX_SCRIPT && |values| <= MAX_STACK
            && (forall v :: v in values ==> |v| <= MAX_ELEMENT)
            && Accepts(Evaluate(env, code, values))
  {
    hide Evaluate, PushAll, Accepts;
    PushAllRuns(env, values);
  }

  lemma PushSize(b: Data)
    ensures |b| < |PushData(b)| <= |b| + 5
    ensures |b| == 20 ==> PushData(b) == [0x14] + b
  {
    hide Fixed;
  }

  lemma PushedOne(b: Data)
    ensures PushAll([b]) == PushData(b)
  {
    hide PushData;
    assert [b][1..] == [] && PushData(b) + [] == PushData(b);
  }

  function KeyOutput(key: Data): Data {
    PushData(key) + [0xac]
  }

  /** An output for a key: exactly a good signature by that key over the output script is accepted. */
  lemma PayToKey(env: Env, sig: Data, key: Data, p2sh: bool)
    ensures Verify(env, PushData(sig), KeyOutput(key), p2sh).ok <==>
            |sig| <= 520 && |key| <= 520 && env.checkSig(sig, key, SignedOver(KeyOutput(key), sig))
  {
    hide Verify, Eval, PushData, SignedOver, PushAll, Truthy;
    var code := KeyOutput(key);
    PushedOne(sig);
    PushedOne(key);
    PushSize(sig);
    PushSize(key);
    KeyNotScriptHash(key);
    VerifyPushed(env, [sig], code, p2sh);
    if |sig| <= 520 && |code| <= MAX_SCRIPT {
      var m := Start(code, [sig]);
      assert [0xac] + [] == [0xac];
      EvalPushAll(env, [key], [0xac], m);
      if |key| <= 520 {
        EndsWithCheck(env, With(m, [sig] + [key]), [], sig, key);
      }
    }
  }

  lemma KeyNotScriptHash(key: Data)
    ensures !IsPayToScriptHash(KeyOutput(key))
  {
    hide Fixed;
  }

  /** With a code separator in front of the check, only what stands behind it is signed. */
  lemma PayBehindSeparator(env: Env, sig: Data, key: Data, p2sh: bool)
    requires |key| <= 520
    ensures Verify(env, PushData(sig), PushData(key) + ([0xab] + [0xac]), p2sh).ok <==>
            |sig| <= 520 && env.checkSig(sig, key, SignedOver([0xac], sig))
  {
    hide Verify, Eval, PushData, SignedOver, PushAll, Apply, Truthy, Disabled;
    var code := PushData(key) + ([0xab] + [0xac]);
    PushedOne(sig);
    PushedOne(key);
    PushSize(sig);
    PushSize(key);
    SeparatedNotScriptHash(key);
    VerifyPushed(env, [sig], code, p2sh);
    if |sig| <= 520 {
      var m := Start(code, [sig]);
      EvalPushAll(env, [key], [0xab] + [0xac], m);
      var m1 := With(m, [sig] + [key]);
      PlainOps();
      EvalOp(env, 0xab, [0xac], m1);
      SeparatorRuns(env, [0xac], Ticked(m1));
      assert [0xac] + [] == [0xac];
      EndsWithCheck(env, Ticked(m1).(code := [0xac]), [], sig, key);
    }
  }

  /** CODESEPARATOR: what is signed starts behind it. */
  lemma SeparatorRuns(env: Env, after: Data, m: Machine)
    ensures Apply(env, 0xab, after, m) == Run(m.(code := after))
  {
    hide Truthy, ToVch, CheckOne, CheckMany;
  }

  lemma SeparatedNotScriptHash(key: Data)
    ensures !IsPayToScriptHash(PushData(key) + ([0xab] + [0xac]))
  {
    hide Fixed;
  }

  // Pay to key hash

  function KeyHashOutput(hash: Data): Data {
    [0x76] + ([0xa9] + ([0x14] + hash + ([0x88] + [0xac])))
  }

  /** HASH160 and the push of a hash. */
  lemma HashAndPush(env: Env, m: Machine, base: seq<Data>, x: Data, hash: Data, rest: Data)
    requires m.stack == base + [x] && m.ops < MAX_OPS && |hash| == 20 && |m.stack| + |m.alt| <= MAX_STACK
    ensures var h := env.digest(0xa9, x);
            if |m.stack| + |m.alt| == MAX_STACK then Eval(env, [0xa9] + ([0x14] + hash + rest), m, []).Halt?
            else Eval(env, [0xa9] + ([0x14] + hash + rest), m, []) ==
                 Eval(env, rest, With(Ticked(m), base + [h, hash]), [])
  {
    hide Eval, Apply, PushAll, PushData, Disabled;
    PlainOps();
    var tail := [0x14] + hash + rest;
    EvalOp(env, 0xa9, tail, m);
    HashRuns(env, 0xa9, tail, Ticked(m), base, x);
    var m2 := With(Ticked(m), base + [env.digest(0xa9, x)]);
    PushedOne(hash);
    PushSize(hash);
    EvalPushAll(env, [hash], rest, m2);
    assert m2.stack + [hash] == base + [env.digest(0xa9, x), hash];
  }

  /** DUP HASH160 <hash> on a signature and a key. */
  lemma HashOfKey(env: Env, m: Machine, sig: Data, key: Data, hash: Data, rest: Data)
    requires m.stack == [sig, key] && m.alt == [] && m.ops == 0 && |hash| == 20
    ensures Eval(env, [0x76] + ([0xa9] + ([0x14] + hash + rest)), m, []) ==
            Eval(env, rest, m.(stack := [sig, key] + [env.digest(0xa9, key), hash], ops := 2), [])
  {
    hide Eval, Apply, Shuffle;
    EffectsOfOne(m.stack, [sig], key);
    EvalMoved(env, 0x76, [0xa9] + ([0x14] + hash + rest), m);
    assert [sig] + [key, key] == [sig, key] + [key];
    HashAndPush(env, With(Ticked(m), [sig, key] + [key]), [sig, key], key, hash, rest);
  }

  /** EQUALVERIFY on two items. */
  lemma EqualOrStop(env: Env, m: Machine, base: seq<Data>, x: Data, y: Data, rest: Data)
    requires m.stack == base + [x, y] && m.ops < MAX_OPS && |m.stack| + |m.alt| <= MAX_STACK
    ensures x == y ==> Eval(env, [0x88] + rest, m, []) == Eval(env, rest, With(Ticked(m), base), [])
    ensures x != y ==> Eval(env, [0x88] + rest, m, []).Halt?
  {
    hide Eval, Apply, Disabled, FromVch;
    PlainOps();
    EvalOp(env, 0x88, rest, m);
    VerifyingForm(env, 0x88, 0x87, rest, Ticked(m));
    EqualRuns(env, rest, Ticked(m), base, x, y);
    var r: Data := if x == y then [1] else [];
    VerifyRuns(env, rest, With(Ticked(m), base + [r]), base, r);
    assert FromVch(r) != 0 <==> x == y by {
      TruthyIsNonzero(r);
      TruthOfBool(x == y);
    }
  }

  /**
   An output for a key hash: accepted exactly if the key pushed has that hash and the signature below it is
   good for that key over the output script.
   */
  lemma PayToKeyHash(env: Env, sig: Data, key: Data, hash: Data, p2sh: bool)
    requires |hash| == 20
    ensures Verify(env, PushData(sig) + PushData(key), KeyHashOutput(hash), p2sh).ok <==>
            && |sig| <= 520 && |key| <= 520 && env.digest(0xa9, key) == hash
            && env.checkSig(sig, key, SignedOver(KeyHashOutput(hash), sig))
  {
    hide Verify, Eval, PushData, SignedOver, PushAll, Truthy;
    var code := KeyHashOutput(hash);
    PushedTwo(sig, key);
    PushSize(sig);
    PushSize(key);
    var values := [sig, key];
    assert forall v :: v in values <==> v == sig || v == key;
    VerifyPushed(env, values, code, p2sh);
    if |sig| <= 520 && |key| <= 520 {
      var m := Start(code, values);
      HashOfKey(env, m, sig, key, hash, [0x88] + [0xac]);
      var m1 := m.(stack := [sig, key] + [env.digest(0xa9, key), hash], ops := 2);
      EqualOrStop(env, m1, [sig, key], env.digest(0xa9, key), hash, [0xac]);
      assert [0xac] + [] == [0xac];
      assert [sig, key] == [] + [sig, key];
      EndsWithCheck(env, With(Ticked(m1), [sig, key]), [], sig, key);
    }
  }

  lemma PushedTwo(a: Data, b: Data)
    ensures PushAll([a, b]) == PushData(a) + PushData(b)
  {
    hide PushData;
    assert [a, b][1..] == [b];
    PushedOne(b);
  }

  // Pay to script hash

  function ScriptHashOutput(hash: Data): Data {
    [0xa9] + ([0x14] + hash + ([0x87] + []))
  }

  lemma ScriptHashForm(s: Data)
    ensures IsPayToScriptHash(s) <==> exists hash :: |hash| == 20 && s == ScriptHashOutput(hash)
  {
    if IsPayToScriptHash(s) {
      assert s == ScriptHashOutput(s[2..22]);
    }
  }

  /** The output script alone: the top item must have the hash, and there must be room for one more item. */
  lemma ScriptHashRuns(env: Env, hash: Data, stack: seq<Data>)
    requires |hash| == 20 && |stack| <= MAX_STACK
    ensures Accepts(Evaluate(env, ScriptHashOutput(hash), stack)) <==>
            stack != [] && |stack| < MAX_STACK && env.digest(0xa9, Top(stack, 1)) == hash
  {
    hide Eval, Apply, Truthy, Disabled;
    var code := ScriptHashOutput(hash);
    var m := Start(code, stack);
    if stack == [] {
      ScriptHashForm(code);
      if Evaluate(env, code, stack).Run? {
        HashNeedsItem(env, code, stack);
      }
    } else {
      var base, x := stack[..|stack| - 1], stack[|stack| - 1];
      HashAndPush(env, m, base, x, hash, [0x87] + []);
      if |stack| < MAX_STACK {
        var m1 := With(Ticked(m), base + [env.digest(0xa9, x), hash]);
        PlainOps();
        EvalOp(env, 0x87, [], m1);
        EqualRuns(env, [], Ticked(m1), base, env.digest(0xa9, x), hash);
        var same := env.digest(0xa9, x) == hash;
        EvalEnd(env, With(Ticked(m1), base + [BoolData(same)]));
        TruthOfBool(same);
        Tops(base, [BoolData(same)]);
      }
    }
  }

  /**
   An output for a script hash and any input. It is accepted exactly if the input only pushes, runs, and
   leaves room and on top a script with that hash which in turn, run on the items below it, leaves a true
   item on top.
   */
  lemma PayToScriptHash(env: Env, scriptSig: Data, hash: Data)
    requires |hash| == 20
    ensures Verify(env, scriptSig, ScriptHashOutput(hash), true).ok <==>
            exists rest, redeem :: Redeems(env, scriptSig, hash, rest, redeem)
  {
    hide Evaluate, LastPush, Accepts;
    var out, first := ScriptHashOutput(hash), Evaluate(env, scriptSig, []);
    ScriptHashForm(out);
    if first.Run? {
      var stack := first.m.stack;
      InputFits(env, scriptSig);
      ScriptHashRuns(env, hash, stack);
      if stack != [] {
        var rest, redeem := Drop(stack, 1), Top(stack, 1);
        assert stack == rest + [redeem];
        if Verify(env, scriptSig, out, true).ok {
          assert Redeems(env, scriptSig, hash, rest, redeem);
        }
        forall r, x | Redeems(env, scriptSig, hash, r, x) ensures r == rest && x == redeem {
          Tops(r, [x]);
        }
      }
    }
  }

  ghost predicate Redeems(env: Env, scriptSig: Data, hash: Data, rest: seq<Data>, redeem: Data) {
    var first := Evaluate(env, scriptSig, []);
    && PushOnly(scriptSig) && first.Run? && first.m.stack == rest + [redeem] && |rest| + 1 < MAX_STACK
    && env.digest(0xa9, redeem) == hash && Accepts(Evaluate(env, redeem, rest))
  }

  lemma InputFits(env: Env, scriptSig: Data)
    requires Evaluate(env, scriptSig, []).Run?
    ensures |Evaluate(env, scriptSig, []).m.stack| <= MAX_STACK
  {
    hide Eval, Instructions, Tail, Counted;
    Limits(env, scriptSig, []);
    if scriptSig == [] {
      EmptyInput(env);
    }
  }

  /** Before pay-to-script-hash the redeem script was not run. */
  lemma PayToScriptHashOff(env: Env, scriptSig: Data, hash: Data)
    requires |hash| == 20
    ensures Verify(env, scriptSig, ScriptHashOutput(hash), false).ok <==>
            var first := Evaluate(env, scriptSig, []);
            && first.Run? && first.m.stack != [] && |first.m.stack| < MAX_STACK
            && env.digest(0xa9, Top(first.m.stack, 1)) == hash
  {
    hide Evaluate, LastPush, Accepts;
    if Evaluate(env, scriptSig, []).Run? {
      InputFits(env, scriptSig);
      ScriptHashRuns(env, hash, Evaluate(env, scriptSig, []).m.stack);
    }
  }

  // Pushing inputs

  /** Every instruction is a push, a small integer or OP_RESERVED. */
  ghost predicate AllPush(parts: seq<Data>) {
    forall p :: p in parts ==> p != [] && p[0] <= 0x60
  }

  lemma {:induction false} LastPushIff(s: Data, data: Data)
    ensures LastPush(s, data).Some? <==> Tail(s) == [] && AllPush(Instructions(s))
    decreases |s|
  {
    hide Decode, Instructions, Tail, GetOp, Counted;
    if s == [] {
      NoInstructions();
    } else if Decode(s).Some? {
      FirstInstruction(s);
      var i := Decode(s).value;
      LastPushIff(i.after, i.data);
      var head, rest := s[..GetOp(s).size], Instructions(i.after);
      assert forall p :: p in Instructions(s) <==> p == head || p in rest;
    } else {
      Unread(s);
    }
  }

  lemma Unread(s: Data)
    requires Decode(s).None?
    ensures Tail(s) == s
  {
    hide GetOp;
  }

  /** IsPushOnly: read to the end, with nothing above OP_16. */
  lemma PushOnlyIff(s: Data)
    ensures PushOnly(s) <==> Tail(s) == [] && AllPush(Instructions(s))
  {
    LastPushIff(s, []);
  }

  /** The last of some pushes is the data of the last instruction. */
  lemma {:induction false} LastPushed(values: seq<Data>, data: Data)
    requires forall v :: v in values ==> |v| < WORD
    ensures LastPush(PushAll(values), data) == Some(if values == [] then data else values[|values| - 1])
    decreases |values|
  {
    hide Decode, PushData;
    if values != [] {
      DecodePush(values[0], PushAll(values[1..]));
      LastPushed(values[1..], values[0]);
    }
  }

  // Multisignature outputs

  ghost predicate PushesOneOf(part: Data, sigs: seq<Data>) {
    exists v :: v in sigs && part == PushData(v)
  }

  /** The instructions that push none of the signatures. */
  ghost function Without(parts: seq<Data>, sigs: seq<Data>): seq<Data> {
    if parts == [] then []
    else (if PushesOneOf(parts[0], sigs) then [] else [parts[0]]) + Without(parts[1..], sigs)
  }

  lemma {:induction false} WithoutNext(parts: seq<Data>, sigs: seq<Data>)
    requires sigs != []
    ensures Without(Remove(parts, PushData(sigs[0])), sigs[1..]) == Without(parts, sigs)
    decreases |parts|
  {
    hide PushData;
    if parts != [] {
      WithoutNext(parts[1..], sigs);
      var b, rest := PushData(sigs[0]), Remove(parts[1..], PushData(sigs[0]));
      assert PushesOneOf(parts[0], sigs) <==> parts[0] == b || PushesOneOf(parts[0], sigs[1..]) by {
        assert forall v :: v in sigs <==> v == sigs[0] || v in sigs[1..];
      }
      if parts[0] != b {
        assert ([parts[0]] + rest)[1..] == rest;
      }
    }
  }

  lemma {:induction false} WithoutNone(parts: seq<Data>)
    ensures Without(parts, []) == parts
  {
    if parts != [] {
      WithoutNone(parts[1..]);
      assert parts == [parts[0]] + parts[1..];
    }
  }

  /** What several signatures sign: all instructions but the pushes of any of them. */
  ghost function SignedOverAll(code: Data, sigs: seq<Data>): Data {
    Flatten(Without(Instructions(code), sigs)) + Tail(code)
  }

  lemma {:induction false} UnsignedIsWithout(code: Data, sigs: seq<Data>)
    requires forall v :: v in sigs ==> |v| < WORD
    ensures Unsigned(code, sigs) == SignedOverAll(code, sigs)
    decreases |sigs|
  {
    hide PushData, Instructions, Stripped, IsInstruction, Tail, Flatten, Remove, Without;
    if sigs == [] {
      WithoutNone(Instructions(code));
      InstructionsCover(code);
    } else {
      var b := PushData(sigs[0]);
      PushIsInstruction(sigs[0]);
      StrippedIsFilter(code, b);
      InstructionsWhole(code);
      var kept := Remove(Instructions(code), b);
      InstructionsUnique(kept, Tail(code));
      UnsignedIsWithout(Stripped(code, b), sigs[1..]);
      WithoutNext(Instructions(code), sigs);
    }
  }

  lemma {:induction false} WithoutSame(parts: seq<Data>, a: seq<Data>, b: seq<Data>)
    requires forall v :: v in a <==> v in b
    ensures Without(parts, a) == Without(parts, b)
  {
    if parts != [] {
      WithoutSame(parts[1..], a, b);
    }
  }

  /** The order in which the signatures are dropped makes no difference. */
  lemma UnsignedReversed(code: Data, sigs: seq<Data>)
    requires forall v :: v in sigs ==> |v| < WORD
    ensures Unsigned(code, Reverse(sigs)) == SignedOverAll(code, sigs)
  {
    hide Instructions, Tail, Flatten, Without, Unsigned;
    assert forall v :: v in Reverse(sigs) <==> v in sigs by {
      assert forall i :: 0 <= i < |sigs| ==> Reverse(sigs)[|sigs| - 1 - i] == sigs[i];
    }
    UnsignedIsWithout(code, Reverse(sigs));
    WithoutSame(Instructions(code), Reverse(sigs), sigs);
  }

  /** The loop, which goes from the last key down, finds an assignment exactly if there is one. */
  lemma MatchAsPushed(env: Env, sigs: seq<Data>, keys: seq<Data>, code: Data)
    requires |sigs| <= |keys|
    ensures Match(env, Reverse(sigs), Reverse(keys), code).ok <==> exists f :: Assigns(env, sigs, keys, code, f)
  {
    hide Match, Assigns;
    MatchIffAssignable(env, Reverse(sigs), Reverse(keys), code);
    ReverseTwice(sigs);
    ReverseTwice(keys);
    if f :| Assigns(env, sigs, keys, code, f) {
      var g := AssignsReversed(env, sigs, keys, code, f);
    }
    if f :| Assigns(env, Reverse(sigs), Reverse(keys), code, f) {
      var g := AssignsReversed(env, Reverse(sigs), Reverse(keys), code, f);
    }
  }

  /** An output for several keys: accepted exactly if the signatures can be given to keys in order. */
  lemma PayToKeys(env: Env, spare: Data, sigs: seq<Data>, keys: seq<Data>, p2sh: bool)
    requires 1 <= |sigs| <= |keys| <= 16 && Sized(spare, sigs, keys)
    ensures var s := MultisigScript(|sigs|, keys);
            Verify(env, PushAll([spare] + sigs), s, p2sh).ok <==>
            exists f :: Assigns(env, sigs, keys, SignedOverAll(s, sigs), f)
  {
    hide Verify, PushAll, Match, MultisigScript, Assigns, Unsigned, SignedOverAll;
    UnsignedReversed(MultisigScript(|sigs|, keys), sigs);
    VerifyIsMatch(env, spare, sigs, keys, p2sh);
    MatchAsPushed(env, sigs, keys, Unsigned(MultisigScript(|sigs|, keys), Reverse(sigs)));
  }

  /**
   The same behind a script hash: signatures and then the multisignature script itself are pushed. They are
   accepted exactly if the script has the hash and the signatures can be given to its keys in order.
   */
  lemma PayToKeysByHash(env: Env, spare: Data, sigs: seq<Data>, keys: seq<Data>, hash: Data)
    requires |hash| == 20 && 1 <= |sigs| <= |keys| <= 16 && Sized(spare, sigs, keys)
    requires |MultisigScript(|sigs|, keys)| <= MAX_ELEMENT
    requires |PushAll([spare] + sigs + [MultisigScript(|sigs|, keys)])| <= MAX_SCRIPT
    ensures var s := MultisigScript(|sigs|, keys);
            Verify(env, PushAll([spare] + sigs + [s]), ScriptHashOutput(hash), true).ok <==>
            env.digest(0xa9, s) == hash && exists f :: Assigns(env, sigs, keys, SignedOverAll(s, sigs), f)
  {
    hide Verify, Evaluate, PushAll, Match, MultisigScript, Assigns, Unsigned, LastPush, ScriptHashOutput, Truthy;
    hide SignedOverAll;
    var s := MultisigScript(|sigs|, keys);
    UnsignedReversed(s, sigs);
    var below := [spare] + sigs;
    var values := below + [s];
    assert forall v :: v in values ==> v == spare || v in sigs || v == s;
    PushAllRuns(env, values);
    LastPushed(values, []);
    PayToScriptHash(env, PushAll(values), hash);
    MultisigScriptRuns(env, spare, sigs, keys);
    MatchAsPushed(env, sigs, keys, Unsigned(s, Reverse(sigs)));
    TruthOfBool(true);
    TruthOfBool(false);
    forall r, x | Redeems(env, PushAll(values), hash, r, x) ensures r == below && x == s {
      Tops(r, [x]);
      Tops(below, [s]);
    }
    if env.digest(0xa9, s) == hash && Accepts(Evaluate(env, s, below)) {
      assert Redeems(env, PushAll(values), hash, below, s);
    }
  }
}
