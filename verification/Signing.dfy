/** Assembling the input of a multisignature output: SignN and CombineMultisig, up to VerifyScript. */
module Signing {
  import opened Bytes
  import opened Radix
  import opened BigNum
  import opened Script
  import opened Interp
  import opened SigOps
  import opened Multisig
  import opened Pushes

  /** CScript::SetMultisig: required keys out of the given ones. */
  function MultisigScript(required: nat, keys: seq<Data>): Data
    requires 1 <= required <= |keys| <= 16
  {
    [OP_1 - 1 + required] + (PushAll(keys) + ([OP_1 - 1 + |keys|] + [OP_CHECKMULTISIG]))
  }

  /** Laws of the signature check this module relies on: an empty signature is never good. */
  ghost predicate EmptyFails(env: Env) {
    forall k, c :: !env.checkSig([], k, c)
  }

  lemma EvalCheckMany(env: Env, m: Machine, r: Machine)
    requires m.ops < MAX_OPS && CheckMany(env, false, m.(ops := m.ops + 1)) == Run(r)
             && |r.stack| + |r.alt| <= MAX_STACK
    ensures Eval(env, [OP_CHECKMULTISIG], m, []) == Run(r)
  {
    hide CheckMany;
    var i := Ins(OP_CHECKMULTISIG, [], []);
    assert Decode([OP_CHECKMULTISIG]) == Some(i);
    ApplyMany(env, OP_CHECKMULTISIG, [], m.(ops := m.ops + 1));
    StepMany(env, i, m, r);
  }

  lemma StepMany(env: Env, i: Ins, m: Machine, r: Machine)
    requires i == Ins(OP_CHECKMULTISIG, [], []) && m.ops < MAX_OPS && |r.stack| + |r.alt| <= MAX_STACK
    requires Apply(env, OP_CHECKMULTISIG, [], m.(ops := m.ops + 1)) == Run(r)
    ensures Step(env, i, m, []) == Next(r, [])
  {
    hide Apply;
  }

  /** Running a multisignature script on its signatures leaves the verdict of the loop. */
  lemma MultisigScriptRuns(env: Env, spare: Data, sigs: seq<Data>, keys: seq<Data>)
    requires 1 <= |sigs| <= |keys| <= 16 && forall k :: k in keys ==> |k| <= MAX_ELEMENT
    ensures var s := MultisigScript(|sigs|, keys);
            |s| <= MAX_SCRIPT ==>
              var o := Evaluate(env, s, [spare] + sigs);
              var t := Match(env, Reverse(sigs), Reverse(keys), Unsigned(s, Reverse(sigs)));
              o.Run? && o.m.stack == [BoolData(t.ok)] && o.m.checks == t.checks
  {
    hide Eval, PushAll, ToVch, Match, Unsigned, CheckMany;
    var s, n, k := MultisigScript(|sigs|, keys), |keys|, |sigs|;
    var m0 := Start(s, [spare] + sigs);
    var tail: Data := [OP_1 - 1 + n] + [OP_CHECKMULTISIG];
    EvalSmall(env, OP_1 - 1 + k, PushAll(keys) + tail, m0);
    var m1 := With(m0, m0.stack + [ToVch(k)]);
    EvalPushAll(env, keys, tail, m1);
    var m2 := With(m1, m1.stack + keys);
    EvalSmall(env, OP_1 - 1 + n, [OP_CHECKMULTISIG], m2);
    var m3 := With(m2, m2.stack + [ToVch(n)]);
    assert m3.stack == Laid([], spare, sigs, ToVch(k), keys, ToVch(n));
    SmallNum(k);
    SmallNum(n);
    MultisigConsumes(env, false, m3.(ops := 1), [], spare, sigs, ToVch(k), keys, ToVch(n));
    EvalCheckMany(env, m3, CheckMany(env, false, m3.(ops := 1)).m);
  }

  lemma NotScriptHash(required: nat, keys: seq<Data>)
    requires 1 <= required <= |keys| <= 16
    ensures !IsPayToScriptHash(MultisigScript(required, keys))
  {
    hide PushAll;
  }

  /** Scripts and items within EvalScript's limits. */
  predicate Sized(spare: Data, sigs: seq<Data>, keys: seq<Data>)
    requires 1 <= |sigs| <= |keys| <= 16
  {
    && |PushAll([spare] + sigs)| <= MAX_SCRIPT
    && |MultisigScript(|sigs|, keys)| <= MAX_SCRIPT
    && |spare| <= MAX_ELEMENT
    && (forall v :: v in sigs ==> |v| <= MAX_ELEMENT)
    && (forall k :: k in keys ==> |k| <= MAX_ELEMENT)
  }

  /** VerifyScript on a multisignature output decides what the CHECKMULTISIG loop decides. */
  lemma VerifyIsMatch(env: Env, spare: Data, sigs: seq<Data>, keys: seq<Data>, p2sh: bool)
    requires 1 <= |sigs| <= |keys| <= 16 && Sized(spare, sigs, keys)
    ensures var s := MultisigScript(|sigs|, keys);
            Verify(env, PushAll([spare] + sigs), s, p2sh).ok ==
            Match(env, Reverse(sigs), Reverse(keys), Unsigned(s, Reverse(sigs))).ok
  {
    hide Evaluate, PushAll, Match, Unsigned, MultisigScript, Truthy;
    var s := MultisigScript(|sigs|, keys);
    var values := [spare] + sigs;
    assert forall v :: v in values ==> v == spare || v in sigs;
    PushAllRuns(env, values);
    MultisigScriptRuns(env, spare, sigs, keys);
    NotScriptHash(|sigs|, keys);
    TruthOfBool(true);
    TruthOfBool(false);
  }

  lemma TruthOfBool(b: bool)
    ensures Truthy(BoolData(b)) == b
  {
    if b {
      assert BoolData(b)[0] != 0;
    }
  }

  /** Signatures that the script does not push stay out of FindAndDelete's way. */
  lemma {:induction false} NothingSigned(code: Data, sigs: seq<Data>)
    requires forall v :: v in sigs ==> |v| < WORD && PushData(v) !in Instructions(code)
    ensures Unsigned(code, sigs) == code
    decreases |sigs|
  {
    hide PushData, Instructions, Stripped, IsInstruction;
    if sigs != [] {
      var b := PushData(sigs[0]);
      PushIsInstruction(sigs[0]);
      StrippedIsFilter(code, b);
      NothingToRemove(Instructions(code), b);
      InstructionsCover(code);
      NothingSigned(code, sigs[1..]);
    }
  }

  // Choosing signatures for the keys

  /** The signatures found, in key order, at most limit of them. */
  function Chosen(found: map<Data, Data>, keys: seq<Data>, limit: nat): (r: seq<Data>)
    ensures |r| <= limit && |r| <= |keys| && forall v :: v in r ==> v in found.Values
    decreases |keys|
  {
    if keys == [] || limit == 0 then []
    else if keys[0] in found then [found[keys[0]]] + Chosen(found, keys[1..], limit - 1)
    else Chosen(found, keys[1..], limit)
  }

  /** Every signature found is good for its key. */
  ghost predicate Good(env: Env, code: Data, found: map<Data, Data>) {
    forall k :: k in found ==> env.checkSig(found[k], k, code)
  }

  lemma {:induction false} ChosenAssigned(env: Env, code: Data, found: map<Data, Data>, keys: seq<Data>, limit: nat)
    returns (f: seq<nat>)
    requires Good(env, code, found)
    ensures Assigns(env, Chosen(found, keys, limit), keys, code, f)
    decreases |keys|
  {
    if keys == [] || limit == 0 {
      f := [];
    } else if keys[0] in found {
      var g := ChosenAssigned(env, code, found, keys[1..], limit - 1);
      assert Chosen(found, keys, limit)[1..] == Chosen(found, keys[1..], limit - 1);
      f := AssignsFirst(env, Chosen(found, keys, limit), keys, code, g);
    } else {
      var g := ChosenAssigned(env, code, found, keys[1..], limit);
      f := AssignsSkip(env, Chosen(found, keys, limit), keys, code, g);
    }
  }

  function Blanks(n: nat): (r: seq<Data>)
    ensures |r| == n && forall i :: 0 <= i < n ==> r[i] == []
  {
    seq(n, i => [])
  }

  /** The signatures that go into the merged script: those chosen, then placeholders. */
  function Merged(found: map<Data, Data>, keys: seq<Data>, required: nat): (r: seq<Data>)
    ensures |r| == required
  {
    var c := Chosen(found, keys, required);
    c + Blanks(required - |c|)
  }

  lemma {:induction false} BlankFails(env: Env, sigs: seq<Data>, keys: seq<Data>, code: Data)
    requires EmptyFails(env) && sigs != [] && sigs[0] == [] && |sigs| <= |keys|
    ensures !Match(env, sigs, keys, code).ok
    decreases |keys|
  {
    assert !env.checkSig(sigs[0], keys[0], code);
    if |sigs| <= |keys| - 1 {
      BlankFails(env, sigs, keys[1..], code);
    }
  }

  /** The merged signatures pass the loop exactly when enough keys have one. */
  lemma MergedPasses(env: Env, code: Data, found: map<Data, Data>, keys: seq<Data>, required: nat)
    requires EmptyFails(env) && Good(env, code, found) && 1 <= required <= |keys|
    ensures var sigs := Reverse(Merged(found, keys, required));
            |Chosen(found, keys, required)| == required ==> Match(env, sigs, Reverse(keys), code).ok
    ensures forall c :: |Chosen(found, keys, required)| < required ==>
              !Match(env, Reverse(Merged(found, keys, required)), Reverse(keys), c).ok
  {
    var chosen := Chosen(found, keys, required);
    var merged := Merged(found, keys, required);
    if |chosen| == required {
      assert merged == chosen;
      var f := ChosenAssigned(env, code, found, keys, required);
      var g := AssignsReversed(env, chosen, keys, code, f);
      MatchFinds(env, Reverse(chosen), Reverse(keys), code, g);
    } else {
      assert Reverse(merged)[0] == [];
      forall c ensures !Match(env, Reverse(merged), Reverse(keys), c).ok {
        BlankFails(env, Reverse(merged), Reverse(keys), c);
      }
    }
  }

  /**
   The script merged by CombineMultisig is accepted by VerifyScript exactly when it holds the
   required number of signatures, provided the output script does not itself push one of them.
   */
  lemma MergedAccepted(env: Env, found: map<Data, Data>, keys: seq<Data>, required: nat, p2sh: bool)
    requires 1 <= required <= |keys| <= 16 && EmptyFails(env)
    requires Good(env, MultisigScript(required, keys), found)
    requires Sized([], Merged(found, keys, required), keys)
    requires forall k :: k in found ==> PushData(found[k]) !in Instructions(MultisigScript(required, keys))
    ensures Verify(env, PushAll([[]] + Merged(found, keys, required)), MultisigScript(required, keys), p2sh).ok
        <==> |Chosen(found, keys, required)| == required
  {
    hide Verify, PushAll, Match, MultisigScript, Instructions, PushData, EmptyFails, Good;
    var s, merged := MultisigScript(required, keys), Merged(found, keys, required);
    VerifyIsMatch(env, [], merged, keys, p2sh);
    MergedPasses(env, s, found, keys, required);
    if |Chosen(found, keys, required)| == required {
      var sigs := Reverse(merged);
      assert merged == Chosen(found, keys, required);
      forall v | v in sigs ensures |v| < WORD && PushData(v) !in Instructions(s) {
        assert v in merged;
        assert v in found.Values;
      }
      NothingSigned(s, sigs);
    }
  }

  // SignN

  /** The keys the signer holds, with the signatures it makes. */
  function Available(sign: Data -> Option<Data>, keys: seq<Data>): map<Data, Data> {
    map k | k in keys && sign(k).Some? :: sign(k).value
  }

  /** SignN: sign with each key in turn until there are enough. The leading OP_0 is Solver's. */
  method SignN(sign: Data -> Option<Data>, keys: seq<Data>, required: nat) returns (ok: bool, script: Data)
    requires required >= 1
    ensures script == PushAll([[]] + Chosen(Available(sign, keys), keys, required))
    ensures ok <==> |Chosen(Available(sign, keys), keys, required)| == required
  {
    hide PushData, PushAll, Chosen;
    var result := new Builder();
    result.AddOp(OP_0);
    ghost var all, done: seq<Data> := Available(sign, keys), [];
    PushBlank();
    assert [[]] + done == [[]];
    var signed := 0;
    assert keys[0..] == keys && [] + Chosen(all, keys, required) == Chosen(all, keys, required);
    for i := 0 to |keys|
      invariant signed == |done| < required
      invariant result.bytes == PushAll([[]] + done)
      invariant done + Chosen(all, keys[i..], required - signed) == Chosen(all, keys, required)
    {
      ChosenStep(all, keys, i, required - signed, done);
      var made := sign(keys[i]);
      assert keys[i] in keys;
      if made.Some? {
        PushOneMore([[]] + done, made.value);
        assert [[]] + done + [made.value] == [[]] + (done + [made.value]);
        result.AddData(made.value);
        done := done + [made.value];
        signed := signed + 1;
        if signed == required {
          ChosenNone(all, keys[i + 1..]);
          assert done + [] == done;
          script := result.bytes;
          return true, script;
        }
      }
    }
    ChosenNone(all, []);
    assert done + [] == done;
    ok := signed == required;
    script := result.bytes;
  }

  lemma ChosenNone(found: map<Data, Data>, keys: seq<Data>)
    ensures Chosen(found, keys, 0) == [] && forall n: nat :: Chosen(found, [], n) == []
  {
  }

  lemma ChosenStep(found: map<Data, Data>, keys: seq<Data>, i: nat, limit: nat, done: seq<Data>)
    requires i < |keys| && limit > 0
    ensures keys[i] in found ==>
              done + Chosen(found, keys[i..], limit) ==
                done + [found[keys[i]]] + Chosen(found, keys[i + 1..], limit - 1)
    ensures keys[i] !in found ==> Chosen(found, keys[i..], limit) == Chosen(found, keys[i + 1..], limit)
  {
    assert keys[i..][1..] == keys[i + 1..];
  }

  lemma PushBlank()
    ensures PushAll([[]]) == [OP_0] && PushData([]) == [OP_0]
  {
    var one: seq<Data> := [[]];
    assert one[1..] == [] && PushData([]) + [] == PushData([]);
  }

  lemma {:induction false} PushOneMore(values: seq<Data>, v: Data)
    ensures PushAll(values + [v]) == PushAll(values) + PushData(v)
    decreases |values|
  {
    hide PushData;
    if values == [] {
      assert values + [v] == [v] && [v][1..] == [] && PushData(v) + [] == PushData(v)
             && [] + PushData(v) == PushData(v);
    } else {
      PushOneMore(values[1..], v);
      assert (values + [v])[1..] == values[1..] + [v];
      Assoc(PushData(values[0]), PushAll(values[1..]), PushData(v));
    }
  }

  /** When SignN reports success and signing is sound, VerifyScript accepts its script. */
  lemma SignedAccepted(env: Env, sign: Data -> Option<Data>, keys: seq<Data>, required: nat, p2sh: bool)
    requires 1 <= required <= |keys| <= 16 && EmptyFails(env)
    requires var s := MultisigScript(required, keys);
             forall k :: k in keys && sign(k).Some? ==>
               env.checkSig(sign(k).value, k, s) && PushData(sign(k).value) !in Instructions(s)
    requires var c := Chosen(Available(sign, keys), keys, required);
             |c| == required && Sized([], c, keys)
    ensures var c := Chosen(Available(sign, keys), keys, required);
            Verify(env, PushAll([[]] + c), MultisigScript(required, keys), p2sh).ok
  {
    hide Verify, PushAll, MultisigScript, Instructions, PushData, Sized;
    var found := Available(sign, keys);
    assert Merged(found, keys, required) == Chosen(found, keys, required);
    MergedAccepted(env, found, keys, required, p2sh);
  }

  // CombineMultisig

  ghost predicate HasSignature(env: Env, code: Data, all: set<Data>, k: Data) {
    exists v :: v in all && env.checkSig(v, k, code)
  }

  /** How many of the key positions some signature at hand is good for. */
  ghost function Coverage(env: Env, code: Data, all: set<Data>, keys: seq<Data>): nat {
    if keys == [] then 0
    else (if HasSignature(env, code, all, keys[0]) then 1 else 0) + Coverage(env, code, all, keys[1..])
  }

  /** No signature is good for two different keys, as for real signatures. */
  ghost predicate OneKeyEach(env: Env, code: Data, all: set<Data>, keys: seq<Data>) {
    forall v, j, k :: v in all && j in keys && k in keys && env.checkSig(v, j, code) && env.checkSig(v, k, code) ==>
      j == k
  }

  lemma {:induction false} ChosenCovers(env: Env, code: Data, all: set<Data>, found: map<Data, Data>, keys: seq<Data>,
                                        limit: nat)
    requires forall k :: k in keys ==> (k in found <==> HasSignature(env, code, all, k))
    ensures |Chosen(found, keys, limit)| == if Coverage(env, code, all, keys) < limit
            then Coverage(env, code, all, keys) else limit
    decreases |keys|
  {
    hide HasSignature;
    if keys != [] {
      assert keys[0] in keys;
      ChosenCovers(env, code, all, found, keys[1..], if limit > 0 && keys[0] in found then limit - 1 else limit);
    }
  }

  function NonEmpty(sigs: seq<Data>): set<Data> {
    set v | v in sigs && v != []
  }

  /** Every key the signature is good for is served, given that it is good for one key only. */
  ghost predicate Served(env: Env, code: Data, v: Data, keys: seq<Data>, found: map<Data, Data>) {
    forall k :: k in keys && env.checkSig(v, k, code) ==> k in found
  }

  /** One signature against all keys: it goes to the first key it is good for that has none yet. */
  method Place(env: Env, code: Data, v: Data, keys: seq<Data>, found: map<Data, Data>) returns (r: map<Data, Data>)
    requires Good(env, code, found)
    ensures Good(env, code, r) && found.Keys <= r.Keys && forall k :: k in found ==> r[k] == found[k]
    ensures forall k :: k in r && k !in found ==> k in keys && r[k] == v
    ensures OneKeyEach(env, code, {v}, keys) ==> Served(env, code, v, keys, r)
  {
    r := found;
    for i := 0 to |keys|
      invariant r == found
      invariant forall j :: 0 <= j < i && env.checkSig(v, keys[j], code) ==> keys[j] in found
    {
      if keys[i] in r {
        continue;
      }
      if env.checkSig(v, keys[i], code) {
        r := r[keys[i] := v];
        if OneKeyEach(env, code, {v}, keys) {
          forall k | k in keys && env.checkSig(v, k, code) ensures k in r {
            assert v in {v} && keys[i] in keys;
            assert k == keys[i];
          }
        }
        return;
      }
    }
  }

  /**
   CombineMultisig: gather the signatures of two inputs, give each to a key, and write them in key
   order behind OP_0, filling up with OP_0. The set is walked in any order.
   */
  method CombineMultisig(env: Env, code: Data, required: nat, keys: seq<Data>, sigs1: seq<Data>, sigs2: seq<Data>)
    returns (script: Data, have: nat, found: map<Data, Data>)
    requires EmptyFails(env)
    ensures Good(env, code, found) && found.Keys <= (set k | k in keys) && found.Values <= NonEmpty(sigs1 + sigs2)
    ensures have == |Chosen(found, keys, required)|
    ensures script == PushAll([[]] + Merged(found, keys, required))
    ensures OneKeyEach(env, code, NonEmpty(sigs1 + sigs2), keys) ==>
              forall k :: k in keys ==> (k in found <==> HasSignature(env, code, NonEmpty(sigs1 + sigs2), k))
  {
    found := MatchKeys(env, code, keys, NonEmpty(sigs1 + sigs2));
    script, have := WriteMerged(found, keys, required);
  }

  /** The map from keys to signatures, built signature by signature. */
  method MatchKeys(env: Env, code: Data, keys: seq<Data>, all: set<Data>) returns (found: map<Data, Data>)
    ensures Good(env, code, found) && found.Keys <= (set k | k in keys) && found.Values <= all
    ensures OneKeyEach(env, code, all, keys) ==> forall k :: k in keys ==>
            (k in found <==> HasSignature(env, code, all, k))
  {
    found := map[];
    var todo := all;
    while todo != {}
      invariant todo <= all && Good(env, code, found) && found.Keys <= (set k | k in keys) && found.Values <= all
      invariant OneKeyEach(env, code, all, keys) ==> forall v :: v in all - todo ==> Served(env, code, v, keys, found)
      decreases todo
    {
      var v :| v in todo;
      assert OneKeyEach(env, code, all, keys) ==> OneKeyEach(env, code, {v}, keys) by {
        if OneKeyEach(env, code, all, keys) {
          forall j, k | j in keys && k in keys && env.checkSig(v, j, code) && env.checkSig(v, k, code) ensures j == k {
            assert v in all;
          }
        }
      }
      ghost var before := found;
      found := Place(env, code, v, keys, found);
      forall u | u in all - todo && Served(env, code, u, keys, before) ensures Served(env, code, u, keys, found) {}
      todo := todo - {v};
    }
    if OneKeyEach(env, code, all, keys) {
      forall k | k in keys ensures k in found <==> HasSignature(env, code, all, k) {
        if k in found {
          assert found[k] in all && env.checkSig(found[k], k, code);
        }
        if v :| v in all && env.checkSig(v, k, code) {
          assert Served(env, code, v, keys, found);
        }
      }
    }
  }

  /** The merged script: OP_0, the chosen signatures, then OP_0 for each one missing. */
  method WriteMerged(found: map<Data, Data>, keys: seq<Data>, required: nat) returns (script: Data, have: nat)
    ensures have == |Chosen(found, keys, required)| && script == PushAll([[]] + Merged(found, keys, required))
  {
    hide PushData, PushAll, Chosen;
    var result := new Builder();
    result.AddOp(OP_0);
    ghost var done: seq<Data> := [];
    PushBlank();
    assert [[]] + done == [[]];
    have := 0;
    var i := 0;
    assert keys[0..] == keys && [] + Chosen(found, keys, required) == Chosen(found, keys, required);
    while i < |keys| && have < required
      invariant i <= |keys| && have == |done| <= required
      invariant result.bytes == PushAll([[]] + done)
      invariant done + Chosen(found, keys[i..], required - have) == Chosen(found, keys, required)
    {
      ChosenStep(found, keys, i, required - have, done);
      if keys[i] in found {
        PushOneMore([[]] + done, found[keys[i]]);
        assert [[]] + done + [found[keys[i]]] == [[]] + (done + [found[keys[i]]]);
        result.AddData(found[keys[i]]);
        done := done + [found[keys[i]]];
        have := have + 1;
      }
      i := i + 1;
    }
    ChosenNone(found, keys[i..]);
    assert done + [] == done;
    assert done == Chosen(found, keys, required);
    ghost var chosen := done;
    for j := have to required
      invariant done == chosen + Blanks(j - have)
      invariant result.bytes == PushAll([[]] + done)
    {
      PushOneMore([[]] + done, []);
      assert [[]] + done + [[]] == [[]] + (done + [[]]);
      assert chosen + Blanks(j - have) + [[]] == chosen + Blanks(j + 1 - have);
      result.AddOp(OP_0);
      done := done + [[]];
    }
    script := result.bytes;
  }

  /**
   With signatures that are each good for one key only, the merged script is accepted exactly when the
   two inputs together hold signatures for the required number of keys.
   */
  lemma CombinedIffEnough(env: Env, found: map<Data, Data>, all: set<Data>, keys: seq<Data>, required: nat, p2sh: bool)
    requires 1 <= required <= |keys| <= 16 && EmptyFails(env)
    requires Good(env, MultisigScript(required, keys), found)
    requires Sized([], Merged(found, keys, required), keys)
    requires forall k :: k in found ==> PushData(found[k]) !in Instructions(MultisigScript(required, keys))
    requires forall k :: k in keys ==> (k in found <==> HasSignature(env, MultisigScript(required, keys), all, k))
    ensures Verify(env, PushAll([[]] + Merged(found, keys, required)), MultisigScript(required, keys), p2sh).ok
        <==> Coverage(env, MultisigScript(required, keys), all, keys) >= required
  {
    hide Verify, PushAll, MultisigScript, Instructions, PushData, EmptyFails, Good, HasSignature, Sized;
    MergedAccepted(env, found, keys, required, p2sh);
    ChosenCovers(env, MultisigScript(required, keys), all, found, keys, required);
  }
}
