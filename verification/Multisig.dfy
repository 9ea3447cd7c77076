/**
 CHECKMULTISIG: what its greedy loop decides, what it takes from the stack, and why the scripts
 assembled by PushAll, SignN and CombineMultisig pass or fail it.
 */
module Multisig {
  import opened Bytes
  import opened Radix
  import opened BigNum
  import opened Script
  import opened Interp
  import opened SigOps

  /** f gives every signature a key that verifies it, in the order of the keys. */
  ghost predicate Assigns(env: Env, sigs: seq<Data>, keys: seq<Data>, code: Data, f: seq<nat>) {
    && |f| == |sigs|
    && (forall i :: 0 <= i < |f| ==> f[i] < |keys| && env.checkSig(sigs[i], keys[f[i]], code))
    && (forall i, j :: 0 <= i < j < |f| ==> f[i] < f[j])
  }

  lemma {:induction false} IncreasingFits(f: seq<nat>, n: nat)
    requires forall i :: 0 <= i < |f| ==> f[i] < n
    requires forall i, j :: 0 <= i < j < |f| ==> f[i] < f[j]
    ensures |f| <= n
  {
    if f != [] {
      var last := |f| - 1;
      forall i | 0 <= i < last ensures f[i] < f[last] {}
      IncreasingFits(f[..last], f[last]);
    }
  }

  /** Assignments survive dropping the first key when it is not used. */
  lemma AssignsTail(env: Env, sigs: seq<Data>, keys: seq<Data>, code: Data, f: seq<nat>) returns (g: seq<nat>)
    requires Assigns(env, sigs, keys, code, f) && keys != [] && (f != [] ==> f[0] > 0)
    ensures Assigns(env, sigs, keys[1..], code, g)
  {
    forall i | 0 <= i < |f| ensures f[i] > 0 {
      if i > 0 { assert f[0] < f[i]; }
    }
    g := seq(|f|, i requires 0 <= i < |f| => f[i] - 1);
  }

  lemma {:induction false} MatchFinds(env: Env, sigs: seq<Data>, keys: seq<Data>, code: Data, f: seq<nat>)
    requires |sigs| <= |keys| && Assigns(env, sigs, keys, code, f)
    ensures Match(env, sigs, keys, code).ok
    decreases |keys|
  {
    if sigs != [] {
      var g;
      var left := sigs;
      if env.checkSig(sigs[0], keys[0], code) {
        left := sigs[1..];
        g := AssignsTail(env, left, keys, code, f[1..]);
      } else {
        g := AssignsTail(env, sigs, keys, code, f);
      }
      IncreasingFits(g, |keys| - 1);
      MatchFinds(env, left, keys[1..], code, g);
    }
  }

  lemma AssignsSkip(env: Env, sigs: seq<Data>, keys: seq<Data>, code: Data, g: seq<nat>) returns (f: seq<nat>)
    requires keys != [] && Assigns(env, sigs, keys[1..], code, g)
    ensures Assigns(env, sigs, keys, code, f) && forall i :: 0 <= i < |f| ==> f[i] > 0
  {
    f := seq(|g|, i requires 0 <= i < |g| => g[i] + 1);
  }

  lemma AssignsFirst(env: Env, sigs: seq<Data>, keys: seq<Data>, code: Data, g: seq<nat>) returns (f: seq<nat>)
    requires sigs != [] && keys != [] && env.checkSig(sigs[0], keys[0], code)
    requires Assigns(env, sigs[1..], keys[1..], code, g)
    ensures Assigns(env, sigs, keys, code, f)
  {
    var up := AssignsSkip(env, sigs[1..], keys, code, g);
    f := [0] + up;
    forall i | 0 <= i < |f| ensures f[i] < |keys| && env.checkSig(sigs[i], keys[f[i]], code) {
      if i > 0 {
        assert f[i] == up[i - 1] && sigs[i] == sigs[1..][i - 1];
      }
    }
  }

  lemma {:induction false} MatchYields(env: Env, sigs: seq<Data>, keys: seq<Data>, code: Data) returns (f: seq<nat>)
    requires |sigs| <= |keys| && Match(env, sigs, keys, code).ok
    ensures Assigns(env, sigs, keys, code, f)
    decreases |keys|
  {
    if sigs == [] {
      f := [];
    } else if env.checkSig(sigs[0], keys[0], code) {
      var g := MatchYields(env, sigs[1..], keys[1..], code);
      f := AssignsFirst(env, sigs, keys, code, g);
    } else {
      var g := MatchYields(env, sigs, keys[1..], code);
      f := AssignsSkip(env, sigs, keys, code, g);
    }
  }

  /** The greedy loop succeeds exactly when some order-preserving assignment of signatures to keys does. */
  lemma MatchIffAssignable(env: Env, sigs: seq<Data>, keys: seq<Data>, code: Data)
    requires |sigs| <= |keys|
    ensures Match(env, sigs, keys, code).ok <==> exists f :: Assigns(env, sigs, keys, code, f)
  {
    if Match(env, sigs, keys, code).ok {
      var f := MatchYields(env, sigs, keys, code);
    }
    if f :| Assigns(env, sigs, keys, code, f) {
      MatchFinds(env, sigs, keys, code, f);
    }
  }

  /** The same read from the other end: keys and signatures in the order they were pushed. */
  lemma AssignsReversed(env: Env, sigs: seq<Data>, keys: seq<Data>, code: Data, f: seq<nat>) returns (g: seq<nat>)
    requires Assigns(env, sigs, keys, code, f)
    ensures Assigns(env, Reverse(sigs), Reverse(keys), code, g)
  {
    var n, k := |keys|, |f|;
    g := seq(k, i requires 0 <= i < k => n - 1 - f[k - 1 - i]);
    forall i, j | 0 <= i < j < k ensures g[i] < g[j] {
      assert f[k - 1 - j] < f[k - 1 - i];
    }
  }

  /** A stack holding a multisignature: a spare item, signatures, their count, keys, their count. */
  function Laid(base: seq<Data>, spare: Data, sigs: seq<Data>, k: Data, keys: seq<Data>, n: Data): seq<Data> {
    base + [spare] + sigs + [k] + keys + [n]
  }

  lemma BelowOf(s: seq<Data>, pre: seq<Data>, mid: seq<Data>, post: seq<Data>)
    requires s == pre + mid + post
    ensures Below(s, |post| + 1, |mid|) == Reverse(mid)
  {
    forall j | 0 <= j < |mid| ensures Below(s, |post| + 1, |mid|)[j] == Reverse(mid)[j] {
      assert s[|s| - |post| - 1 - j] == mid[|mid| - 1 - j];
    }
  }

  lemma LaidParts(base: seq<Data>, spare: Data, sigs: seq<Data>, k: Data, keys: seq<Data>, n: Data)
    ensures var s := Laid(base, spare, sigs, k, keys, n);
            && |s| == |base| + 3 + |keys| + |sigs|
            && Top(s, 1) == n && Top(s, 2 + |keys|) == k
            && Below(s, 2, |keys|) == Reverse(keys) && Below(s, 3 + |keys|, |sigs|) == Reverse(sigs)
            && Drop(s, 3 + |keys| + |sigs|) == base
  {
    hide Below;
    var s := Laid(base, spare, sigs, k, keys, n);
    BelowOf(s, base + [spare] + sigs + [k], keys, [n]);
    var post := [k] + keys + [n];
    assert s == base + [spare] + sigs + post;
    BelowOf(s, base + [spare], sigs, post);
  }

  lemma SmallNum(n: nat)
    requires n <= 20
    ensures CastToNum(ToVch(n)) == Some(n)
  {
    VchLength(n);
    VchRoundTrip(n);
  }

  /** CHECKMULTISIG goes ahead exactly on a stack laid out for it, within the limits on keys and opcodes. */
  lemma MultisigRunsIff(env: Env, m: Machine)
    ensures CheckMany(env, false, m).Run? <==>
            exists base, spare, sigs, k, keys, n :: LaidFor(m, base, spare, sigs, k, keys, n)
  {
    hide Match, Unsigned, CastToNum, Laid;
    if CheckMany(env, false, m).Run? {
      var s := m.stack;
      var n := CastToNum(Top(s, 1)).value;
      var k := CastToNum(Top(s, 2 + n)).value;
      var base, spare, sigs, keys := LaidOut(s, n, k);
      assert LaidFor(m, base, spare, sigs, Top(s, 2 + n), keys, Top(s, 1));
    }
    forall base, spare, sigs, k, keys, n | LaidFor(m, base, spare, sigs, k, keys, n)
      ensures CheckMany(env, false, m).Run?
    {
      MultisigConsumes(env, false, m, base, spare, sigs, k, keys, n);
    }
  }

  ghost predicate LaidFor(m: Machine, base: seq<Data>, spare: Data, sigs: seq<Data>, k: Data, keys: seq<Data>,
                          n: Data) {
    && |sigs| <= |keys| <= 20 && m.ops + |keys| <= 201 && m.stack == Laid(base, spare, sigs, k, keys, n)
    && CastToNum(k) == Some(|sigs|) && CastToNum(n) == Some(|keys|)
  }

  lemma LaidOut(s: seq<Data>, n: nat, k: nat) returns (base: seq<Data>, spare: Data, sigs: seq<Data>, keys: seq<Data>)
    requires |s| >= 3 + n + k
    ensures s == Laid(base, spare, sigs, Top(s, 2 + n), keys, Top(s, 1)) && |sigs| == k && |keys| == n
  {
    var d := |s| - 3 - n - k;
    base, spare, sigs, keys := s[..d], s[d], s[d + 1..d + 1 + k], s[d + 2 + k..d + 2 + k + n];
  }

  /**
   With counts that stand for the numbers of signatures and keys, written in any way, exactly their sum
   and three more items go. The verdict of the loop comes back; the verifying form takes it off again
   or stops the script.
   */
  lemma MultisigConsumes(env: Env, verify: bool, m: Machine, base: seq<Data>, spare: Data, sigs: seq<Data>, k: Data,
                         keys: seq<Data>, n: Data)
    requires |sigs| <= |keys| <= 20 && m.ops + |keys| <= MAX_OPS && m.stack == Laid(base, spare, sigs, k, keys, n)
    requires CastToNum(k) == Some(|sigs|) && CastToNum(n) == Some(|keys|)
    ensures var t := Match(env, Reverse(sigs), Reverse(keys), Unsigned(m.code, Reverse(sigs)));
            var after := m.(stack := base + [BoolData(t.ok)], ops := m.ops + |keys|, checks := m.checks + t.checks);
            CheckMany(env, verify, m) ==
            if !verify then Run(after) else if t.ok then Run(after.(stack := base)) else Halt(after)
  {
    hide CastToNum, Match, Unsigned, Laid;
    LaidParts(base, spare, sigs, k, keys, n);
  }
}
