/** Byte strings, and the few container helpers every other module shares. */
module Bytes {

  datatype Option<+T> = None | Some(value: T)

  type Byte = b: int | 0 <= b < 256

  type Data = seq<Byte>

  function Reverse<T>(s: seq<T>): (r: seq<T>)
    ensures |r| == |s|
    ensures forall i :: 0 <= i < |s| ==> r[i] == s[|s| - 1 - i]
  {
    seq(|s|, i requires 0 <= i < |s| => s[|s| - 1 - i])
  }

  lemma ReverseTwice<T>(s: seq<T>)
    ensures Reverse(Reverse(s)) == s
  {
  }

  /** The values of a 32-bit word. */
  const WORD: nat := 0x1_0000_0000

  lemma Assoc<T>(a: seq<T>, b: seq<T>, c: seq<T>)
    ensures a + (b + c) == a + b + c
  {
  }

  /** Some element of a non-empty set. */
  lemma Pick<T>(s: set<T>) returns (x: T)
    requires s != {}
    ensures x in s
  {
    x :| x in s;
  }

  /** The first element of a set of integers, as an ordered container walks it. */
  predicate IsMin(s: set<int>, m: int) {
    m in s && forall x :: x in s ==> m <= x
  }

  lemma {:induction false} MinExists(s: set<int>) returns (m: int)
    requires s != {}
    ensures IsMin(s, m)
    decreases |s|
  {
    var x := Pick(s);
    m := x;
    if |s - {x}| > 0 {
      var n := MinExists(s - {x});
      m := if x < n then x else n;
    }
    forall y | y in s ensures m <= y {
      assert y == x || y in s - {x};
    }
  }
}

/** Positional notation: the arithmetic under the number encodings. */
module Radix {
  import opened Bytes

  /** The number a little-endian digit string stands for. */
  function Value(s: seq<nat>, base: nat): nat
    requires base >= 2
  {
    if s == [] then 0 else s[0] + base * Value(s[1..], base)
  }

  /** The shortest little-endian digit string of n; empty for zero. */
  function Digits(n: nat, base: nat): (s: seq<nat>)
    requires base >= 2
    ensures forall i :: 0 <= i < |s| ==> s[i] < base
    ensures n > 0 ==> s != []
    decreases n
  {
    if n == 0 then [] else
      DivShrinks(n, base);
      [n % base] + Digits(n / base, base)
  }

  /** Exactly k little-endian digits of n, higher ones dropped. */
  function Fixed(n: nat, base: nat, k: nat): (s: seq<nat>)
    requires base >= 2
    ensures |s| == k
    ensures forall i :: 0 <= i < |s| ==> s[i] < base
    decreases k
  {
    if k == 0 then [] else
      DivShrinks(n, base);
      [n % base] + Fixed(n / base, base, k - 1)
  }

  function Pow(base: nat, k: nat): (p: nat)
    requires base >= 1
    ensures p >= 1
  {
    if k == 0 then 1 else base * Pow(base, k - 1)
  }

  lemma DivShrinks(n: nat, base: nat)
    requires base >= 2
    ensures 0 <= n / base <= n && 0 <= n % base < base
    ensures n > 0 ==> n / base < n
    ensures n == base * (n / base) + n % base
  {
    MulMono(n / base, 2, base);
  }

  lemma MulMono(a: nat, x: int, y: int)
    requires x <= y
    ensures a * x <= a * y
  {
  }

  /** A nonzero multiple of a is at least a away from zero. */
  lemma MulGap(a: nat, e: int)
    ensures e >= 1 ==> a * e >= a
    ensures e <= -1 ==> a * e <= 0 - a
    ensures e == 0 ==> a * e == 0
  {
    if e >= 1 { MulMono(a, 1, e); }
    if e <= -1 { MulMono(a, e, -1); }
  }

  lemma {:induction false} ValueOfDigits(n: nat, base: nat)
    requires base >= 2
    ensures Value(Digits(n, base), base) == n
    decreases n
  {
    if n > 0 {
      DivShrinks(n, base);
      ValueOfDigits(n / base, base);
      assert Digits(n, base)[1..] == Digits(n / base, base);
    }
  }

  /** Digit strings over the base without a most significant zero are the shortest ones. */
  predicate Canonical(s: seq<nat>, base: nat)
  {
    (forall i :: 0 <= i < |s| ==> s[i] < base) && (s != [] ==> s[|s| - 1] != 0)
  }

  lemma {:induction false} DigitsCanonical(n: nat, base: nat)
    requires base >= 2
    ensures Canonical(Digits(n, base), base)
    decreases n
  {
    if n > 0 {
      DivShrinks(n, base);
      DigitsCanonical(n / base, base);
      if n / base == 0 {
        assert n % base == n;
      }
    }
  }

  lemma {:induction false} DigitsOfValue(s: seq<nat>, base: nat)
    requires base >= 2 && Canonical(s, base)
    ensures Digits(Value(s, base), base) == s
    ensures s != [] ==> Value(s, base) > 0
  {
    if s != [] {
      DigitsOfValue(s[1..], base);
      var v := Value(s[1..], base);
      DivModStep(s[0], v, base);
      assert s == [s[0]] + s[1..];
    }
  }

  lemma DivModStep(d: nat, q: nat, base: nat)
    requires d < base && base >= 2
    ensures (d + base * q) % base == d && (d + base * q) / base == q
    ensures d > 0 || q > 0 ==> d + base * q > 0
  {
    var n := d + base * q;
    DivShrinks(n, base);
    var e := n / base - q;
    assert base * e == d - n % base;
    MulGap(base, e);
    MulGap(base, q);
  }

  lemma DivBelow(n: nat, base: nat, p: nat)
    requires base >= 2 && n < base * p
    ensures n / base < p
  {
    DivShrinks(n, base);
    MulGap(base, p - n / base);
    assert base * (p - n / base) == base * p - base * (n / base);
  }

  lemma {:induction false} ValueOfFixed(n: nat, base: nat, k: nat)
    requires base >= 2 && n < Pow(base, k)
    ensures Value(Fixed(n, base, k), base) == n
    decreases k
  {
    if k > 0 {
      DivShrinks(n, base);
      DivBelow(n, base, Pow(base, k - 1));
      ValueOfFixed(n / base, base, k - 1);
      assert Fixed(n, base, k)[1..] == Fixed(n / base, base, k - 1);
    }
  }

  lemma StepBelow(d: nat, v: nat, p: nat, base: nat)
    requires d < base && v < p
    ensures d + base * v < base * p
  {
    MulMono(base, v + 1, p);
    assert base * (v + 1) == base * v + base;
  }

  /** The number a big-endian digit string stands for. */
  function ValueBE(s: seq<nat>, base: nat): nat
    requires base >= 2
  {
    if s == [] then 0 else ValueBE(s[..|s| - 1], base) * base + s[|s| - 1]
  }

  lemma {:induction false} ReadReversed(s: seq<nat>, base: nat)
    requires base >= 2
    ensures ValueBE(Reverse(s), base) == Value(s, base)
  {
    if s != [] {
      ReadReversed(s[1..], base);
      assert Reverse(s)[..|s| - 1] == Reverse(s[1..]);
    }
  }

  /** A big-endian string splits at any point into a high and a low part. */
  lemma {:induction false} SplitBE(s: seq<nat>, t: seq<nat>, base: nat)
    requires base >= 2
    ensures ValueBE(s + t, base) == ValueBE(s, base) * Pow(base, |t|) + ValueBE(t, base)
  {
    if t == [] {
      assert s + t == s;
    } else {
      var u := t[..|t| - 1];
      SplitBE(s, u, base);
      assert (s + t)[..|s + t| - 1] == s + u;
      Distribute(ValueBE(s, base), Pow(base, |u|), ValueBE(u, base), base);
    }
  }

  lemma Distribute(a: nat, p: nat, b: nat, base: nat)
    ensures (a * p + b) * base == a * (base * p) + b * base
  {
    assert (a * p + b) * base == (a * p) * base + b * base;
    assert (a * p) * base == a * (base * p);
  }

  lemma {:induction false} BoundBE(s: seq<nat>, base: nat)
    requires base >= 2 && forall i :: 0 <= i < |s| ==> s[i] < base
    ensures ValueBE(s, base) < Pow(base, |s|)
  {
    if s != [] {
      BoundBE(s[..|s| - 1], base);
      StepBelow(s[|s| - 1], ValueBE(s[..|s| - 1], base), Pow(base, |s| - 1), base);
    }
  }

  lemma {:induction false} ZerosBE(k: nat, base: nat)
    requires base >= 2
    ensures ValueBE(seq(k, i => 0), base) == 0
  {
    if k > 0 {
      ZerosBE(k - 1, base);
      assert seq(k, i => 0)[..k - 1] == seq(k - 1, i => 0);
    }
  }

  lemma {:induction false} PowAdd(base: nat, a: nat, b: nat)
    requires base >= 1
    ensures Pow(base, a + b) == Pow(base, a) * Pow(base, b)
    decreases a
  {
    if a > 0 {
      PowAdd(base, a - 1, b);
      assert a - 1 + b == a + b - 1;
      Associate(base, Pow(base, a - 1), Pow(base, b));
    }
  }

  lemma Associate(x: nat, y: nat, z: nat)
    ensures x * (y * z) == x * y * z
  {
  }

  lemma {:induction false} PowGrows(base: nat, a: nat, b: nat)
    requires base >= 1 && a <= b
    ensures Pow(base, a) <= Pow(base, b)
    decreases b
  {
    if a < b {
      PowGrows(base, a, b - 1);
      MulMono(Pow(base, b - 1), 1, base);
    }
  }
}
