/**
 Arbitrary-precision integers as the node reads and writes them: OpenSSL's MPI format, the
 script number format, and the 32-bit "compact" form used for difficulty targets.
 The OpenSSL calls are specified by Mpi and FromMpi; everything above them is modelled.
 */
module BigNum {
  import opened Bytes
  import opened Radix

  function Abs(n: int): (a: nat)
    ensures a == n || a == -n
  {
    if n < 0 then -n else n
  }

  /** The shortest big-endian bytes of a natural number. */
  function Magnitude(a: nat): Data {
    Reverse(Digits(a, 256))
  }

  function SignBit(negative: bool): Byte {
    if negative then 128 else 0
  }

  /** Sign and magnitude, big-endian: a byte is added when the top bit is taken by the magnitude. */
  function Wrap(m: Data, negative: bool): Data {
    if m == [] then []
    else if m[0] >= 128 then [SignBit(negative)] + m
    else [m[0] + SignBit(negative)] + m[1..]
  }

  function Payload(n: int): Data {
    Wrap(Magnitude(Abs(n)), n < 0)
  }

  function BigEndian32(n: nat): (d: Data)
    ensures |d| == 4
  {
    Reverse(Fixed(n, 256, 4))
  }

  /** BN_bn2mpi: a four-byte length, then the payload. */
  function Mpi(n: int): Data {
    BigEndian32(|Payload(n)|) + Payload(n)
  }

  function ClearTop(p: Data): Data
    requires p != []
  {
    [p[0] % 128] + p[1..]
  }

  function FromPayload(p: Data): int {
    if p == [] then 0
    else
      var a := ValueBE(ClearTop(p), 256);
      if p[0] >= 128 then 0 - a else a
  }

  /** BN_mpi2bn: nothing is read when the stated length is wrong. */
  function FromMpi(d: Data): Option<int> {
    if |d| < 4 || ValueBE(d[..4], 256) != |d| - 4 then None
    else Some(FromPayload(d[4..]))
  }

  lemma MagnitudeValue(a: nat)
    ensures ValueBE(Magnitude(a), 256) == a
    ensures Magnitude(a) == [] <==> a == 0
    ensures Magnitude(a) != [] ==> Magnitude(a)[0] != 0
  {
    var d := Digits(a, 256);
    ReadReversed(d, 256);
    ValueOfDigits(a, 256);
    DigitsCanonical(a, 256);
  }

  lemma MagnitudeUnique(m: Data)
    requires m != [] ==> m[0] != 0
    ensures Magnitude(ValueBE(m, 256)) == m
  {
    var d: seq<nat> := Reverse<nat>(m);
    assert Reverse<nat>(d) == m;
    ReadReversed(d, 256);
    DigitsOfValue(d, 256);
  }

  lemma LeadingZero(s: Data)
    ensures ValueBE([0] + s, 256) == ValueBE(s, 256)
  {
    SplitBE([0], s, 256);
    assert ValueBE([0], 256) == 0 by { assert [0][..0] == []; }
  }

  lemma WrapValue(m: Data, negative: bool)
    ensures FromPayload(Wrap(m, negative)) == if negative then 0 - ValueBE(m, 256) else ValueBE(m, 256)
  {
    if m != [] {
      if m[0] >= 128 {
        assert ClearTop(Wrap(m, negative)) == [0] + m;
        LeadingZero(m);
      } else {
        assert ClearTop(Wrap(m, negative)) == m;
      }
    }
  }

  /** The MPI payload loses nothing. */
  lemma PayloadRoundTrip(n: int)
    ensures FromPayload(Payload(n)) == n
  {
    MagnitudeValue(Abs(n));
    WrapValue(Magnitude(Abs(n)), n < 0);
  }

  /** Payloads OpenSSL can produce: no redundant leading byte. */
  predicate Shortest(p: Data) {
    p != [] && p[0] % 128 == 0 ==> |p| >= 2 && p[1] >= 128
  }

  /** The magnitude bytes of a shortest payload. */
  function Unwrap(p: Data): Data
    requires Shortest(p)
  {
    if p == [] then [] else if p[0] % 128 == 0 then p[1..] else ClearTop(p)
  }

  lemma UnwrapShortest(p: Data)
    requires Shortest(p)
    ensures Unwrap(p) != [] ==> Unwrap(p)[0] != 0
    ensures p != [] ==> Wrap(Unwrap(p), p[0] >= 128) == p
    ensures p != [] ==> ValueBE(Unwrap(p), 256) == ValueBE(ClearTop(p), 256)
    ensures p == [] <==> Unwrap(p) == []
  {
    if p != [] && p[0] % 128 == 0 {
      assert ClearTop(p) == [0] + p[1..];
      LeadingZero(p[1..]);
    }
  }

  lemma WrapShortest(m: Data, negative: bool)
    requires m != [] ==> m[0] != 0
    ensures Shortest(Wrap(m, negative))
  {
  }

  lemma PayloadShortest(n: int)
    ensures Shortest(Payload(n))
  {
    hide Shortest, Wrap, Magnitude;
    MagnitudeValue(Abs(n));
    WrapShortest(Magnitude(Abs(n)), n < 0);
  }

  /** A shortest payload is the one its value is written with. */
  lemma PayloadUnique(p: Data)
    requires Shortest(p)
    ensures Payload(FromPayload(p)) == p
  {
    hide Magnitude, ValueBE, Unwrap, Wrap, ClearTop;
    var m := Unwrap(p);
    UnwrapShortest(p);
    WrapNothing();
    MagnitudeUnique(m);
    MagnitudeValue(ValueBE(m, 256));
  }

  lemma WrapNothing()
    ensures Wrap([], false) == []
  {
  }

  /** How many bytes a number needs, the sign bit included. */
  lemma PayloadSize(n: int)
    ensures var k := |Payload(n)|;
            2 * Abs(n) < Pow(256, k) && (n != 0 ==> k > 0 && 2 * Abs(n) >= Pow(256, k - 1)) && (n == 0 ==> k == 0)
  {
    var m := Magnitude(Abs(n));
    MagnitudeValue(Abs(n));
    if m != [] {
      SplitBE(m[..1], m[1..], 256);
      assert m == m[..1] + m[1..];
      assert ValueBE(m[..1], 256) == m[0] by { assert m[..1][..0] == []; }
      BoundBE(m[1..], 256);
      TopByte(m[0], Pow(256, |m| - 1), ValueBE(m[1..], 256));
    }
  }

  lemma TopByte(b: Byte, p: nat, low: nat)
    requires 0 < b && low < p
    ensures b >= 128 ==> 256 * p <= 2 * (b * p + low) < 256 * (256 * p)
    ensures b < 128 ==> p <= 2 * (b * p + low) < 256 * p
  {
    MulMono(p, 1, b);
    if b >= 128 {
      MulMono(p, 128, b);
      MulMono(p, b, 255);
    } else {
      MulMono(p, b, 127);
    }
  }

  /** Taking the top byte off a 64-bit register and shifting the rest up. */
  lemma ShiftOut(word: nat, low: nat, i: nat)
    requires i < 8 && word == low * Pow(256, i) && low < Pow(256, 8 - i)
    ensures var q := Pow(256, 7 - i);
            && word / 0x100_0000_0000_0000 == low / q < 256
            && word * 256 % 0x1_0000_0000_0000_0000 == low % q * Pow(256, i + 1)
            && low % q < q && low == low / q * q + low % q
  {
    var p, q := Pow(256, i), Pow(256, 7 - i);
    assert p * q == 0x100_0000_0000_0000 by {
      PowAdd(256, i, 7 - i);
      assert Pow(256, 7) == 0x100_0000_0000_0000;
    }
    assert Pow(256, 8 - i) == 256 * q;
    ShiftOutAt(low, p, q);
  }

  lemma ShiftOutAt(low: nat, p: nat, q: nat)
    requires p > 0 && q > 0 && p * q == 0x100_0000_0000_0000 && low < 256 * q
    ensures low * p / 0x100_0000_0000_0000 == low / q < 256
    ensures low * p * 256 % 0x1_0000_0000_0000_0000 == low % q * (256 * p)
    ensures low % q < q && low == low / q * q + low % q
  {
    var c, l := low / q, low % q;
    assert low == q * c + l && 0 <= l < q;
    QuotientBelow(low, q, 256);
    Expand(q, c, l, p);
    MulBelow(l, q, p);
    var lp := l * p;
    assert low * p == 0x100_0000_0000_0000 * c + lp;
    DivModStep(lp, c, 0x100_0000_0000_0000);
    DivModStep(256 * lp, c, 0x1_0000_0000_0000_0000);
    assert l * (256 * p) == 256 * lp;
  }

  lemma QuotientBelow(n: nat, q: nat, c: nat)
    requires q > 0 && n < c * q
    ensures n / q < c
  {
    MulGap(q, c - n / q);
    assert q * (c - n / q) == q * c - q * (n / q);
  }

  lemma Expand(q: nat, c: nat, l: nat, p: nat)
    ensures (q * c + l) * p == (p * q) * c + l * p
  {
    assert (q * c + l) * p == (q * c) * p + l * p;
    assert (q * c) * p == (p * q) * c;
  }

  lemma MulBelow(l: nat, q: nat, p: nat)
    requires l < q && p > 0
    ensures l * p < p * q
  {
    MulMono(p, l + 1, q);
    assert p * (l + 1) == p * l + p;
  }

  lemma Rejoin(high: nat, q: nat, low: nat)
    requires q > 0
    ensures high * (256 * q) + low == (256 * high + low / q) * q + low % q
  {
    assert low == low / q * q + low % q;
    assert (256 * high + low / q) * q == 256 * high * q + low / q * q;
  }

  /** After i shifts the register holds the low bytes of a, moved up; high is what was shifted out. */
  predicate Register(a: nat, word: nat, high: nat, low: nat, i: nat) {
    i <= 8 && word == low * Pow(256, i) && low < Pow(256, 8 - i) && a == high * Pow(256, 8 - i) + low
  }

  lemma RegisterStep(a: nat, word: nat, high: nat, low: nat, i: nat) returns (rest: nat)
    requires i < 8 && Register(a, word, high, low, i)
    ensures word / 0x100_0000_0000_0000 < 256
    ensures Register(a, word * 256 % 0x1_0000_0000_0000_0000, 256 * high + word / 0x100_0000_0000_0000, rest, i + 1)
  {
    rest := low % Pow(256, 7 - i);
    ShiftOut(word, low, i);
    Rejoin(high, Pow(256, 7 - i), low);
  }

  /** out is what has been written for the bytes read so far, whose value is high. */
  predicate Written(out: Data, negative: bool, high: nat) {
    if out == [] then high == 0
    else ValueBE(ClearTop(out), 256) == high && (out[0] >= 128 <==> negative)
  }

  lemma WriteFirst(c: Byte, negative: bool)
    requires c != 0
    ensures c >= 128 ==> Written([SignBit(negative), c], negative, c)
    ensures c < 128 ==> Written([c + SignBit(negative)], negative, c)
  {
    var two: Data := [0, c];
    assert two[..1] == [0] && [0][..0] == [] && two[..1][..0] == [];
    if c < 128 {
      var one: Data := [c];
      assert one[..0] == [] && ClearTop([c + SignBit(negative)]) == one;
    } else {
      assert ClearTop([SignBit(negative), c]) == two;
    }
  }

  lemma WriteNext(out: Data, c: Byte, negative: bool, high: nat)
    requires out != [] && Written(out, negative, high)
    ensures Written(out + [c], negative, 256 * high + c)
  {
    assert ClearTop(out + [c])[..|out|] == ClearTop(out);
  }

  lemma WrittenValue(out: Data, negative: bool, high: nat)
    requires Written(out, negative, high)
    ensures FromPayload(out) == if negative then 0 - high else high
  {
  }

  lemma RegisterEnds(a: nat)
    ensures a < 0x1_0000_0000_0000_0000 ==> Register(a, a, 0, a, 0)
    ensures forall word, high, low :: Register(a, word, high, low, 8) ==> high == a
  {
    assert Pow(256, 8) == 0x1_0000_0000_0000_0000 && Pow(256, 0) == 1;
  }

  /**
   CBigNum::setint64: the bytes of |n| from the top, leading zeroes dropped, the sign folded in. The
   negation of the least integer is taken to wrap around, which leaves the bits of its magnitude.
   */
  method SetInt64(n: int) returns (bn: int)
    requires -0x8000_0000_0000_0000 <= n < 0x8000_0000_0000_0000
    ensures bn == n
  {
    hide Register, FromPayload, ValueBE;
    var negative := n < 0;
    var word := Abs(n);
    var out: Data := [];
    var leadingZeroes := true;
    ghost var high: nat, low: nat := 0, Abs(n);
    RegisterEnds(Abs(n));
    assert Written(out, negative, 0);
    for i := 0 to 8
      invariant Register(Abs(n), word, high, low, i)
      invariant leadingZeroes <==> out == []
      invariant Written(out, negative, high)
    {
      ghost var before := high;
      low := RegisterStep(Abs(n), word, high, low, i);
      var c: Byte := word / 0x100_0000_0000_0000;
      word := word * 256 % 0x1_0000_0000_0000_0000;
      high := 256 * high + c;
      if leadingZeroes {
        if c == 0 {
          continue;
        }
        assert before == 0;
        WriteFirst(c, negative);
        if c >= 128 {
          out := [SignBit(negative)];
        } else if negative {
          c := c + 128;
        }
        leadingZeroes := false;
        assert out + [c] == if out == [] then [c] else [SignBit(negative), c];
      } else {
        WriteNext(out, c, negative, before);
      }
      out := out + [c];
    }
    WrittenValue(out, negative, high);
    bn := FromPayload(out);
  }

  /** The script form of a number: the payload, little-endian. */
  function ToVch(n: int): Data {
    Reverse(Payload(n))
  }

  function FromVch(v: Data): int {
    FromPayload(Reverse(v))
  }

  /** Script numbers are little-endian, with the sign in the top bit of the last byte. */
  lemma VchFormula(v: Data)
    ensures v == [] ==> FromVch(v) == 0
    ensures v != [] && v[|v| - 1] < 128 ==> FromVch(v) == Value(v, 256)
    ensures v != [] && v[|v| - 1] >= 128 ==> FromVch(v) == 0 - Value(v[|v| - 1 := v[|v| - 1] - 128], 256)
  {
    if v != [] {
      var p := Reverse(v);
      var last := v[|v| - 1];
      var w: Data := v[|v| - 1 := last % 128];
      assert p[0] == last;
      assert ClearTop(p) == Reverse<nat>(w);
      ReadReversed(w, 256);
      assert last < 128 ==> w == v;
      assert last >= 128 ==> w == v[|v| - 1 := last - 128];
    }
  }

  lemma VchRoundTrip(n: int)
    ensures FromVch(ToVch(n)) == n
  {
    ReverseTwice(Payload(n));
    PayloadRoundTrip(n);
  }

  /** Exactly the numbers below 2^31 in magnitude fit the four bytes a script number may have. */
  lemma VchLength(n: int)
    ensures |ToVch(n)| <= 4 <==> -0x8000_0000 < n < 0x8000_0000
    ensures n == 0 <==> ToVch(n) == []
  {
    PayloadSize(n);
    var k := |Payload(n)|;
    assert Pow(256, 4) == WORD;
    if k <= 4 {
      PowGrows(256, k, 4);
    } else {
      PowGrows(256, 4, k - 1);
    }
  }

  /** CBigNum::getvch */
  method GetVch(n: int) returns (v: Data)
    ensures v == ToVch(n)
  {
    var size := |Mpi(n)|;
    if size <= 4 {
      return [];
    }
    v := Mpi(n);
    v := v[4..];
    v := Reverse(v);
  }

  lemma ReadSize(k: nat)
    requires k < WORD
    ensures ValueBE(BigEndian32(k), 256) == k
  {
    assert Pow(256, 4) == WORD;
    ValueOfFixed(k, 256, 4);
    ReadReversed(Fixed(k, 256, 4), 256);
  }

  /** CBigNum::setvch. The length field is 32 bits wide. */
  method SetVch(v: Data) returns (bn: int)
    requires |v| < WORD
    ensures bn == FromVch(v)
  {
    var buffer: Data := BigEndian32(|v|);
    buffer := buffer + Reverse(v);
    assert buffer[..4] == BigEndian32(|v|) && buffer[4..] == Reverse(v);
    ReadSize(|v|);
    bn := FromMpi(buffer).value;
  }

  function At(p: Data, i: nat): Byte {
    if i < |p| then p[i] else 0
  }

  /** The compact form: payload length, then its first three bytes. The length wraps at 256. */
  function Compact(n: int): (c: nat)
    ensures c < WORD
  {
    Packed(Payload(n))
  }

  function Packed(p: Data): (c: nat)
    ensures c < WORD
  {
    0x100_0000 * (|p| % 256) + 0x1_0000 * At(p, 0) + 0x100 * At(p, 1) + At(p, 2)
  }

  /** The payload a compact form describes: three bytes, then zeroes. */
  function Expanded(c: nat): Data
    requires c < WORD
  {
    seq(c / 0x100_0000, i =>
      if i == 0 then c / 0x1_0000 % 256 else if i == 1 then c / 0x100 % 256 else if i == 2 then c % 256 else 0)
  }

  function FromCompact(c: nat): int
    requires c < WORD
  {
    FromPayload(Expanded(c))
  }

  lemma SizeField(size: nat)
    ensures size * 0x100_0000 % WORD == 0x100_0000 * (size % 256)
  {
    assert size == 256 * (size / 256) + size % 256;
    DivModStep(0x100_0000 * (size % 256), size / 256, WORD);
  }

  /** CBigNum::GetCompact */
  method GetCompact(n: int) returns (c: nat)
    ensures c == Compact(n)
  {
    var size := |Mpi(n)|;
    var vch := Mpi(n);
    size := size - 4;
    assert vch[4..] == Payload(n);
    SizeField(size);
    c := size * 0x100_0000 % WORD;
    if size >= 1 { var high: int := vch[4]; c := c + 0x1_0000 * high; }
    if size >= 2 { var middle: int := vch[5]; c := c + 0x100 * middle; }
    if size >= 3 { c := c + vch[6]; }
  }

  /** CBigNum::SetCompact */
  method SetCompact(c: nat) returns (bn: int)
    requires c < WORD
    ensures bn == FromCompact(c)
  {
    var size := c / 0x100_0000;
    var vch: Data := seq(4 + size, i => 0);
    vch := vch[3 := size];
    if size >= 1 { vch := vch[4 := c / 0x1_0000 % 256]; }
    if size >= 2 { vch := vch[5 := c / 0x100 % 256]; }
    if size >= 3 { vch := vch[6 := c % 256]; }
    assert vch[4..] == Expanded(c);
    OneByteSize(vch[..4]);
    bn := FromMpi(vch).value;
  }

  lemma OneByteSize(d: Data)
    requires |d| == 4 && d[0] == d[1] == d[2] == 0
    ensures ValueBE(d, 256) == d[3]
  {
    assert d == d[..3] + d[3..] && d[..3] == seq(3, i => 0);
    ZerosBE(3, 256);
  }

  /** The number a compact form stands for, by the formula: three bytes scaled by the size, the top bit a sign. */
  function Formula(c: nat): int {
    var size, mantissa := c / 0x100_0000, c % 0x80_0000;
    var a := if size >= 3 then mantissa * Pow(256, size - 3) else mantissa / Pow(256, 3 - size);
    if c % 0x100_0000 >= 0x80_0000 then 0 - a else a
  }

  lemma CompactBytes(c: nat)
    requires c < WORD
    ensures var x, y, z := c / 0x1_0000 % 256, c / 0x100 % 256, c % 256;
            && c % 0x80_0000 == 0x1_0000 * (x % 128) + 0x100 * y + z
            && (c % 0x100_0000 >= 0x80_0000 <==> x >= 128) && c / 0x100_0000 < 256
  {
    var c1 := c / 256;
    var c2 := c1 / 256;
    var k, x, y, z := c2 / 256, c2 % 256, c1 % 256, c % 256;
    assert c / 0x100 == c1 && c / 0x1_0000 == c2 && c / 0x100_0000 == k;
    var s, low := x / 128, 0x1_0000 * (x % 128) + 0x100 * y + z;
    assert c == 0x80_0000 * (2 * k + s) + low && 0 <= low < 0x80_0000;
    assert c == 0x100_0000 * k + (0x80_0000 * s + low) && 0 <= s <= 1;
  }

  /** Every compact form is read by that formula. */
  lemma CompactFormula(c: nat)
    requires c < WORD
    ensures FromCompact(c) == Formula(c)
  {
    hide Pow;
    var size: nat, x: Byte, y: Byte, z: Byte := c / 0x100_0000, c / 0x1_0000 % 256, c / 0x100 % 256, c % 256;
    var p := Expanded(c);
    CompactBytes(c);
    ShortPowers();
    if size >= 3 {
      var lead: Data := [x % 128, y, z];
      var zeros := seq(size - 3, i => 0);
      ExpandedLong(c, lead, zeros);
      SplitBE(lead, zeros, 256);
      ZerosBE(size - 3, 256);
      ThreeBytes(lead);
    } else {
      ShortFormula(c, p, x, y);
    }
  }

  lemma ExpandedLong(c: nat, lead: Data, zeros: seq<nat>)
    requires c < WORD && c / 0x100_0000 >= 3 && zeros == seq(c / 0x100_0000 - 3, i => 0)
    requires lead == [c / 0x1_0000 % 256 % 128, c / 0x100 % 256, c % 256]
    ensures |Expanded(c)| >= 3 && ClearTop(Expanded(c)) == lead + zeros && Expanded(c)[0] == c / 0x1_0000 % 256
  {
    var p := Expanded(c);
    forall i | 0 <= i < |p| ensures ClearTop(p)[i] == (lead + zeros)[i] {
      if i > 0 { assert ClearTop(p)[i] == p[i]; }
    }
  }

  lemma ShortPowers()
    ensures Pow(256, 1) == 256 && Pow(256, 2) == 0x1_0000 && Pow(256, 3) == 0x100_0000
  {
  }

  lemma ShortFormula(c: nat, p: Data, x: Byte, y: Byte)
    requires c < WORD && p == Expanded(c) && |p| < 3 && x == c / 0x1_0000 % 256 && y == c / 0x100 % 256
    ensures |p| == 0 ==> FromPayload(p) == 0 && c % 0x80_0000 / 0x100_0000 == 0
    ensures |p| == 1 ==> (var a := c % 0x80_0000 / 0x1_0000; FromPayload(p) == if x >= 128 then 0 - a else a)
    ensures |p| == 2 ==> (var a := c % 0x80_0000 / 0x100; FromPayload(p) == if x >= 128 then 0 - a else a)
  {
    CompactBytes(c);
    if |p| == 1 {
      assert ClearTop(p) == [x % 128] && [x % 128][..0] == [];
      assert ValueBE([x % 128], 256) == x % 128;
    } else if |p| == 2 {
      var q: Data := [x % 128, y];
      assert ClearTop(p) == q && q[..1] == [x % 128] && q[..1][..0] == [];
      assert ValueBE(q[..1], 256) == x % 128;
    }
  }

  /** n with all but its three leading payload bytes cleared: rounding toward zero. */
  function Truncated(n: int): int {
    var k := |Payload(n)|;
    if k <= 3 then n
    else
      var a := Abs(n) - Abs(n) % Pow(256, k - 3);
      if n < 0 then 0 - a else a
  }

  function Keep3(p: Data): Data {
    seq(|p|, i requires 0 <= i < |p| => if i < 3 then p[i] else 0)
  }

  lemma Unpack(k: nat, x: nat, y: nat, z: nat)
    requires k < 256 && x < 256 && y < 256 && z < 256
    ensures var c := 0x100_0000 * k + 0x1_0000 * x + 0x100 * y + z;
            c / 0x100_0000 == k && c / 0x1_0000 % 256 == x && c / 0x100 % 256 == y && c % 256 == z
  {
    var c := 0x100_0000 * k + 0x1_0000 * x + 0x100 * y + z;
    assert c / 0x1_0000 == 256 * k + x && c / 0x100 == 0x1_0000 * k + 256 * x + y;
  }

  lemma ExpandPacked(p: Data)
    requires |p| <= 255
    ensures Expanded(Packed(p)) == Keep3(p)
  {
    PackedFields(p);
    hide Packed, At;
    forall i | 0 <= i < |p| ensures Expanded(Packed(p))[i] == Keep3(p)[i] {
      AtIndex(p, i);
    }
  }

  lemma AtIndex(p: Data, i: nat)
    requires i < |p|
    ensures At(p, i) == p[i]
  {
  }

  /** The four bytes of the compact form. */
  lemma PackedFields(p: Data)
    requires |p| <= 255
    ensures var c := Packed(p);
            && c / 0x100_0000 == |p| && c / 0x1_0000 % 256 == At(p, 0)
            && c / 0x100 % 256 == At(p, 1) && c % 256 == At(p, 2)
  {
    Unpack(|p|, At(p, 0), At(p, 1), At(p, 2));
  }

  lemma ClearLow(high: Data, low: Data, zeros: Data)
    requires |zeros| == |low| && forall i :: 0 <= i < |zeros| ==> zeros[i] == 0
    ensures ValueBE(high + zeros, 256) == ValueBE(high + low, 256) - ValueBE(high + low, 256) % Pow(256, |low|)
  {
    hide ValueBE, Pow;
    SplitBE(high, low, 256);
    SplitBE(high, zeros, 256);
    assert zeros == seq(|low|, i => 0);
    ZerosBE(|low|, 256);
    BoundBE(low, 256);
    ModOf(ValueBE(high, 256), Pow(256, |low|), ValueBE(low, 256));
  }

  lemma ModOf(v: nat, u: nat, low: nat)
    requires low < u
    ensures (v * u + low) % u == low
  {
    var n := v * u + low;
    var e := n / u - v;
    assert n == u * (n / u) + n % u;
    assert u * e == low - n % u;
    MulGap(u, e);
  }

  lemma Keep3Value(p: Data)
    requires |p| > 3
    ensures var a := ValueBE(ClearTop(p), 256);
            ValueBE(ClearTop(Keep3(p)), 256) == a - a % Pow(256, |p| - 3)
  {
    hide ValueBE, Pow;
    var t, q := ClearTop(p), ClearTop(Keep3(p));
    ClearLow(t[..3], t[3..], q[3..]);
    assert t[..3] + t[3..] == t;
    assert t[..3] + q[3..] == q;
  }

  lemma PayloadSign(n: int)
    requires n != 0
    ensures Payload(n) != [] && (Payload(n)[0] >= 128 <==> n < 0)
  {
    MagnitudeValue(Abs(n));
  }

  lemma Keep3Payload(p: Data, n: int)
    requires |p| > 3 && FromPayload(p) == n && (p[0] >= 128 <==> n < 0)
    ensures var a := Abs(n) - Abs(n) % Pow(256, |p| - 3);
            FromPayload(Keep3(p)) == if n < 0 then 0 - a else a
  {
    Keep3Value(p);
    assert Abs(n) == ValueBE(ClearTop(p), 256);
  }

  /** Reading a compact form back gives the number rounded toward zero. */
  lemma CompactRoundTrip(n: int)
    requires |Payload(n)| <= 255
    ensures FromCompact(Compact(n)) == Truncated(n)
  {
    hide Payload, FromPayload, Packed, Expanded;
    var p := Payload(n);
    ExpandPacked(p);
    PayloadRoundTrip(n);
    if |p| <= 3 {
      assert Keep3(p) == p;
    } else {
      PayloadSize(n);
      PayloadSign(n);
      Keep3Payload(p, n);
    }
  }

  /** The rounding error is below one part in 2^15. */
  lemma TruncationError(n: int)
    requires n != 0
    ensures Abs(Truncated(n)) <= Abs(n)
    ensures (Abs(n) - Abs(Truncated(n))) * 0x8000 < Abs(n)
  {
    var k := |Payload(n)|;
    if k > 3 {
      PayloadSize(n);
      var u := Pow(256, k - 3);
      assert Pow(256, k - 1) == 0x1_0000 * u by {
        PowAdd(256, 2, k - 3);
        assert Pow(256, 2) == 0x1_0000;
      }
      assert 0 <= Abs(n) % u < u;
      assert Abs(n) % u <= Abs(n) by { ModLe(Abs(n), u); }
    }
  }

  lemma ModLe(a: nat, u: nat)
    requires u > 0
    ensures a % u <= a
  {
    assert a == u * (a / u) + a % u;
    MulMono(u, 0, a / u);
  }

  /** Rounding once is enough: a rounded number has the compact form it came from. */
  lemma CompactIdempotent(n: int)
    requires |Payload(n)| <= 255
    ensures Compact(FromCompact(Compact(n))) == Compact(n)
  {
    var q := Keep3(Payload(n));
    ExpandPacked(Payload(n));
    PayloadShortest(n);
    PayloadUnique(q);
  }

  /** The three leading bytes, read as a number. */
  function Lead(p: Data): nat {
    0x1_0000 * At(p, 0) + 0x100 * At(p, 1) + At(p, 2)
  }

  lemma LeadOfShort(p: Data)
    requires |p| < 3
    ensures Lead(p) == ValueBE(p, 256) * Pow(256, 3 - |p|)
  {
    assert Pow(256, 1) == 256 && Pow(256, 2) == 0x1_0000 && Pow(256, 3) == 0x100_0000;
    if |p| == 1 {
      assert p[..0] == [];
    } else if |p| == 2 {
      assert p[..1][..0] == [];
    }
  }

  lemma ThreeBytes(p: Data)
    requires |p| == 3
    ensures ValueBE(p, 256) == Lead(p)
  {
    var two, one := p[..2], p[..1];
    assert two[..1] == one && one[..0] == [];
    assert ValueBE(one, 256) == p[0];
    assert ValueBE(two, 256) == ValueBE(one, 256) * 256 + p[1];
  }

  lemma LeadOfLong(p: Data)
    requires |p| >= 3
    ensures var u := Pow(256, |p| - 3);
            Lead(p) * u <= ValueBE(p, 256) < (Lead(p) + 1) * u
  {
    hide ValueBE, Pow;
    var high, low := p[..3], p[3..];
    SplitBE(high, low, 256);
    assert high + low == p;
    BoundBE(low, 256);
    ThreeBytes(high);
    Between(Lead(p), Pow(256, |low|), ValueBE(low, 256));
  }

  lemma Between(l: nat, u: nat, low: nat)
    requires low < u
    ensures l * u <= l * u + low < (l + 1) * u
  {
    assert (l + 1) * u == l * u + u;
  }

  lemma LeadMonotone(p: Data, q: Data)
    requires |p| == |q| && ValueBE(p, 256) <= ValueBE(q, 256)
    ensures Lead(p) <= Lead(q)
  {
    hide ValueBE, Pow, Lead;
    if |p| < 3 {
      LeadOfShort(p);
      LeadOfShort(q);
      MulMono(Pow(256, 3 - |p|), ValueBE(p, 256), ValueBE(q, 256));
    } else {
      LeadOfLong(p);
      LeadOfLong(q);
      var u := Pow(256, |p| - 3);
      if Lead(p) > Lead(q) {
        MulMono(u, Lead(q) + 1, Lead(p));
      }
    }
  }

  lemma PayloadOfNat(a: nat)
    ensures ValueBE(Payload(a), 256) == a && At(Payload(a), 0) < 128
  {
    PayloadRoundTrip(a);
    var p := Payload(a);
    if a > 0 {
      PayloadSign(a);
      assert ClearTop(p) == p;
    } else {
      PayloadSize(0);
    }
  }

  lemma PayloadGrows(a: nat, b: nat)
    requires a <= b
    ensures |Payload(a)| <= |Payload(b)|
  {
    PayloadSize(a);
    PayloadSize(b);
    if |Payload(a)| > |Payload(b)| {
      PowGrows(256, |Payload(b)|, |Payload(a)| - 1);
    }
  }

  lemma PackedMonotone(p: Data, q: Data)
    requires |p| <= |q| <= 255 && At(p, 0) < 128
    requires |p| == |q| ==> Lead(p) <= Lead(q)
    ensures Packed(p) <= Packed(q)
  {
  }

  /** Greater targets have greater compact forms. */
  lemma CompactMonotone(a: nat, b: nat)
    requires a <= b && |Payload(b)| <= 255
    ensures Compact(a) <= Compact(b)
  {
    var p, q := Payload(a), Payload(b);
    PayloadGrows(a, b);
    PayloadOfNat(a);
    PayloadOfNat(b);
    if |p| == |q| {
      LeadMonotone(p, q);
    }
    PackedMonotone(p, q);
  }
}

/** ComputeMinWork: how far the target may have been relaxed after a pause. */
module MinWork {
  import opened Radix
  import opened Bytes
  import opened BigNum

  const DAY := 24 * 60 * 60

  /** Days begun within a span of seconds; none for a span that is not positive. */
  function DaysBegun(seconds: int): nat {
    if seconds <= 0 then 0 else (seconds + DAY - 1) / DAY
  }

  /** The days that have begun are the least number of days that cover the span. */
  lemma DaysCover(seconds: int)
    ensures seconds <= DaysBegun(seconds) * 86400
    ensures seconds > 0 ==> (DaysBegun(seconds) - 1) * 86400 < seconds
    ensures seconds <= 0 ==> DaysBegun(seconds) == 0
  {
  }

  function Min(a: int, b: int): int {
    if a <= b then a else b
  }

  method ComputeMinWork(base: nat, seconds: int, limit: nat) returns (c: nat)
    requires base < WORD
    ensures c == Compact(Min(limit, FromCompact(base) * Pow(2, 1 + DaysBegun(seconds))))
  {
    var result := SetCompact(base);
    result := result * 2;
    var left := seconds;
    ghost var start, done: nat := FromCompact(base), 1;
    while left > 0 && result < limit
      invariant done + DaysBegun(left) == 1 + DaysBegun(seconds)
      invariant result == start * Pow(2, done)
      decreases left
    {
      result := result * 2;
      left := left - DAY;
      Doubled(start, Pow(2, done));
      done := done + 1;
    }
    StillAbove(start, limit, done, 1 + DaysBegun(seconds));
    if result > limit {
      result := limit;
    }
    c := GetCompact(result);
  }

  lemma Doubled(a: int, p: nat)
    ensures a * p * 2 == a * (2 * p)
  {
  }

  /** Once the limit is reached further doubling changes nothing. */
  lemma {:induction false} StillAbove(a: int, limit: nat, j: nat, k: nat)
    requires j <= k && (j == k || a * Pow(2, j) >= limit)
    ensures Min(limit, a * Pow(2, j)) == Min(limit, a * Pow(2, k))
    decreases k - j
  {
    if j < k {
      Doubled(a, Pow(2, j));
      StillAbove(a, limit, j + 1, k);
    }
  }
}
