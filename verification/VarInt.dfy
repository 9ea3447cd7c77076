/** Variable-length integers: base 128, most significant group first, with no number written in two ways. */
module VarInt {
  import opened Bytes
  import opened Radix

  /** The groups before the last one, each marked as continued. */
  function Continued(n: nat): (s: Data)
    ensures |s| >= 1
  {
    if n <= 0x7f then [0x80 + n] else Continued(n / 128 - 1) + [0x80 + n % 128]
  }

  function Encoded(n: nat): (s: Data)
    ensures |s| >= 1
  {
    if n <= 0x7f then [n] else Continued(n / 128 - 1) + [n % 128]
  }

  /** What the reader has accumulated after some bytes. */
  function Accumulated(s: Data): nat {
    if s == [] then 0
    else
      var c, n := s[|s| - 1], Accumulated(s[..|s| - 1]);
      n * 128 + c % 128 + if c >= 0x80 then 1 else 0
  }

  /** Continuation bytes followed by one terminator. */
  ghost predicate WellFormed(s: Data) {
    s != [] && s[|s| - 1] < 0x80 && forall i :: 0 <= i < |s| - 1 ==> s[i] >= 0x80
  }

  lemma AccumulatedSnoc(t: Data, c: Byte)
    ensures Accumulated(t + [c]) == Accumulated(t) * 128 + c % 128 + if c >= 0x80 then 1 else 0
  {
    assert (t + [c])[..|t|] == t;
  }

  lemma Groups(n: nat)
    requires n > 0x7f
    ensures n / 128 >= 1 && (n / 128) * 128 + n % 128 == n && n % 128 < 128 && (0x80 + n % 128) % 128 == n % 128
  {
  }

  lemma {:induction false} ContinuedRead(n: nat)
    ensures Accumulated(Continued(n)) == n + 1 && forall i :: 0 <= i < |Continued(n)| ==> Continued(n)[i] >= 0x80
    decreases n
  {
    hide Accumulated;
    if n <= 0x7f {
      assert [] + [0x80 + n] == [0x80 + n];
      AccumulatedSnoc([], 0x80 + n);
      assert Accumulated([]) == 0 by { AccumulatedNone(); }
    } else {
      Groups(n);
      ContinuedRead(n / 128 - 1);
      AccumulatedSnoc(Continued(n / 128 - 1), 0x80 + n % 128);
    }
  }

  lemma AccumulatedNone()
    ensures Accumulated([]) == 0
  {
  }

  /** Reading what was written. */
  lemma EncodedRead(n: nat)
    ensures WellFormed(Encoded(n)) && Accumulated(Encoded(n)) == n
  {
    hide Accumulated, Continued;
    if n <= 0x7f {
      assert [] + [n] == [n];
      AccumulatedSnoc([], n);
      AccumulatedNone();
    } else {
      Groups(n);
      ContinuedRead(n / 128 - 1);
      AccumulatedSnoc(Continued(n / 128 - 1), n % 128);
    }
  }

  lemma {:induction false} ContinuedWritten(s: Data)
    requires s != [] && forall i :: 0 <= i < |s| ==> s[i] >= 0x80
    ensures Accumulated(s) >= 1 && Continued(Accumulated(s) - 1) == s
    decreases |s|
  {
    var t, c := s[..|s| - 1], s[|s| - 1];
    assert s == t + [c];
    AccumulatedSnoc(t, c);
    AccumulatedNone();
    hide Accumulated;
    var d := c - 0x80;
    DivModStep(d, 1, 128);
    if t != [] {
      ContinuedWritten(t);
      DivModStep(d, Accumulated(t), 128);
    }
  }

  lemma EncodedLast(t: Data, c: Byte)
    requires c < 0x80 && (t != [] ==> Accumulated(t) >= 1 && Continued(Accumulated(t) - 1) == t)
    ensures Encoded(Accumulated(t + [c])) == t + [c]
  {
    AccumulatedSnoc(t, c);
    AccumulatedNone();
    hide Accumulated, Continued;
    assert c % 128 == c;
    if t != [] {
      DivModStep(c, Accumulated(t), 128);
    }
  }

  /** Writing what was read: every well-formed string is the encoding of its value. */
  lemma ReadEncoded(s: Data)
    requires WellFormed(s)
    ensures Encoded(Accumulated(s)) == s
  {
    hide Accumulated, Continued, Encoded;
    var t, c := s[..|s| - 1], s[|s| - 1];
    assert s == t + [c];
    if t != [] {
      ContinuedWritten(t);
    }
    EncodedLast(t, c);
  }

  // Order

  /** The strings first differ at place k, where s is lower. */
  predicate LowerAt(s: Data, t: Data, k: nat) {
    k < |s| && k < |t| && s[..k] == t[..k] && s[k] < t[k]
  }

  /** Shorter, or of the same length and lower at the first difference. */
  ghost predicate ComesBefore(s: Data, t: Data) {
    |s| < |t| || (|s| == |t| && exists k: nat :: LowerAt(s, t, k))
  }

  lemma BeforeSnoc(s: Data, t: Data, c: Byte, d: Byte)
    ensures ComesBefore(s, t) ==> ComesBefore(s + [c], t + [d])
    ensures c < d ==> ComesBefore(s + [c], s + [d])
  {
    if |s| == |t| && exists k: nat :: LowerAt(s, t, k) {
      var k: nat :| LowerAt(s, t, k);
      assert (s + [c])[..k] == s[..k] && (t + [d])[..k] == t[..k];
      assert LowerAt(s + [c], t + [d], k);
    }
    if c < d {
      assert LowerAt(s + [c], s + [d], |s|) by { assert (s + [c])[..|s|] == s == (s + [d])[..|s|]; }
    }
  }

  lemma GroupsOrdered(n: nat, m: nat)
    requires 0x7f < n < m
    ensures n / 128 <= m / 128 && (n / 128 == m / 128 ==> n % 128 < m % 128)
  {
  }

  lemma {:induction false} ContinuedOrdered(n: nat, m: nat)
    requires n < m
    ensures ComesBefore(Continued(n), Continued(m))
    decreases n
  {
    hide ComesBefore;
    if m <= 0x7f {
      OneByteOrdered(0x80 + n, 0x80 + m);
    } else if n <= 0x7f {
      ShorterFirst([0x80 + n], Continued(m / 128 - 1), 0x80 + m % 128);
    } else {
      GroupsOrdered(n, m);
      if n / 128 < m / 128 {
        ContinuedOrdered(n / 128 - 1, m / 128 - 1);
      }
      BeforeSnoc(Continued(n / 128 - 1), Continued(m / 128 - 1), 0x80 + n % 128, 0x80 + m % 128);
    }
  }

  lemma OneByteOrdered(c: Byte, d: Byte)
    requires c < d
    ensures ComesBefore([c], [d])
  {
    BeforeSnoc([], [], c, d);
    assert [] + [c] == [c] && [] + [d] == [d];
  }

  lemma ShorterFirst(s: Data, t: Data, d: Byte)
    requires |s| == 1 && t != []
    ensures ComesBefore(s, t + [d])
  {
  }

  /**
   Greater numbers come later: longer encodings, or higher ones of the same length. With the bijection this
   leaves one encoding only.
   */
  lemma EncodedOrdered(n: nat, m: nat)
    requires n < m
    ensures ComesBefore(Encoded(n), Encoded(m))
  {
    hide ComesBefore;
    if m <= 0x7f {
      OneByteOrdered(n, m);
    } else if n <= 0x7f {
      ShorterFirst([n], Continued(m / 128 - 1), m % 128);
    } else {
      GroupsOrdered(n, m);
      if n / 128 < m / 128 {
        ContinuedOrdered(n / 128 - 1, m / 128 - 1);
      }
      BeforeSnoc(Continued(n / 128 - 1), Continued(m / 128 - 1), n % 128, m % 128);
    }
  }

  // Lengths

  /** The length of the first number in some bytes. */
  function FirstEnd(s: Data): (k: Option<nat>)
    ensures k.Some? ==> 1 <= k.value <= |s|
  {
    if s == [] then None
    else if s[0] < 0x80 then Some(1)
    else
      var k := FirstEnd(s[1..]);
      if k.None? then None else Some(k.value + 1)
  }

  lemma {:induction false} ContinuedLength(n: nat, k: nat)
    requires k >= 1 && n < Pow(128, k)
    ensures |Continued(n)| <= k
    decreases k
  {
    if n > 0x7f {
      assert Pow(128, 1) == 128 * Pow(128, 0);
      Groups(n);
      DivBelow(n, 128, Pow(128, k - 1));
      ContinuedLength(n / 128 - 1, k - 1);
    }
  }

  lemma {:induction false} SameLength(n: nat)
    ensures |Encoded(n)| == |Continued(n)|
  {
  }

  lemma EncodedLength(n: nat, k: nat)
    requires k >= 1 && n < Pow(128, k)
    ensures |Encoded(n)| <= k
  {
    SameLength(n);
    ContinuedLength(n, k);
  }

  lemma {:induction false} PowOfTwo(k: nat)
    ensures Pow(128, k) == Pow(2, 7 * k)
  {
    if k > 0 {
      PowOfTwo(k - 1);
      PowAdd(2, 7, 7 * (k - 1));
      SevenBits();
    }
  }

  lemma SevenBits()
    ensures Pow(2, 7) == 128
  {
    assert Pow(2, 3) == 2 * Pow(2, 2) && Pow(2, 2) == 2 * Pow(2, 1) && Pow(2, 1) == 2 * Pow(2, 0);
    PowAdd(2, 3, 3);
    PowAdd(2, 6, 1);
  }

  /** The size of the writer's buffer. */
  function Room(bits: nat): nat {
    (bits + 6) / 7
  }

  /** The writer's buffer is long enough, for integers of any width. */
  lemma FitsRoom(n: nat, bits: nat)
    requires bits >= 1 && n < Pow(2, bits)
    ensures n < Pow(128, Room(bits)) && 1 <= |Encoded(n)| <= Room(bits)
  {
    PowGrows(2, bits, 7 * Room(bits));
    PowOfTwo(Room(bits));
    EncodedLength(n, Room(bits));
  }

  /** GetSizeOfVarInt */
  method GetSizeOfVarInt(n: nat) returns (size: nat)
    ensures size == |Encoded(n)|
  {
    SameLength(n);
    size := 0;
    var m := n;
    while true
      invariant size + |Continued(m)| == |Continued(n)|
      decreases m
    {
      size := size + 1;
      if m <= 0x7f {
        break;
      }
      m := m / 128 - 1;
    }
  }

  /** What is still to be written, in front of the groups already in the buffer. */
  ghost predicate Pending(n: nat, m: nat, done: Data) {
    Encoded(n) == (if done == [] then Encoded(m) else Continued(m)) + Reverse(done)
  }

  lemma PendingStep(n: nat, m: nat, done: Data)
    requires Pending(n, m, done)
    ensures var c := m % 128 + if done == [] then 0 else 0x80;
            if m <= 0x7f then Encoded(n) == Reverse(done + [c]) else Pending(n, m / 128 - 1, done + [c])
  {
    var c: Byte := m % 128 + if done == [] then 0 else 0x80;
    assert Reverse(done + [c]) == [c] + Reverse(done);
    if m > 0x7f {
      var q := Continued(m / 128 - 1);
      assert q + [c] + Reverse(done) == q + ([c] + Reverse(done));
    }
  }

  /** One group more in the buffer. */
  lemma GroupStep(n: nat, m: nat, done: Data, room: nat)
    requires Pending(n, m, done) && room >= 1 && m < Pow(128, room)
    ensures var c := m % 128 + if done == [] then 0 else 0x80;
            if m <= 0x7f then Encoded(n) == Reverse(done + [c])
            else room >= 2 && m / 128 >= 1 && m / 128 - 1 < Pow(128, room - 1) && Pending(n, m / 128 - 1, done + [c])
  {
    hide Pending, Encoded, Pow;
    PendingStep(n, m, done);
    if m > 0x7f {
      NextGroup(m, room);
    }
  }

  /** The first loop of WriteVarInt: the groups go into the buffer, the last one first. */
  method FillBuffer(n: nat, tmp: array<Byte>) returns (len: nat)
    requires tmp.Length >= 1 && n < Pow(128, tmp.Length)
    modifies tmp
    ensures len < tmp.Length && Encoded(n) == Reverse(tmp[..len + 1])
  {
    hide Pending, Encoded, Pow, Reverse;
    var m: nat := n;
    len := 0;
    PendingStart(n);
    ghost var done: Data := [];
    while true
      invariant 0 <= len < tmp.Length && done == tmp[..len] && Pending(n, m, done) && m < Pow(128, tmp.Length - len)
      decreases m
    {
      GroupStep(n, m, done, tmp.Length - len);
      tmp[len] := m % 128 + if len != 0 then 0x80 else 0;
      done := done + [tmp[len]];
      assert tmp[..len + 1] == done;
      if m <= 0x7f {
        return;
      }
      m := m / 128 - 1;
      len := len + 1;
    }
  }

  lemma PendingStart(n: nat)
    ensures Pending(n, n, [])
  {
    var none: Data := [];
    assert Reverse(none) == [] && Encoded(n) + [] == Encoded(n);
  }

  /** WriteVarInt for an unsigned type of the given width: the buffer is filled and written backwards. */
  method WriteVarInt(n: nat, bits: nat) returns (out: Data)
    requires bits >= 1 && n < Pow(2, bits)
    ensures out == Encoded(n)
  {
    FitsRoom(n, bits);
    hide Encoded, Pow;
    var tmp := new Byte[Room(bits)];
    var len := FillBuffer(n, tmp);
    out := WriteBackwards(tmp[..len + 1]);
  }

  /** The second loop of WriteVarInt. */
  method WriteBackwards(s: Data) returns (out: Data)
    requires s != []
    ensures out == Reverse(s)
  {
    var len := |s| - 1;
    out := [s[len]];
    while len > 0
      invariant 0 <= len && |out| == |s| - len && forall i :: 0 <= i < |out| ==> out[i] == s[|s| - 1 - i]
    {
      len := len - 1;
      out := out + [s[len]];
    }
  }

  lemma NextGroup(m: nat, k: nat)
    requires m > 0x7f && k >= 1 && m < Pow(128, k)
    ensures k >= 2 && m / 128 >= 1 && m / 128 - 1 < Pow(128, k - 1)
  {
    assert Pow(128, 1) == 128 * Pow(128, 0);
    DivBelow(m, 128, Pow(128, k - 1));
  }

  /** One byte read into an integer whose type wraps around. */
  function Step(n: nat, c: Byte, size: nat): nat
    requires size >= 1
  {
    (n * 128 + (c % 128) + (if c >= 0x80 then 1 else 0)) % size
  }

  lemma WrapStep(t: Data, c: Byte, size: nat)
    requires size >= 2
    ensures Step(Accumulated(t) % size, c, size) == Accumulated(t + [c]) % size
  {
    var a, d := Accumulated(t), (c % 128) + (if c >= 0x80 then 1 else 0);
    AccumulatedSnoc(t, c);
    var q, r := a / size, a % size;
    Wrapped(a, size);
    var y := r * 128 + d;
    Wrapped(y, size);
    var k := q * 128 + y / size;
    assert a * 128 + d == y % size + size * k by { Gathered(size, q, r, d, y / size, y % size); }
    DivModStep(y % size, k, size);
  }

  lemma Wrapped(a: nat, size: nat)
    requires size >= 1
    ensures a == size * (a / size) + a % size && 0 <= a % size < size && a / size >= 0
  {
  }

  lemma Gathered(size: nat, q: nat, r: nat, d: nat, p: nat, s: nat)
    requires r * 128 + d == size * p + s
    ensures (size * q + r) * 128 + d == s + size * (q * 128 + p)
  {
  }

  /** ReadVarInt for an unsigned type of the given width, where sums wrap around. */
  method ReadVarInt(s: Data, bits: nat) returns (r: Option<nat>, used: nat)
    requires bits >= 1
    ensures used <= |s|
    ensures r.Some? ==>
              WellFormed(s[..used]) && FirstEnd(s) == Some(used) && r.value == Accumulated(s[..used]) % Pow(2, bits)
    ensures r.None? ==> FirstEnd(s) == None && forall i :: 0 <= i < |s| ==> s[i] >= 0x80
  {
    var n: nat, size := 0, Pow(2, bits);
    assert size >= 2 by { assert Pow(2, bits) == 2 * Pow(2, bits - 1); }
    hide Accumulated, Step, Pow;
    used := 0;
    assert s[..0] == [] && Accumulated([]) % size == 0 by { AccumulatedNone(); }
    while true
      invariant 0 <= used <= |s| && n == Accumulated(s[..used]) % size && forall j :: 0 <= j < used ==> s[j] >= 0x80
      decreases |s| - used
    {
      if used == |s| {
        NoEnd(s);
        return None, used;
      }
      var c := s[used];
      assert s[..used + 1] == s[..used] + [c];
      WrapStep(s[..used], c, size);
      n := Step(n, c, size);
      used := used + 1;
      if c < 0x80 {
        EndIsFirst(s, used);
        return Some(n), used;
      }
    }
  }

  lemma {:induction false} EndIsFirst(s: Data, k: nat)
    requires k <= |s| && WellFormed(s[..k])
    ensures FirstEnd(s) == Some(k)
  {
    if s[0] >= 0x80 {
      assert s[..k][0] == s[0] && s[1..][..k - 1] == s[..k][1..];
      EndIsFirst(s[1..], k - 1);
    }
  }

  lemma {:induction false} NoEnd(s: Data)
    requires forall i :: 0 <= i < |s| ==> s[i] >= 0x80
    ensures FirstEnd(s) == None
  {
    if s != [] {
      NoEnd(s[1..]);
    }
  }

  /** A number written is read back, and the reader stops right behind it. */
  lemma ReadBack(n: nat, bits: nat, rest: Data)
    requires bits >= 1 && n < Pow(2, bits)
    ensures var s := Encoded(n) + rest;
            FirstEnd(s) == Some(|Encoded(n)|) && Accumulated(s[..|Encoded(n)|]) % Pow(2, bits) == n
  {
    EncodedRead(n);
    hide Encoded, Accumulated, Pow;
    var s := Encoded(n) + rest;
    assert s[..|Encoded(n)|] == Encoded(n);
    EndIsFirst(s, |Encoded(n)|);
  }
}
