/** Scripts as byte strings: reading one instruction, writing pushes, deleting instructions. */
module Script {
  import opened Bytes
  import opened Radix

  const OP_0: Byte := 0x00
  const OP_PUSHDATA1: Byte := 0x4c
  const OP_PUSHDATA2: Byte := 0x4d
  const OP_PUSHDATA4: Byte := 0x4e
  const OP_1NEGATE: Byte := 0x4f
  const OP_1: Byte := 0x51
  const OP_16: Byte := 0x60

  datatype Fetch = Fetched(op: Byte, data: Data, size: nat) | Unreadable

  /** How many length bytes follow a push opcode. */
  function LengthBytes(op: Byte): nat {
    if op == OP_PUSHDATA1 then 1 else if op == OP_PUSHDATA2 then 2 else if op == OP_PUSHDATA4 then 4 else 0
  }

  /** CScript::GetOp2: the instruction at the front of s. */
  function GetOp(s: Data): (f: Fetch)
    ensures f.Fetched? ==> 1 <= f.size <= |s| && f.op == s[0] && |f.data| <= f.size - 1
  {
    if s == [] then Unreadable
    else
      var op := s[0];
      if op > OP_PUSHDATA4 then Fetched(op, [], 1)
      else
        var start := 1 + LengthBytes(op);
        if |s| < start then Unreadable
        else
          var n: nat := if op < OP_PUSHDATA1 then op else Value(s[1..start], 256);
          if |s| < start + n then Unreadable
          else Fetched(op, s[start..start + n], start + n)
  }

  /** One whole instruction and nothing else. */
  predicate IsInstruction(b: Data) {
    GetOp(b).Fetched? && GetOp(b).size == |b|
  }

  /** Only the instruction's own bytes matter to reading it. */
  lemma GetOpPrefix(b: Data, rest: Data)
    requires GetOp(b).Fetched?
    ensures GetOp(b + rest) == GetOp(b)
  {
    var start := 1 + LengthBytes(b[0]);
    if b[0] <= OP_PUSHDATA4 {
      assert (b + rest)[1..start] == b[1..start];
      var n: nat := if b[0] < OP_PUSHDATA1 then b[0] else Value(b[1..start], 256);
      assert (b + rest)[start..start + n] == b[start..start + n];
    }
  }

  lemma GetOpTake(s: Data)
    requires GetOp(s).Fetched?
    ensures IsInstruction(s[..GetOp(s).size]) && GetOp(s[..GetOp(s).size]) == GetOp(s)
  {
    hide Value;
    var size := GetOp(s).size;
    var t := s[..size];
    if s[0] <= OP_PUSHDATA4 {
      var start := 1 + LengthBytes(s[0]);
      assert start <= size && t[1..start] == s[1..start];
      SliceOfTake(s, size, start, size);
    }
  }

  lemma SliceOfTake(s: Data, size: nat, a: nat, b: nat)
    requires a <= b <= size <= |s|
    ensures s[..size][a..b] == s[a..b]
  {
  }

  /** The opcode and length bytes a push starts with. */
  function PushPrefix(n: nat): (s: Data)
    ensures s != []
  {
    if n < OP_PUSHDATA1 then [n as Byte]
    else if n <= 0xff then [OP_PUSHDATA1, n]
    else if n <= 0xffff then [OP_PUSHDATA2] + Fixed(n, 256, 2)
    else [OP_PUSHDATA4] + Fixed(n % WORD, 256, 4)
  }

  /** CScript::operator<< for data: the shortest length prefix, then the bytes. */
  function PushData(b: Data): (s: Data)
    ensures s != []
  {
    PushPrefix(|b|) + b
  }

  lemma OneDigit(n: nat)
    ensures Value([n], 256) == n
  {
    assert [n][1..] == [];
  }

  lemma FixedField(n: nat)
    ensures n < 0x1_0000 ==> Value(Fixed(n, 256, 2), 256) == n
    ensures n < WORD ==> Value(Fixed(n, 256, 4), 256) == n
  {
    hide Fixed, Value;
    assert Pow(256, 2) == 0x1_0000 && Pow(256, 4) == WORD;
    if n < 0x1_0000 {
      ValueOfFixed(n, 256, 2);
    }
    if n < WORD {
      ValueOfFixed(n, 256, 4);
    }
  }

  lemma ReadAs(op: Byte, length: Data, b: Data, rest: Data)
    requires op <= OP_PUSHDATA4 && |length| == LengthBytes(op)
    requires |b| == if op < OP_PUSHDATA1 then op else Value(length, 256)
    ensures GetOp([op] + length + b + rest) == Fetched(op, b, 1 + |length| + |b|)
  {
    hide Value;
    var s: Data := [op] + length + b + rest;
    var start := 1 + |length|;
    assert s[1..start] == length;
    assert s[start..start + |b|] == b;
  }

  /** What is pushed is what is read back. */
  lemma ReadPush(b: Data, rest: Data)
    requires |b| < WORD
    ensures var s := PushData(b);
            GetOp(s + rest) == Fetched(s[0], b, |s|) && s[0] <= OP_PUSHDATA4
  {
    hide GetOp, Fixed, Value;
    if |b| < OP_PUSHDATA1 {
      ReadAs(|b|, [], b, rest);
      assert [|b| as Byte] + [] == PushPrefix(|b|);
    } else if |b| <= 0xff {
      OneDigit(|b|);
      ReadAs(OP_PUSHDATA1, [|b|], b, rest);
      assert [OP_PUSHDATA1] + [|b| as Byte] == PushPrefix(|b|);
    } else if |b| <= 0xffff {
      FixedField(|b|);
      ReadAs(OP_PUSHDATA2, Fixed(|b|, 256, 2), b, rest);
    } else {
      FixedField(|b|);
      ReadAs(OP_PUSHDATA4, Fixed(|b|, 256, 4), b, rest);
    }
  }

  lemma PushIsInstruction(b: Data)
    requires |b| < WORD
    ensures IsInstruction(PushData(b))
  {
    ReadPush(b, []);
    assert PushData(b) + [] == PushData(b);
  }

  lemma ShortValues(s: Data)
    ensures |s| == 1 ==> Value(s, 256) <= 0xff
    ensures |s| == 2 ==> Value(s, 256) <= 0xffff
  {
    if |s| == 1 {
      OneDigit(s[0]);
      assert s == [s[0]];
    } else if |s| == 2 {
      OneDigit(s[1]);
      assert s[1..] == [s[1]];
    }
  }

  /** No instruction pushes the same data in fewer bytes. */
  lemma PushIsShortest(i: Data)
    requires IsInstruction(i) && i[0] <= OP_PUSHDATA4
    ensures |PushData(GetOp(i).data)| <= |i|
  {
    hide Value, Fixed;
    var start := 1 + LengthBytes(i[0]);
    ShortValues(i[1..start]);
  }

  /** The readable instructions of a script, byte for byte. */
  function Instructions(s: Data): seq<Data>
    decreases |s|
  {
    match GetOp(s)
    case Unreadable => []
    case Fetched(_, _, size) => [s[..size]] + Instructions(s[size..])
  }

  /** What is left where reading stops; empty for a well-formed script. */
  function Tail(s: Data): (t: Data)
    ensures GetOp(t).Unreadable?
    decreases |s|
  {
    match GetOp(s)
    case Unreadable => s
    case Fetched(_, _, size) => Tail(s[size..])
  }

  function Flatten(parts: seq<Data>): Data {
    if parts == [] then [] else parts[0] + Flatten(parts[1..])
  }

  function Remove(parts: seq<Data>, b: Data): (r: seq<Data>)
    ensures |r| <= |parts| && b !in r
    ensures forall x :: x in r ==> x in parts
  {
    if parts == [] then []
    else if parts[0] == b then Remove(parts[1..], b)
    else [parts[0]] + Remove(parts[1..], b)
  }

  lemma FlattenCons(head: Data, parts: seq<Data>)
    ensures Flatten([head] + parts) == head + Flatten(parts)
  {
    assert ([head] + parts)[1..] == parts;
  }

  lemma {:induction false} InstructionsWhole(s: Data)
    ensures forall i :: i in Instructions(s) ==> IsInstruction(i)
    decreases |s|
  {
    hide GetOp, IsInstruction;
    if GetOp(s).Fetched? {
      GetOpTake(s);
      InstructionsWhole(s[GetOp(s).size..]);
    }
  }

  /** Splitting a script into instructions loses no byte. */
  lemma {:induction false} InstructionsCover(s: Data)
    ensures Flatten(Instructions(s)) + Tail(s) == s
    decreases |s|
  {
    hide GetOp;
    if GetOp(s).Fetched? {
      var head, rest := s[..GetOp(s).size], s[GetOp(s).size..];
      InstructionsCover(rest);
      FlattenCons(head, Instructions(rest));
      Assoc(head, Flatten(Instructions(rest)), Tail(rest));
      assert s == head + rest;
    } else {
      assert Flatten([]) + s == s;
    }
  }

  /** Putting instructions together and splitting again gives the same instructions. */
  lemma {:induction false} InstructionsUnique(parts: seq<Data>, tail: Data)
    requires forall i :: i in parts ==> IsInstruction(i)
    requires GetOp(tail).Unreadable?
    ensures Instructions(Flatten(parts) + tail) == parts && Tail(Flatten(parts) + tail) == tail
  {
    hide GetOp;
    if parts == [] {
      assert Flatten(parts) + tail == tail;
    } else {
      var rest := Flatten(parts[1..]) + tail;
      InstructionsUnique(parts[1..], tail);
      assert Flatten(parts) + tail == parts[0] + rest;
      assert IsInstruction(parts[0]) by { assert parts[0] in parts; }
      GetOpPrefix(parts[0], rest);
      assert (parts[0] + rest)[..|parts[0]|] == parts[0] && (parts[0] + rest)[|parts[0]|..] == rest;
      assert parts == [parts[0]] + parts[1..];
    }
  }

  /** CScript::FindAndDelete on any pattern: runs of b are cut wherever an instruction could start. */
  function Stripped(s: Data, b: Data): (r: Data)
    requires b != []
    ensures |r| <= |s|
    decreases |s|
  {
    if b <= s then Stripped(s[|b|..], b)
    else
      match GetOp(s)
      case Unreadable => s
      case Fetched(_, _, size) => s[..size] + Stripped(s[size..], b)
  }

  function Hits(s: Data, b: Data): nat
    requires b != []
    decreases |s|
  {
    if b <= s then 1 + Hits(s[|b|..], b)
    else
      match GetOp(s)
      case Unreadable => 0
      case Fetched(_, _, size) => Hits(s[size..], b)
  }

  lemma StrippedHit(s: Data, b: Data)
    requires b != [] && b <= s
    ensures Stripped(s, b) == Stripped(s[|b|..], b) && Hits(s, b) == 1 + Hits(s[|b|..], b)
  {
    hide GetOp;
  }

  lemma StrippedStep(s: Data, b: Data)
    requires b != [] && !(b <= s)
    ensures GetOp(s).Unreadable? ==> Stripped(s, b) == s && Hits(s, b) == 0
    ensures GetOp(s).Fetched? ==>
              && Stripped(s, b) == s[..GetOp(s).size] + Stripped(s[GetOp(s).size..], b)
              && Hits(s, b) == Hits(s[GetOp(s).size..], b)
  {
    hide GetOp;
  }

  lemma OneMore(hits: nat, size: nat)
    ensures (1 + hits) * size == size + hits * size
  {
  }

  /** Every hit shortens the script by the length of the pattern. */
  lemma {:induction false} HitsShorten(s: Data, b: Data)
    requires b != []
    ensures |s| - |Stripped(s, b)| == Hits(s, b) * |b|
    decreases |s|
  {
    hide GetOp, Stripped, Hits;
    if b <= s {
      StrippedHit(s, b);
      HitsShorten(s[|b|..], b);
      OneMore(Hits(s[|b|..], b), |b|);
    } else {
      StrippedStep(s, b);
      if GetOp(s).Fetched? {
        HitsShorten(s[GetOp(s).size..], b);
      }
    }
  }

  lemma {:induction false} NoHits(s: Data, b: Data)
    requires b != [] && Hits(s, b) == 0
    ensures Stripped(s, b) == s
    decreases |s|
  {
    hide GetOp, Stripped, Hits;
    if b <= s {
      StrippedHit(s, b);
    } else {
      StrippedStep(s, b);
      if GetOp(s).Fetched? {
        NoHits(s[GetOp(s).size..], b);
      }
    }
  }

  lemma HitIsInstruction(s: Data, b: Data)
    requires IsInstruction(b)
    ensures b <= s <==> GetOp(s).Fetched? && s[..GetOp(s).size] == b
    ensures b <= s ==> GetOp(s).size == |b|
  {
    if b <= s {
      assert s == b + s[|b|..];
      GetOpPrefix(b, s[|b|..]);
    }
  }

  /** Deleting a whole instruction is filtering it out; an unreadable tail stays. */
  lemma {:induction false} StrippedIsFilter(s: Data, b: Data)
    requires IsInstruction(b)
    ensures Stripped(s, b) == Flatten(Remove(Instructions(s), b)) + Tail(s)
    ensures Hits(s, b) == |Instructions(s)| - |Remove(Instructions(s), b)|
    decreases |s|
  {
    hide GetOp;
    HitIsInstruction(s, b);
    match GetOp(s)
    case Unreadable =>
    case Fetched(_, _, size) =>
      var head, parts := s[..size], Instructions(s[size..]);
      StrippedIsFilter(s[size..], b);
      assert Instructions(s) == [head] + parts && Instructions(s)[1..] == parts;
      if head != b {
        var kept := Remove(parts, b);
        assert Remove(Instructions(s), b) == [head] + kept && ([head] + kept)[1..] == kept;
        Assoc(head, Flatten(kept), Tail(s));
      }
  }

  /** The instructions that remain are the others, in order, and a second deletion finds nothing. */
  lemma DeletionComplete(s: Data, b: Data)
    requires IsInstruction(b)
    ensures Instructions(Stripped(s, b)) == Remove(Instructions(s), b) && Tail(Stripped(s, b)) == Tail(s)
    ensures Hits(Stripped(s, b), b) == 0 && Stripped(Stripped(s, b), b) == Stripped(s, b)
  {
    InstructionsWhole(s);
    StrippedIsFilter(s, b);
    var r := Stripped(s, b);
    InstructionsUnique(Remove(Instructions(s), b), Tail(s));
    StrippedIsFilter(r, b);
    NothingToRemove(Instructions(r), b);
    InstructionsCover(r);
  }

  lemma {:induction false} NothingToRemove(parts: seq<Data>, b: Data)
    requires b !in parts
    ensures Remove(parts, b) == parts
  {
    if parts != [] {
      NothingToRemove(parts[1..], b);
    }
  }

  // Whether deleting can bring a pattern about

  /** The pattern overlaps itself one instruction on, or does not even start with an instruction. */
  predicate Settles(b: Data) {
    GetOp(b).Unreadable? || b <= b[..GetOp(b).size] + b
  }

  lemma SharedFront(x: Data, s: Data, t: Data)
    ensures x + s <= x + t <==> s <= t
  {
    assert (x + t)[|x|..] == t && (x + s)[|x|..] == s;
    if x + s <= x + t {
      assert s == (x + t)[..|x + s|][|x|..] == t[..|s|];
    }
    if s <= t {
      assert x + t == x + s + t[|s|..];
    }
  }

  lemma WithinFirst(a: Data, b: Data, c: Data)
    requires |a| <= |b|
    ensures a <= b + c <==> a <= b
  {
    assert (b + c)[..|a|] == b[..|a|];
  }

  lemma SettlesTail(b: Data)
    ensures Settles(b) <==> GetOp(b).Unreadable? || b[GetOp(b).size..] <= b
  {
    hide GetOp;
    if GetOp(b).Fetched? {
      var x, rest := b[..GetOp(b).size], b[GetOp(b).size..];
      assert b == x + rest;
      SharedFront(x, rest, b);
    }
  }

  /** A pattern that starts with a whole instruction of another script has it as its first one. */
  lemma SharedFirst(t: Data, b: Data)
    requires GetOp(t).Fetched? && t[..GetOp(t).size] <= b
    ensures GetOp(b).Fetched? && GetOp(b).size == GetOp(t).size
  {
    hide GetOp;
    GetOpTake(t);
    var x := t[..GetOp(t).size];
    assert b == x + b[|x|..];
    GetOpPrefix(x, b[|x|..]);
  }

  lemma PrefixOfPrefix(a: Data, b: Data, c: Data)
    requires a <= b <= c
    ensures a <= c
  {
  }

  lemma FrontSplits(c: Data, b: Data, x: Data, r: Data, rest: Data)
    requires c <= b && c <= x + r && |c| > |x| && rest == c[|x|..]
    ensures c == x + rest && x <= b && rest <= r && rest <= b[|x|..]
  {
    assert c[..|x|] == (x + r)[..|x|] == x;
    SharedFront(x, rest, r);
    assert b == x + b[|x|..] by { assert b[..|x|] == c[..|x|]; }
    SharedFront(x, rest, b[|x|..]);
  }

  /** What stands in front of the stripped script, as far as the pattern goes, stood there before. */
  lemma {:induction false} FrontWasThere(t: Data, b: Data, c: Data)
    requires b != [] && Settles(b) && c <= b && c <= Stripped(t, b)
    ensures c <= t
    decreases |t|
  {
    hide GetOp, Stripped, Hits, Settles;
    if b <= t {
      PrefixOfPrefix(c, b, t);
    } else {
      StrippedStep(t, b);
      if GetOp(t).Fetched? {
        var n := GetOp(t).size;
        var x, u := t[..n], t[n..];
        var r := Stripped(u, b);
        assert t == x + u;
        if |c| > n {
          var rest := c[n..];
          FrontSplits(c, b, x, r, rest);
          SharedFirst(t, b);
          SettlesTail(b);
          PrefixOfPrefix(rest, b[n..], b);
          FrontWasThere(u, b, rest);
          SharedFront(x, rest, u);
        } else {
          WithinFirst(c, x, r);
          WithinFirst(c, x, u);
        }
      }
    }
  }

  lemma {:induction false} SettledStrips(s: Data, b: Data)
    requires b != [] && Settles(b)
    ensures Hits(Stripped(s, b), b) == 0
    decreases |s|
  {
    hide GetOp, Stripped, Hits, Settles;
    if b <= s {
      StrippedHit(s, b);
      SettledStrips(s[|b|..], b);
    } else {
      StrippedStep(s, b);
      if GetOp(s).Fetched? {
        var n := GetOp(s).size;
        var r, rest := Stripped(s, b), Stripped(s[n..], b);
        assert !(b <= r) by { if b <= r { FrontWasThere(s, b, b); } }
        SettledStrips(s[n..], b);
        assert r[..n] == s[..n] && r[n..] == rest;
        SharedFirst(s, r);
        StrippedStep(r, b);
      }
    }
  }

  lemma {:induction false} TooShort(t: Data, b: Data)
    requires |t| < |b|
    ensures Stripped(t, b) == t
    decreases |t|
  {
    hide GetOp, Stripped, Hits;
    StrippedStep(t, b);
    if GetOp(t).Fetched? {
      TooShort(t[GetOp(t).size..], b);
    }
  }

  /** The script that leaves the pattern behind: its first instruction, the pattern, the rest of it. */
  function Nested(b: Data): Data {
    if GetOp(b).Unreadable? then b else b[..GetOp(b).size] + b + b[GetOp(b).size..]
  }

  /** Stripping the pattern out of its nesting leaves the pattern. */
  lemma NestedStrips(x: Data, rest: Data, b: Data)
    requires b == x + rest && IsInstruction(x) && !(rest <= b)
    ensures Stripped(x + (b + rest), b) == b
  {
    hide GetOp, Stripped, Hits;
    var s := x + (b + rest);
    SharedFront(x, rest, b + rest);
    WithinFirst(rest, b, rest);
    GetOpPrefix(x, b + rest);
    assert s[..|x|] == x && s[|x|..] == b + rest;
    StrippedStep(s, b);
    StrippedHit(b + rest, b);
    assert (b + rest)[|b|..] == rest;
    TooShort(rest, b);
  }

  lemma NestedRepeats(b: Data)
    requires b != [] && !Settles(b)
    ensures Stripped(Nested(b), b) == b && Hits(Stripped(Nested(b), b), b) == 1
  {
    hide GetOp, Stripped, Hits, Settles;
    SettlesTail(b);
    GetOpTake(b);
    var x, rest := b[..GetOp(b).size], b[GetOp(b).size..];
    assert b == x + rest;
    NestedStrips(x, rest, b);
    Assoc(x, b, rest);
    StrippedHit(b, b);
    assert b[|b|..] == [];
    NothingHit(b);
  }

  lemma NothingHit(b: Data)
    requires b != []
    ensures Hits([], b) == 0
  {
  }

  /** Exactly for these patterns a second deletion never finds anything, nor changes anything. */
  lemma DeletionFinalIff(b: Data)
    requires b != []
    ensures (forall s :: Hits(Stripped(s, b), b) == 0) <==> Settles(b)
    ensures (forall s :: Stripped(Stripped(s, b), b) == Stripped(s, b)) <==> Settles(b)
  {
    hide GetOp, Stripped, Hits, Settles;
    if Settles(b) {
      forall s ensures Hits(Stripped(s, b), b) == 0 && Stripped(Stripped(s, b), b) == Stripped(s, b) {
        SettledStrips(s, b);
        NoHits(Stripped(s, b), b);
      }
    } else {
      NestedRepeats(b);
      StrippedHit(b, b);
      assert b[|b|..] == [];
      TooShort([], b);
    }
  }

  /** Two different one-byte instructions are a pattern that can come about; twice the same is not. */
  lemma DeletionOfPairsCanRepeat()
    ensures !Settles([0x51, 0x52]) && Settles([0x51, 0x51])
    ensures var s: Data, b: Data := [0x51, 0x51, 0x52, 0x52], [0x51, 0x52];
            Stripped(s, b) == b && Hits(Stripped(s, b), b) == 1
  {
    hide Stripped, Hits;
    var b: Data, c: Data := [0x51, 0x52], [0x51, 0x51];
    assert GetOp(b).size == 1 == GetOp(c).size;
    assert (b[..1] + b)[1] != b[1];
    assert c[..1] + c == [0x51, 0x51, 0x51];
    NestedRepeats(b);
    assert Nested(b) == [0x51, 0x51, 0x52, 0x52];
  }

  /** How far FindAndDelete has come: bytes before pc are final, the rest is still to be stripped. */
  ghost predicate Progress(bytes: Data, pc: nat, found: nat, b: Data, original: Data)
    requires b != []
  {
    && pc <= |bytes|
    && bytes[..pc] + Stripped(bytes[pc..], b) == Stripped(original, b)
    && found + Hits(bytes[pc..], b) == Hits(original, b)
  }

  lemma CutHere(bytes: Data, pc: nat, found: nat, b: Data, original: Data)
    requires b != [] && Progress(bytes, pc, found, b, original) && b <= bytes[pc..]
    ensures Progress(bytes[..pc] + bytes[pc + |b|..], pc, found + 1, b, original)
  {
    hide GetOp;
    var next := bytes[..pc] + bytes[pc + |b|..];
    assert next[pc..] == bytes[pc..][|b|..] && next[..pc] == bytes[..pc];
  }

  lemma StepOver(bytes: Data, pc: nat, found: nat, b: Data, original: Data)
    requires b != [] && Progress(bytes, pc, found, b, original) && !(b <= bytes[pc..])
    ensures GetOp(bytes[pc..]).Unreadable? ==> bytes == Stripped(original, b) && found == Hits(original, b)
    ensures GetOp(bytes[pc..]).Fetched? ==> Progress(bytes, pc + GetOp(bytes[pc..]).size, found, b, original)
  {
    hide GetOp, Stripped, Hits;
    StrippedStep(bytes[pc..], b);
    match GetOp(bytes[pc..])
    case Unreadable =>
      assert bytes == bytes[..pc] + bytes[pc..];
    case Fetched(_, _, size) =>
      var rest := bytes[pc + size..];
      assert bytes[pc..][size..] == rest;
      assert bytes[..pc] + bytes[pc..][..size] == bytes[..pc + size];
      Assoc(bytes[..pc], bytes[pc..][..size], Stripped(rest, b));
  }

  /** A growable script: the push operators append, FindAndDelete erases in place. */
  class Builder {
    var bytes: Data

    constructor ()
      ensures bytes == []
    {
      bytes := [];
    }

    /** operator<<(opcodetype) */
    method AddOp(op: Byte)
      modifies this
      ensures bytes == old(bytes) + [op]
    {
      bytes := bytes + [op];
    }

    /** operator<<(vector) */
    method AddData(b: Data)
      modifies this
      ensures bytes == old(bytes) + PushData(b)
    {
      hide Fixed;
      var n := |b|;
      ghost var before := bytes;
      if n < OP_PUSHDATA1 {
        bytes := bytes + [n as Byte];
      } else if n <= 0xff {
        bytes := bytes + [OP_PUSHDATA1];
        bytes := bytes + [n as Byte];
        assert [OP_PUSHDATA1] + [n as Byte] == PushPrefix(n);
        Assoc(before, [OP_PUSHDATA1], [n as Byte]);
      } else if n <= 0xffff {
        bytes := bytes + [OP_PUSHDATA2];
        bytes := bytes + Fixed(n, 256, 2);
        Assoc(before, [OP_PUSHDATA2], Fixed(n, 256, 2));
      } else {
        bytes := bytes + [OP_PUSHDATA4];
        bytes := bytes + Fixed(n % WORD, 256, 4);
        Assoc(before, [OP_PUSHDATA4], Fixed(n % WORD, 256, 4));
      }
      Assoc(before, PushPrefix(n), b);
      bytes := bytes + b;
    }

    /** FindAndDelete: cut b wherever it stands at an instruction boundary, then step over one instruction. */
    method FindAndDelete(b: Data) returns (found: nat)
      modifies this
      ensures b == [] ==> found == 0 && bytes == old(bytes)
      ensures b != [] ==> found == Hits(old(bytes), b) && bytes == Stripped(old(bytes), b)
    {
      hide GetOp, Stripped, Hits;
      found := 0;
      if b == [] {
        return;
      }
      var pc, more := 0, true;
      assert bytes[..0] + Stripped(bytes[0..], b) == Stripped(bytes, b) by { assert bytes[0..] == bytes; }
      while more
        invariant pc <= |bytes|
        invariant if more then Progress(bytes, pc, found, b, old(bytes))
                  else bytes == Stripped(old(bytes), b) && found == Hits(old(bytes), b)
        decreases more, |bytes| - pc
      {
        ghost var left := |bytes| - pc;
        while |bytes| - pc >= |b| && bytes[pc..pc + |b|] == b
          invariant Progress(bytes, pc, found, b, old(bytes)) && |bytes| - pc <= left
          decreases |bytes|
        {
          assert b <= bytes[pc..];
          CutHere(bytes, pc, found, b, old(bytes));
          bytes := bytes[..pc] + bytes[pc + |b|..];
          found := found + 1;
        }
        assert !(b <= bytes[pc..]);
        StepOver(bytes, pc, found, b, old(bytes));
        match GetOp(bytes[pc..])
        case Unreadable => more := false;
        case Fetched(_, _, size) => pc := pc + size;
      }
    }
  }
}
