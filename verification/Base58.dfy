/** Base 58: byte strings as text, leading zeros included. */
module Base58 {
  import opened Bytes
  import opened Radix
  import BigNum

  const NUMERALS := "123456789"
  const CAPITALS := "ABCDEFGHJKLMNPQRSTUVWXYZ"
  const SMALL := "abcdefghijkmnopqrstuvwxyz"

  // Changing the base of a digit string

  /** The number of zeros at the front. */
  function Lead(s: seq<nat>): (z: nat)
    ensures z <= |s| && (forall i :: 0 <= i < z ==> s[i] == 0) && (z < |s| ==> s[z] != 0)
  {
    if s == [] || s[0] != 0 then 0 else 1 + Lead(s[1..])
  }

  function Zeros(z: nat): (s: seq<nat>)
    ensures |s| == z && forall i :: 0 <= i < z ==> s[i] == 0
  {
    seq(z, i => 0)
  }

  ghost predicate Over(s: seq<nat>, base: nat) {
    forall i :: 0 <= i < |s| ==> s[i] < base
  }

  /** The same number in another base, big-endian, with as many zeros in front. */
  function Convert(s: seq<nat>, from: nat, to: nat): (r: seq<nat>)
    requires from >= 2 && to >= 2
    ensures Over(r, to)
  {
    Zeros(Lead(s)) + Reverse<nat>(Digits(ValueBE(s, from), to))
  }

  lemma {:induction false} LeadIs(s: seq<nat>, z: nat)
    requires z <= |s| && (forall i :: 0 <= i < z ==> s[i] == 0) && (z < |s| ==> s[z] != 0)
    ensures Lead(s) == z
  {
    if z > 0 {
      LeadIs(s[1..], z - 1);
    }
  }

  lemma ZerosValue(z: nat, t: seq<nat>, base: nat)
    requires base >= 2
    ensures ValueBE(Zeros(z) + t, base) == ValueBE(t, base)
  {
    SplitBE(Zeros(z), t, base);
    ZerosBE(z, base);
    assert Zeros(z) == seq(z, i => 0);
  }

  /** Value and zeros survive the conversion. */
  lemma Converted(s: seq<nat>, from: nat, to: nat)
    requires from >= 2 && to >= 2
    ensures ValueBE(Convert(s, from, to), to) == ValueBE(s, from) && Lead(Convert(s, from, to)) == Lead(s)
  {
    var v := ValueBE(s, from);
    var d: seq<nat> := Digits(v, to);
    DigitsCanonical(v, to);
    ValueOfDigits(v, to);
    ReadReversed(d, to);
    ZerosValue(Lead(s), Reverse<nat>(d), to);
    hide ValueBE, Lead;
    LeadIs(Convert(s, from, to), Lead(s));
  }

  /** A digit string is determined by its value and its zeros. */
  lemma Rebuilt(s: seq<nat>, base: nat)
    requires base >= 2 && Over(s, base)
    ensures Zeros(Lead(s)) + Reverse<nat>(Digits(ValueBE(s, base), base)) == s
  {
    hide Reverse, Lead;
    var z := Lead(s);
    var t := s[z..];
    assert s == Zeros(z) + t;
    ZerosValue(z, t, base);
    var d: seq<nat> := Reverse<nat>(t);
    assert Reverse<nat>(d) == t;
    ReadReversed(d, base);
    assert Canonical(d, base);
    DigitsOfValue(d, base);
  }

  /** Converting there and back. */
  lemma ConvertBack(s: seq<nat>, from: nat, to: nat)
    requires from >= 2 && to >= 2 && Over(s, from)
    ensures Convert(Convert(s, from, to), to, from) == s
  {
    Converted(s, from, to);
    hide Lead, ValueBE, Digits;
    Rebuilt(s, from);
  }

  // Letters

  /** pszBase58, by index. */
  function Letter(d: nat): char
    requires d < 58
  {
    if d < 9 then NUMERALS[d] else if d < 33 then CAPITALS[d - 9] else SMALL[d - 33]
  }

  lemma NextNumeral(d: nat)
    requires d < 8
    ensures NUMERALS[d] < NUMERALS[d + 1]
  {
  }

  lemma NextCapital(d: nat)
    requires d < 23
    ensures CAPITALS[d] < CAPITALS[d + 1]
  {
  }

  lemma NextSmall(d: nat)
    requires d < 24
    ensures SMALL[d] < SMALL[d + 1]
  {
  }

  lemma NextLetter(d: nat)
    requires d < 57
    ensures Letter(d) < Letter(d + 1)
  {
    if d < 8 {
      NextNumeral(d);
    } else if 9 <= d < 32 {
      NextCapital(d - 9);
    } else if d >= 33 {
      NextSmall(d - 33);
    }
  }

  /** The letters ascend, so no two are the same. */
  lemma {:induction false} LettersAscend(d: nat, e: nat)
    requires d < e < 58
    ensures Letter(d) < Letter(e)
    decreases e - d
  {
    hide Letter;
    NextLetter(d);
    if d + 1 < e {
      LettersAscend(d + 1, e);
    }
  }

  /** strchr in the alphabet, from index d on. */
  function IndexFrom(c: char, d: nat): (r: Option<nat>)
    requires d <= 58
    ensures r.Some? ==> d <= r.value < 58 && Letter(r.value) == c
    ensures r.None? ==> forall e :: d <= e < 58 ==> Letter(e) != c
    decreases 58 - d
  {
    if d == 58 then None
    else if Letter(d) == c then Some(d)
    else IndexFrom(c, d + 1)
  }

  function Digit(c: char): (r: Option<nat>)
    ensures r.Some? ==> r.value < 58 && Letter(r.value) == c
    ensures r.None? ==> forall e :: 0 <= e < 58 ==> Letter(e) != c
  {
    IndexFrom(c, 0)
  }

  lemma DigitOfLetter(d: nat)
    requires d < 58
    ensures Digit(Letter(d)) == Some(d)
  {
    hide Letter, Digit;
    var r := Digit(Letter(d));
    if r.Some? && r.value < d {
      LettersAscend(r.value, d);
    } else if r.Some? && d < r.value {
      LettersAscend(d, r.value);
    }
  }

  lemma NumeralAt(d: nat)
    requires d < 9
    ensures NUMERALS[d] as int == '1' as int + d
  {
  }

  lemma CapitalAt(d: nat)
    requires d < 24
    ensures CAPITALS[d] as int == 'A' as int + d + (if d >= 8 then 1 else 0) + (if d >= 13 then 1 else 0)
  {
  }

  lemma SmallAt(d: nat)
    requires d < 25
    ensures SMALL[d] as int == 'a' as int + d + (if d >= 11 then 1 else 0)
  {
  }

  /** Digits and letters but for the four that are easily mistaken: 0, O, I and l. */
  predicate InAlphabet(c: char) {
    || '1' <= c <= '9'
    || ('A' <= c <= 'Z' && c != 'I' && c != 'O')
    || ('a' <= c <= 'z' && c != 'l')
  }

  lemma LetterInAlphabet(d: nat)
    requires d < 58
    ensures InAlphabet(Letter(d))
  {
    if d < 9 {
      NumeralAt(d);
    } else if d < 33 {
      CapitalAt(d - 9);
    } else {
      SmallAt(d - 33);
    }
  }

  lemma AlphabetHasLetter(c: char) returns (d: nat)
    requires InAlphabet(c)
    ensures d < 58 && Letter(d) == c
  {
    var n := c as int;
    if c <= '9' {
      d := n - '1' as int;
      NumeralAt(d);
    } else if c <= 'Z' {
      d := n - 'A' as int - (if c > 'I' then 1 else 0) - (if c > 'O' then 1 else 0);
      CapitalAt(d);
      d := d + 9;
    } else {
      d := n - 'a' as int - (if c > 'l' then 1 else 0);
      SmallAt(d);
      d := d + 33;
    }
  }

  /** The alphabet: with LettersAscend this settles which letter stands for which digit. */
  lemma AlphabetIs(c: char)
    ensures Digit(c).Some? <==> InAlphabet(c)
  {
    hide Letter, InAlphabet, Digit;
    if Digit(c).Some? {
      LetterInAlphabet(Digit(c).value);
    }
    if InAlphabet(c) {
      var d := AlphabetHasLetter(c);
    }
  }

  /** isspace */
  predicate Space(c: char) {
    c == ' ' || '\t' <= c <= '\r'
  }

  lemma LetterNotSpace(d: nat)
    requires d < 58
    ensures !Space(Letter(d)) && Letter(d) != '\0'
  {
    assert Letter(0) == '1';
    hide Letter;
    if d > 0 {
      LettersAscend(0, d);
    }
  }

  function Spell(ds: seq<nat>): (s: string)
    requires Over(ds, 58)
    ensures |s| == |ds| && forall i :: 0 <= i < |s| ==> s[i] == Letter(ds[i])
  {
    seq(|ds|, i requires 0 <= i < |ds| => Letter(ds[i]))
  }

  // Encoding

  function Encoded(data: Data): string {
    Spell(Convert(data, 256, 58))
  }

  const NO_SIGN: Data := [0]

  lemma ZeroTop(data: Data)
    ensures BigNum.FromPayload(NO_SIGN + data) == ValueBE(data, 256)
  {
    hide ValueBE;
    var q := NO_SIGN + data;
    assert BigNum.ClearTop(q) == q by { assert q[1..] == data && q[0] % 128 == 0; }
    assert NO_SIGN == [0];
    BigNum.LeadingZero(data);
  }

  /** The number the bytes stand for, read with a sign byte behind them. */
  lemma SetUnsigned(data: Data)
    ensures BigNum.FromVch(Reverse(data) + NO_SIGN) == ValueBE(data, 256)
  {
    hide ValueBE, Reverse, BigNum.FromPayload;
    assert Reverse(Reverse(data) + NO_SIGN) == NO_SIGN + data;
    ZeroTop(data);
  }

  /** The division loop: the letters of a number, lowest first. */
  method SpellNumber(n: nat) returns (text: string)
    ensures text == Spell(Digits(n, 58))
  {
    hide Letter;
    text := [];
    var bn: nat := n;
    ghost var done: seq<nat> := [];
    while bn > 0
      invariant Over(done, 58) && text == Spell(done) && done + Digits(bn, 58) == Digits(n, 58)
      decreases bn
    {
      DivShrinks(bn, 58);
      ghost var rest := Digits(bn / 58, 58);
      assert done + ([bn % 58] + rest) == done + [bn % 58] + rest;
      text := text + [Letter(bn % 58)];
      done := done + [bn % 58];
      bn := bn / 58;
    }
    assert done + [] == done;
  }

  lemma Turned(data: Data, z: nat, ds: seq<nat>)
    requires z == Lead(data) && ds == Digits(ValueBE(data, 256), 58)
    ensures Reverse(Spell(ds) + Spell(Zeros(z))) == Encoded(data)
  {
    hide Letter, ValueBE, Digits;
    assert Convert(data, 256, 58) == Zeros(z) + Reverse<nat>(ds);
  }

  /** EncodeBase58. Its number format holds less than four gigabytes. */
  method EncodeBase58(data: Data) returns (text: string)
    requires |data| + 1 < WORD
    ensures text == Encoded(data)
  {
    var tmp := Reverse(data) + NO_SIGN;
    SetUnsigned(data);
    hide ValueBE, BigNum.FromVch, Letter, Digits, Encoded, Lead;
    var bn := BigNum.SetVch(tmp);
    text := SpellNumber(bn);
    ghost var number := text;
    var p := 0;
    while p < |data| && data[p] == 0
      invariant 0 <= p <= |data| && (forall i :: 0 <= i < p ==> data[i] == 0)
      invariant text == number + Spell(Zeros(p))
    {
      assert Spell(Zeros(p + 1)) == Spell(Zeros(p)) + [Letter(0)];
      text := text + [Letter(0)];
      p := p + 1;
    }
    LeadIs(data, p);
    Turned(data, p, Digits(bn, 58));
    text := Reverse(text);
  }

  // Decoding

  /** What a C string ends with. */
  function CString(s: string): (t: string)
    ensures '\0' !in t && t <= s && ('\0' !in s ==> t == s)
  {
    if s == [] || s[0] == '\0' then [] else [s[0]] + CString(s[1..])
  }

  /** The number of spaces at the front. */
  function Spaces(s: string): (k: nat)
    ensures k <= |s| && (forall i :: 0 <= i < k ==> Space(s[i])) && (k < |s| ==> !Space(s[k]))
  {
    if s == [] || !Space(s[0]) then 0 else 1 + Spaces(s[1..])
  }

  /** The number of letters at the front. */
  function Letters(s: string): (k: nat)
    ensures k <= |s| && (forall i :: 0 <= i < k ==> Digit(s[i]).Some?) && (k < |s| ==> Digit(s[k]).None?)
  {
    if s == [] || Digit(s[0]).None? then 0 else 1 + Letters(s[1..])
  }

  function Read(s: string): (ds: seq<nat>)
    requires forall i :: 0 <= i < |s| ==> Digit(s[i]).Some?
    ensures |ds| == |s| && Over(ds, 58) && forall i :: 0 <= i < |s| ==> ds[i] == Digit(s[i]).value
  {
    seq(|s|, i requires 0 <= i < |s| => Digit(s[i]).value)
  }

  /** Letters, with spaces allowed before and after. */
  function Decoded(s: string): Option<Data> {
    var c := CString(s);
    var t := c[Spaces(c)..];
    var k := Letters(t);
    if Spaces(t[k..]) < |t| - k then None else Some(Convert(Read(t[..k]), 58, 256))
  }

  lemma {:induction false} SpacesAre(s: string, k: nat)
    requires k <= |s| && (forall i :: 0 <= i < k ==> Space(s[i])) && (k < |s| ==> !Space(s[k]))
    ensures Spaces(s) == k
  {
    if k > 0 {
      SpacesAre(s[1..], k - 1);
    }
  }

  lemma {:induction false} LettersAre(s: string, k: nat)
    requires k <= |s| && (forall i :: 0 <= i < k ==> Digit(s[i]).Some?) && (k < |s| ==> Digit(s[k]).None?)
    ensures Letters(s) == k
  {
    hide Digit;
    if k > 0 {
      LettersAre(s[1..], k - 1);
    }
  }

  /** Text over the alphabet. */
  ghost predicate Lettered(s: string) {
    forall i :: 0 <= i < |s| ==> Digit(s[i]).Some?
  }

  lemma LetterPlain(c: char)
    requires Digit(c).Some?
    ensures !Space(c) && c != '\0'
  {
    hide Digit, Letter;
    LetterNotSpace(Digit(c).value);
  }

  lemma AllSpaces(s: string)
    requires forall i :: 0 <= i < |s| ==> Space(s[i])
    ensures Spaces(s) == |s| && Letters(s) == 0
  {
    hide Digit, Letters, Spaces;
    SpacesAre(s, |s|);
    if s != [] { SpaceNoLetter(s[0]); }
    LettersAre(s, 0);
  }

  lemma LeadingSpaces(before: string, s: string, after: string)
    requires Lettered(s) && (forall i :: 0 <= i < |before| ==> Space(before[i])) && (s == [] ==> after == [])
    ensures Spaces(before + s + after) == |before| && (before + s + after)[|before|..] == s + after
  {
    hide Digit, Spaces;
    if s != [] { LetterPlain(s[0]); }
    SpacesAre(before + s + after, |before|);
  }

  lemma LettersThenSpaces(s: string, after: string)
    requires Lettered(s) && forall i :: 0 <= i < |after| ==> Space(after[i])
    ensures Letters(s + after) == |s| && (s + after)[..|s|] == s && (s + after)[|s|..] == after
  {
    hide Digit, Letters;
    if after != [] { SpaceNoLetter(after[0]); }
    LettersAre(s + after, |s|);
  }

  lemma NoZeros(before: string, s: string, after: string)
    requires Lettered(s) && (forall i :: 0 <= i < |before| ==> Space(before[i]))
             && (forall i :: 0 <= i < |after| ==> Space(after[i]))
    ensures CString(before + s + after) == before + s + after
  {
    hide Digit;
    forall i | 0 <= i < |s| ensures s[i] != '\0' { LetterPlain(s[i]); }
    assert '\0' !in before + s + after;
  }

  /** Spaces around the text make no difference. */
  lemma DecodedPadded(before: string, s: string, after: string)
    requires Lettered(s) && (forall i :: 0 <= i < |before| ==> Space(before[i]))
             && (forall i :: 0 <= i < |after| ==> Space(after[i]))
    ensures Decoded(before + s + after) == Some(Convert(Read(s), 58, 256))
  {
    hide Digit, Convert, CString, Spaces, Letters, Read;
    NoZeros(before, s, after);
    var all := before + s + after;
    if s == [] {
      AllSpaces(all);
      AllSpaces([]);
      assert all[|all|..] == [] && all[|all|..][..0] == s;
    } else {
      LeadingSpaces(before, s, after);
      LettersThenSpaces(s, after);
      AllSpaces(after);
    }
  }

  lemma SpaceNoLetter(c: char)
    requires Space(c)
    ensures Digit(c).None?
  {
    hide Digit;
    if Digit(c).Some? {
      LetterPlain(c);
    }
  }

  lemma DecodedLettered(s: string)
    requires Lettered(s)
    ensures Decoded(s) == Some(Convert(Read(s), 58, 256))
  {
    hide Decoded, Convert, Digit;
    DecodedPadded([], s, []);
    assert [] + s + [] == s;
  }

  lemma SpaceIs(c: char)
    ensures Space(c) <==> c in {' ', '\t', '\n', 11 as char, 12 as char, '\r'}
  {
  }

  /** The text is letters, with spaces before and after. */
  ghost predicate Spaced(c: string, before: string, mid: string, after: string) {
    && c == before + mid + after && (forall i :: 0 <= i < |mid| ==> InAlphabet(mid[i]))
    && (forall i :: 0 <= i < |before| ==> Space(before[i])) && (forall i :: 0 <= i < |after| ==> Space(after[i]))
  }

  lemma AlphabetLettered(s: string)
    ensures Lettered(s) <==> forall i :: 0 <= i < |s| ==> InAlphabet(s[i])
  {
    hide Digit, InAlphabet;
    forall i | 0 <= i < |s| ensures Digit(s[i]).Some? <==> InAlphabet(s[i]) { AlphabetIs(s[i]); }
  }

  lemma DecodedParts(s: string) returns (before: string, mid: string, after: string)
    requires Decoded(s).Some?
    ensures Spaced(CString(s), before, mid, after)
  {
    hide Convert, Read, Digit, InAlphabet, Space, CString;
    var c := CString(s);
    var t := c[Spaces(c)..];
    var k := Letters(t);
    before, mid, after := c[..Spaces(c)], t[..k], t[k..];
    assert Spaces(after) == |after|;
    hide Spaces, Letters, Decoded;
    AlphabetLettered(mid);
    SplitTwice(c, before, mid, after, |before|, k);
  }

  lemma SplitTwice(c: string, before: string, mid: string, after: string, a: nat, k: nat)
    requires a + k <= |c| && before == c[..a] && mid == c[a..][..k] && after == c[a..][k..]
    ensures c == before + mid + after
  {
  }

  lemma SpacedDecodes(s: string, before: string, mid: string, after: string)
    requires Spaced(CString(s), before, mid, after)
    ensures Decoded(s).Some?
  {
    hide Digit, InAlphabet, Space, Convert;
    AlphabetLettered(mid);
    DecodedPadded(before, mid, after);
    hide Spaces, Letters;
    assert CString(CString(s)) == CString(s);
  }

  /** Decoding succeeds exactly for letters within spaces, up to the first zero character. */
  lemma DecodedIff(s: string)
    ensures Decoded(s).Some? <==> exists before, mid, after :: Spaced(CString(s), before, mid, after)
  {
    hide Decoded, CString, Spaced;
    if Decoded(s).Some? {
      var before, mid, after := DecodedParts(s);
    }
    forall before, mid, after | Spaced(CString(s), before, mid, after) ensures Decoded(s).Some? {
      SpacedDecodes(s, before, mid, after);
    }
  }

  lemma SpellRead(ds: seq<nat>)
    requires Over(ds, 58)
    ensures Lettered(Spell(ds)) && Read(Spell(ds)) == ds
  {
    hide Letter, Digit;
    forall i | 0 <= i < |ds| ensures Digit(Spell(ds)[i]) == Some(ds[i]) { DigitOfLetter(ds[i]); }
  }

  /** Every byte string comes back from its text. */
  lemma DecodeEncoded(data: Data)
    ensures Lettered(Encoded(data)) && Decoded(Encoded(data)) == Some(data)
  {
    hide Convert, Spell, Decoded, Read;
    var ds := Convert(data, 256, 58);
    SpellRead(ds);
    DecodedLettered(Spell(ds));
    ConvertBack(data, 256, 58);
  }

  /** Every text over the alphabet is the text of what it decodes to. */
  lemma EncodeDecoded(s: string)
    requires Lettered(s)
    ensures Decoded(s).Some? && Encoded(Decoded(s).value) == s
  {
    hide Convert, Decoded, Letter, Digit;
    DecodedLettered(s);
    ConvertBack(Read(s), 58, 256);
    assert Spell(Read(s)) == s;
  }

  // The decoder

  /** The little-endian bytes without the sign byte that a high bit calls for. */
  function Trimmed(v: Data): Data {
    if |v| >= 2 && v[|v| - 1] == 0 && v[|v| - 2] >= 0x80 then v[..|v| - 1] else v
  }

  lemma TrimmedWrap(d: Data)
    requires d != [] ==> d[|d| - 1] != 0
    ensures Trimmed(Reverse(BigNum.Wrap(Reverse(d), false))) == d
  {
    hide Reverse;
    var m := Reverse(d);
    assert Reverse(m) == d;
    if m != [] {
      if m[0] >= 128 {
        var none: Data := [0];
        assert BigNum.Wrap(m, false) == none + m;
        assert Reverse(none + m) == d + none;
      } else {
        assert BigNum.Wrap(m, false) == m;
      }
    }
  }

  lemma MagnitudeOf(n: nat, d: Data)
    requires d == Digits(n, 256)
    ensures BigNum.Magnitude(n) == Reverse(d)
  {
    hide Digits, Reverse;
  }

  lemma TrimmedVch(n: nat)
    ensures Trimmed(BigNum.ToVch(n)) == Digits(n, 256)
  {
    DigitsCanonical(n, 256);
    hide Digits, Trimmed, Reverse, BigNum.Wrap, BigNum.Magnitude;
    var d: Data := Digits(n, 256);
    MagnitudeOf(n, d);
    TrimmedWrap(d);
  }

  /** The multiplication loop: the number the letters at the front stand for, and where they end. */
  method ReadNumber(t: string) returns (bn: nat, k: nat)
    ensures k == Letters(t) && bn == ValueBE(Read(t[..k]), 58)
  {
    hide Digit;
    bn, k := 0, 0;
    assert Read(t[..0]) == [];
    while k < |t| && Digit(t[k]).Some?
      invariant 0 <= k <= |t| && (forall i :: 0 <= i < k ==> Digit(t[i]).Some?) && bn == ValueBE(Read(t[..k]), 58)
    {
      assert Read(t[..k + 1])[..k] == Read(t[..k]);
      bn := bn * 58 + Digit(t[k]).value;
      k := k + 1;
    }
    LettersAre(t, k);
  }

  /** The number of spaces at the front, by a loop. */
  method SkipSpaces(s: string) returns (k: nat)
    ensures k == Spaces(s)
  {
    k := 0;
    while k < |s| && Space(s[k])
      invariant 0 <= k <= |s| && forall i :: 0 <= i < k ==> Space(s[i])
    {
      k := k + 1;
    }
    SpacesAre(s, k);
  }

  /** DecodeBase58 */
  method DecodeBase58(s: string) returns (r: Option<Data>)
    ensures r == Decoded(s)
  {
    hide Digit, ValueBE, Letters, Spaces, CString, Digits, Trimmed, Read, Lead, Letter, BigNum.ToVch;
    var c := CString(s);
    var p := SkipSpaces(c);
    var t := c[p..];
    var bn, k := ReadNumber(t);
    var q := SkipSpaces(t[k..]);
    if q < |t| - k {
      return None;
    }
    var v := BigNum.GetVch(bn);
    TrimmedVch(bn);
    v := Trimmed(v);
    var zeros := CountOnes(t);
    LeadingOnes(t, k, zeros);
    assert Reverse(v) == Reverse<nat>(v);
    r := Some(Zeros(zeros) + Reverse(v));
  }

  method CountOnes(t: string) returns (z: nat)
    ensures z <= |t| && (forall i :: 0 <= i < z ==> t[i] == Letter(0)) && (z < |t| ==> t[z] != Letter(0))
  {
    z := 0;
    while z < |t| && t[z] == Letter(0)
      invariant 0 <= z <= |t| && forall i :: 0 <= i < z ==> t[i] == Letter(0)
    {
      z := z + 1;
    }
  }

  lemma LeadingOnes(t: string, k: nat, z: nat)
    requires k == Letters(t) && z <= |t| && (forall i :: 0 <= i < z ==> t[i] == Letter(0))
             && (z < |t| ==> t[z] != Letter(0))
    ensures Lead(Read(t[..k])) == z
  {
    hide Letter, Digit;
    DigitOfLetter(0);
    assert z <= k;
    LeadIs(Read(t[..k]), z);
  }

  // With a checksum

  /** EncodeBase58Check for a hash of at least four bytes. */
  function EncodedCheck(hash: Data -> Data, data: Data): string
    requires |hash(data)| >= 4
  {
    Encoded(data + hash(data)[..4])
  }

  /** DecodeBase58Check */
  function DecodedCheck(hash: Data -> Data, s: string): Option<Data>
    requires forall d :: |hash(d)| >= 4
  {
    var r := Decoded(s);
    if r.None? || |r.value| < 4 then None
    else
      var n := |r.value| - 4;
      if hash(r.value[..n])[..4] != r.value[n..] then None else Some(r.value[..n])
  }

  /** The checksummed pair, for every hash. */
  lemma DecodeEncodedCheck(hash: Data -> Data, data: Data)
    requires forall d :: |hash(d)| >= 4
    ensures DecodedCheck(hash, EncodedCheck(hash, data)) == Some(data)
  {
    hide Encoded, Decoded;
    var v := data + hash(data)[..4];
    DecodeEncoded(v);
    assert v[..|v| - 4] == data && v[|v| - 4..] == hash(data)[..4];
  }

  /** A text over the alphabet passes the check exactly when it is the checked text of some bytes. */
  lemma DecodedCheckIff(hash: Data -> Data, s: string)
    requires Lettered(s) && forall d :: |hash(d)| >= 4
    ensures DecodedCheck(hash, s).Some? <==> exists d :: EncodedCheck(hash, d) == s
    ensures DecodedCheck(hash, s).Some? ==> EncodedCheck(hash, DecodedCheck(hash, s).value) == s
  {
    hide Encoded, Decoded;
    if DecodedCheck(hash, s).Some? {
      EncodeDecoded(s);
      var v, d := Decoded(s).value, DecodedCheck(hash, s).value;
      assert v == d + hash(d)[..4];
      assert EncodedCheck(hash, d) == s;
    } else if exists d :: EncodedCheck(hash, d) == s {
      var d :| EncodedCheck(hash, d) == s;
      DecodeEncodedCheck(hash, d);
    }
  }
}
