/** UUID version 7 as raw bytes and as text: minting, the canonical printer and the strict parser
    (RFC 9562, sections 4 and 5.7). */
module Uuids {
  import opened Types

  const HYPHEN: byte := 0x2D

  predicate IsHex(c: byte) {
    0x30 <= c <= 0x39 || 0x61 <= c <= 0x66
  }

  /** The lower-case hexadecimal digit of a nibble. */
  function HexDigit(n: byte): (c: byte)
    requires n < 16
    ensures IsHex(c) && HexVal(c) == Some(n)
  {
    if n < 10 then 0x30 + n else 0x61 + n - 10
  }

  function HexVal(c: byte): (v: Option<byte>)
    ensures v.Some? <==> IsHex(c)
    ensures v.Some? ==> v.value < 16
  {
    if 0x30 <= c <= 0x39 then Some(c - 0x30)
    else if 0x61 <= c <= 0x66 then Some(c - 0x61 + 10)
    else None
  }

  /** Version 7 in the high half of byte 6, variant binary 10 at the top of byte 8. */
  predicate IsV7(u: Uuid) {
    |u.bytes| == 16 && u.bytes[6] / 16 == 7 && u.bytes[8] / 64 == 2
  }

  // ---------- The canonical text ----------

  predicate HyphenAt(k: nat) {
    k == 8 || k == 13 || k == 18 || k == 23
  }

  function HyphensBefore(k: nat): nat {
    (if k > 8 then 1 else 0) + (if k > 13 then 1 else 0) + (if k > 18 then 1 else 0) + (if k > 23 then 1 else 0)
  }

  /** Character `k` of the 8-4-4-4-12 form, read off the bytes directly. */
  function CharAt(u: Uuid, k: nat): byte
    requires |u.bytes| == 16 && k < UUID_STRING_LEN
  {
    if HyphenAt(k) then HYPHEN
    else
      var n := k - HyphensBefore(k);
      HexDigit(if n % 2 == 0 then u.bytes[n / 2] / 16 else u.bytes[n / 2] % 16)
  }

  function Format(u: Uuid): (f: Bytes)
    requires |u.bytes| == 16
    ensures |f| == UUID_STRING_LEN
  {
    seq(UUID_STRING_LEN, k requires 0 <= k < UUID_STRING_LEN => CharAt(u, k))
  }

  /** The one v7 value a text stands for, if any. */
  ghost function Parse(s: Bytes): Option<Uuid> {
    if u :| IsV7(u) && Format(u) == s then Some(u) else None
  }

  /** Where the two digits of byte `i` start. */
  function DigitsOf(i: nat): (k: nat)
    requires i < 16
    ensures k + 1 < UUID_STRING_LEN && !HyphenAt(k) && !HyphenAt(k + 1)
    ensures k - HyphensBefore(k) == 2 * i && k + 1 - HyphensBefore(k + 1) == 2 * i + 1
  {
    2 * i + (if i >= 4 then 1 else 0) + (if i >= 6 then 1 else 0) + (if i >= 8 then 1 else 0)
    + (if i >= 10 then 1 else 0)
  }

  lemma DigitsAt(u: Uuid, i: nat)
    requires |u.bytes| == 16 && i < 16
    ensures var f, k := Format(u), DigitsOf(i);
      f[k] == HexDigit(u.bytes[i] / 16) && f[k + 1] == HexDigit(u.bytes[i] % 16)
  {
    hide HexDigit, DigitsOf;
  }

  lemma {:induction false} FormatIsInjective(u: Uuid, v: Uuid)
    requires |u.bytes| == 16 && |v.bytes| == 16 && Format(u) == Format(v)
    ensures u == v
  {
    hide HexDigit, DigitsOf, CharAt, HexVal;
    forall i | 0 <= i < 16 ensures u.bytes[i] == v.bytes[i] {
      DigitsAt(u, i);
      DigitsAt(v, i);
      assert HexVal(HexDigit(u.bytes[i] / 16)) == HexVal(HexDigit(v.bytes[i] / 16));
      assert HexVal(HexDigit(u.bytes[i] % 16)) == HexVal(HexDigit(v.bytes[i] % 16));
    }
  }

  /** Printing then parsing gives back every v7 value. */
  lemma {:induction false} ParseOfFormat(u: Uuid)
    requires IsV7(u)
    ensures Parse(Format(u)) == Some(u)
  {
    hide Format;
    var r := Parse(Format(u));
    assert r.Some? && IsV7(r.value) && Format(r.value) == Format(u);
    FormatIsInjective(u, r.value);
  }

  /** Parsing then printing gives back every accepted text. */
  lemma FormatOfParse(s: Bytes)
    requires Parse(s).Some?
    ensures IsV7(Parse(s).value) && Format(Parse(s).value) == s
  {
  }

  // ---------- Which texts are accepted ----------

  /** The grammar of the canonical form: lower-case digits, hyphens in place, version and variant. */
  predicate Canonical(s: Bytes) {
    && WellSpaced(s)
    && s[14] == 0x37
    && s[19] in {0x38, 0x39, 0x61, 0x62}
  }

  function ByteAt(s: Bytes, i: nat): byte
    requires |s| == UUID_STRING_LEN && i < 16
  {
    var hi, lo := HexVal(s[DigitsOf(i)]), HexVal(s[DigitsOf(i) + 1]);
    if hi.Some? && lo.Some? then hi.value * 16 + lo.value else 0
  }

  function BytesOf(s: Bytes): (u: Uuid)
    requires |s| == UUID_STRING_LEN
    ensures |u.bytes| == 16
  {
    Uuid(seq(16, i requires 0 <= i < 16 => ByteAt(s, i)))
  }

  /** Position `k` is one of the two digits of byte `(k - HyphensBefore(k)) / 2`. */
  lemma DigitOwner(k: nat)
    requires k < UUID_STRING_LEN && !HyphenAt(k)
    ensures var n := k - HyphensBefore(k);
      0 <= n < 32 && k == DigitsOf(n / 2) + n % 2
  {
  }

  predicate WellSpaced(s: Bytes) {
    |s| == UUID_STRING_LEN && forall k :: 0 <= k < |s| ==> if HyphenAt(k) then s[k] == HYPHEN else IsHex(s[k])
  }

  lemma HexOfVal(c: byte)
    requires IsHex(c)
    ensures HexDigit(HexVal(c).value) == c
  {
  }

  lemma ByteDigits(s: Bytes, i: nat)
    requires WellSpaced(s) && i < 16
    ensures var b, k := ByteAt(s, i), DigitsOf(i); HexDigit(b / 16) == s[k] && HexDigit(b % 16) == s[k + 1]
  {
    hide DigitsOf, HexDigit, HexVal;
    HexOfVal(s[DigitsOf(i)]);
    HexOfVal(s[DigitsOf(i) + 1]);
  }

  lemma {:induction false} BytesOfPrints(s: Bytes)
    requires |s| == UUID_STRING_LEN && WellSpaced(s)
    ensures Format(BytesOf(s)) == s
  {
    hide DigitsOf, HexDigit, ByteAt, HyphensBefore, CharAt, WellSpaced;
    var u := BytesOf(s);
    forall k | 0 <= k < UUID_STRING_LEN ensures Format(u)[k] == s[k] {
      if HyphenAt(k) {
        assert Format(u)[k] == HYPHEN && s[k] == HYPHEN by { HyphensMatch(u, s, k); }
      } else {
        DigitOwner(k);
        var i := (k - HyphensBefore(k)) / 2;
        assert u.bytes[i] == ByteAt(s, i);
        ByteDigits(s, i);
        DigitsAt(u, i);
      }
    }
  }

  lemma HyphensMatch(u: Uuid, s: Bytes, k: nat)
    requires |u.bytes| == 16 && WellSpaced(s) && k < UUID_STRING_LEN && HyphenAt(k)
    ensures Format(u)[k] == HYPHEN && s[k] == HYPHEN
  {
  }

  lemma {:induction false} FormatIsHex(u: Uuid)
    requires |u.bytes| == 16
    ensures WellSpaced(Format(u))
  {
    hide HexDigit, HyphensBefore, IsHex;
  }

  /** A text is accepted if and only if it is in the canonical form. */
  lemma {:induction false} AcceptedExactly(s: Bytes)
    ensures Parse(s).Some? <==> Canonical(s)
  {
    hide DigitsOf, HexDigit, ByteAt, CharAt, IsHex, Format;
    assert DigitsOf(6) == 14 && DigitsOf(8) == 19 by { TestedDigits(); }
    if Parse(s).Some? {
      var u := Parse(s).value;
      FormatIsHex(u);
      DigitsAt(u, 6);
      DigitsAt(u, 8);
      assert HexVal(s[14]) == Some(7 as byte) && HexVal(s[19]) == Some(u.bytes[8] / 16);
    }
    if Canonical(s) {
      BytesOfPrints(s);
      var u := BytesOf(s);
      DigitsAt(u, 6);
      DigitsAt(u, 8);
      assert HexVal(s[14]) == Some(u.bytes[6] / 16) && HexVal(s[19]) == Some(u.bytes[8] / 16);
    }
  }

  lemma TestedDigits()
    ensures DigitsOf(6) == 14 && DigitsOf(8) == 19
  {
  }

  // ---------- The printer and the parser ----------

  /** How much of the text stands before the digits of byte `i` and a hyphen in front of them. */
  function TextBefore(i: nat): (k: nat)
    requires i <= 16
    ensures i < 16 ==> k == if i in {4, 6, 8, 10} then DigitsOf(i) - 1 else DigitsOf(i)
    ensures 0 < i ==> k == DigitsOf(i - 1) + 2
    ensures (i == 0 ==> k == 0) && (i == 16 ==> k == UUID_STRING_LEN)
    ensures k <= UUID_STRING_LEN && (HyphenAt(k) <==> i in {4, 6, 8, 10})
  {
    if i == 16 then UUID_STRING_LEN else if i in {4, 6, 8, 10} then DigitsOf(i) - 1 else DigitsOf(i)
  }

  lemma HyphenIn(u: Uuid, k: nat)
    requires |u.bytes| == 16 && k < UUID_STRING_LEN && HyphenAt(k)
    ensures Format(u)[k] == HYPHEN
  {
  }

  lemma PrefixGrows(f: Bytes, k: nat, c: byte)
    requires k < |f| && f[k] == c
    ensures f[..k + 1] == f[..k] + [c]
  {
  }

  method AppendUuidHex(dst: Bytes, u: Uuid) returns (out: Bytes)
    requires |u.bytes| == 16
    ensures out == dst + Format(u)
  {
    hide TextBefore, DigitsOf, HexDigit, HyphensBefore, Format;
    ghost var f := Format(u);
    out := dst;
    for i := 0 to 16
      invariant out == dst + f[..TextBefore(i)]
    {
      if i == 4 || i == 6 || i == 8 || i == 10 {
        out := out + [HYPHEN];
        HyphenIn(u, TextBefore(i));
        PrefixGrows(f, TextBefore(i), HYPHEN);
      }
      DigitsAt(u, i);
      PrefixGrows(f, DigitsOf(i), f[DigitsOf(i)]);
      PrefixGrows(f, DigitsOf(i) + 1, f[DigitsOf(i) + 1]);
      out := out + [HexDigit(u.bytes[i] / 16), HexDigit(u.bytes[i] % 16)];
      assert TextBefore(i + 1) == DigitsOf(i) + 2;
    }
    assert f[..UUID_STRING_LEN] == f;
  }

  method ParseUuidV7(s: Bytes) returns (r: Option<Uuid>)
    ensures r == Parse(s)
  {
    hide HexDigit, HexVal, IsHex, Format, Parse, CharAt, TextBefore, HyphensBefore, DigitsOf, WellSpaced, BytesOf;
    AcceptedExactly(s);
    WellSpacedDigits(s);
    if |s| != 36 {
      return None;
    }
    if s[8] != HYPHEN || s[13] != HYPHEN || s[18] != HYPHEN || s[23] != HYPHEN {
      return None;
    }
    var b: Bytes := [];
    var src := 0;
    for i := 0 to 16
      invariant |b| == i
      invariant src == TextBefore(i)
      invariant forall j :: 0 <= j < i ==> b[j] == ByteAt(s, j)
      invariant forall j :: 0 <= j < i ==> IsHex(s[DigitsOf(j)]) && IsHex(s[DigitsOf(j) + 1])
    {
      if src == 8 || src == 13 || src == 18 || src == 23 {
        src := src + 1;
      }
      var hi, lo := HexVal(s[src]), HexVal(s[src + 1]);
      if hi.None? || lo.None? {
        return None;
      }
      b := b + [hi.value * 16 + lo.value];
      src := src + 2;
    }
    BytesOfPrints(s);
    SpelledOut(s, b);
    if b[6] / 16 != 7 || b[8] / 64 != 2 {
      OnlyReading(s);
      return None;
    }
    ParseOfFormat(Uuid(b));
    r := Some(Uuid(b));
  }

  lemma SpelledOut(s: Bytes, b: Bytes)
    requires |s| == UUID_STRING_LEN && |b| == 16 && forall j :: 0 <= j < 16 ==> b[j] == ByteAt(s, j)
    ensures b == BytesOf(s).bytes
  {
    hide ByteAt;
  }

  /** A text is well spaced exactly when the hyphens and all the digits are in place. */
  lemma WellSpacedDigits(s: Bytes)
    ensures WellSpaced(s) <==>
      && |s| == UUID_STRING_LEN
      && s[8] == HYPHEN && s[13] == HYPHEN && s[18] == HYPHEN && s[23] == HYPHEN
      && forall i :: 0 <= i < 16 ==> IsHex(s[DigitsOf(i)]) && IsHex(s[DigitsOf(i) + 1])
  {
    hide IsHex;
    if |s| == UUID_STRING_LEN && forall i :: 0 <= i < 16 ==> IsHex(s[DigitsOf(i)]) && IsHex(s[DigitsOf(i) + 1]) {
      forall k | 0 <= k < |s| && !HyphenAt(k) ensures IsHex(s[k]) {
        DigitOwner(k);
      }
    }
  }

  /** If a well-spaced text stands for a v7 value at all, it is the one its digits spell. */
  lemma OnlyReading(s: Bytes)
    requires |s| == UUID_STRING_LEN && WellSpaced(s)
    ensures Parse(s).Some? ==> IsV7(BytesOf(s))
  {
    BytesOfPrints(s);
    if Parse(s).Some? {
      FormatIsInjective(Parse(s).value, BytesOf(s));
    }
  }

  // ---------- Minting ----------

  /** The big-endian value of some bytes. */
  function BigEndian(b: Bytes): nat {
    if b == [] then 0 else BigEndian(b[..|b| - 1]) * 256 + b[|b| - 1] as nat
  }

  function Low(x: nat): byte {
    (x % 256) as byte
  }

  function Millis(u: Uuid): nat
    requires |u.bytes| == 16
  {
    BigEndian(u.bytes[..6])
  }

  /** The random fields: 12 bits beside the version, 62 bits after the variant. */
  function RandA(u: Uuid): nat
    requires |u.bytes| == 16
  {
    BigEndian([u.bytes[6] % 16, u.bytes[7]])
  }

  function RandB(u: Uuid): nat
    requires |u.bytes| == 16
  {
    BigEndian([u.bytes[8] % 64] + u.bytes[9..])
  }

  lemma {:induction false} BigEndianPush(b: Bytes, x: byte)
    ensures BigEndian(b + [x]) == BigEndian(b) * 256 + x as nat
  {
    assert (b + [x])[..|b|] == b;
  }

  function Power256(n: nat): nat {
    if n == 0 then 1 else 256 * Power256(n - 1)
  }

  function Shift(x: nat, n: nat): nat {
    if n == 0 then x else Shift(x / 256, n - 1)
  }

  /** The low `n` bytes of a number, most significant first. */
  function LowBytes(x: nat, n: nat): (b: Bytes)
    ensures |b| == n
  {
    if n == 0 then [] else LowBytes(x / 256, n - 1) + [Low(x)]
  }

  lemma {:induction false} LowBytesValue(x: nat, n: nat)
    ensures x == Shift(x, n) * Power256(n) + BigEndian(LowBytes(x, n))
    ensures BigEndian(LowBytes(x, n)) < Power256(n)
  {
    if n > 0 {
      LowBytesValue(x / 256, n - 1);
      BigEndianPush(LowBytes(x / 256, n - 1), Low(x));
      Scale(Shift(x, n), Power256(n - 1));
    }
  }

  lemma Scale(s: nat, p: nat)
    ensures s * (256 * p) == 256 * (s * p)
  {
  }

  lemma {:induction false} LowBytesAt(x: nat, n: nat, j: nat)
    requires j < n
    ensures LowBytes(x, n)[j] == Low(Shift(x, n - 1 - j))
  {
    if j < n - 1 {
      LowBytesAt(x / 256, n - 1, j);
    }
  }

  lemma ShiftIsDivision(x: nat)
    ensures Shift(x, 1) == x / 0x100 && Shift(x, 2) == x / 0x1_0000 && Shift(x, 3) == x / 0x100_0000
    ensures Shift(x, 4) == x / 0x1_0000_0000 && Shift(x, 5) == x / 0x100_0000_0000
      && Shift(x, 6) == x / 0x1_0000_0000_0000
  {
  }

  lemma Powers()
    ensures Power256(1) == 0x100 && Power256(6) == 0x1_0000_0000_0000 && Power256(7) == 0x100_0000_0000_0000
  {
  }

  lemma {:induction false} BigEndianPrepend(a: byte, b: Bytes)
    ensures BigEndian([a] + b) == a as nat * Power256(|b|) + BigEndian(b)
  {
    if b == [] {
      BigEndianPush([], a);
      assert [] + [a] == [a] + b;
    } else {
      var c := b[..|b| - 1];
      BigEndianPrepend(a, c);
      BigEndianPush([a] + c, b[|b| - 1]);
      assert [a] + b == ([a] + c) + [b[|b| - 1]];
      Scale(a as nat, Power256(|c|));
    }
  }

  /** Six shifted bytes are the low 48 bits. */
  lemma MillisOf(ms: nat, b: Bytes)
    requires b == [Low(ms / 0x100_0000_0000), Low(ms / 0x1_0000_0000), Low(ms / 0x100_0000), Low(ms / 0x1_0000),
      Low(ms / 0x100), Low(ms)]
    ensures BigEndian(b) == ms % 0x1_0000_0000_0000
  {
    hide Low, LowBytes, BigEndian, Shift, Power256;
    LowBytesValue(ms, 6);
    Powers();
    ShiftIsDivision(ms);
    forall j | 0 <= j < 6 ensures LowBytes(ms, 6)[j] == b[j] {
      LowBytesAt(ms, 6, j);
      assert Shift(ms, 0) == ms by { NoShift(ms); }
    }
    assert b == LowBytes(ms, 6);
  }

  lemma NoShift(x: nat)
    ensures Shift(x, 0) == x
  {
  }

  lemma SevenBytes(r: nat, b: Bytes)
    requires b == [Low(r / 0x1_0000_0000_0000), Low(r / 0x100_0000_0000), Low(r / 0x1_0000_0000),
      Low(r / 0x100_0000), Low(r / 0x1_0000), Low(r / 0x100), Low(r)]
    ensures b == LowBytes(r, 7)
  {
    hide Low, LowBytes, Shift;
    ShiftIsDivision(r);
    forall j | 0 <= j < 7 ensures LowBytes(r, 7)[j] == b[j] {
      LowBytesAt(r, 7, j);
      assert Shift(r, 0) == r by { NoShift(r); }
    }
  }

  lemma RandBOf(r: nat, top: byte, b: Bytes)
    requires top == Low(r / 0x100_0000_0000_0000) % 64 && b == LowBytes(r, 7)
    ensures BigEndian([top] + b) == r % 0x4000_0000_0000_0000
  {
    hide LowBytes, BigEndian, Shift, Power256;
    LowBytesValue(r, 7);
    Powers();
    assert Shift(r, 7) == r / 0x100_0000_0000_0000 by { ShiftSeven(r); }
    BigEndianPrepend(top, b);
    TopBits(r, BigEndian(b));
  }

  lemma ShiftSeven(r: nat)
    ensures Shift(r, 7) == r / 0x100_0000_0000_0000
  {
    ShiftIsDivision(r / 256);
  }

  lemma TopBits(r: nat, rest: nat)
    requires rest < 0x100_0000_0000_0000 && r == r / 0x100_0000_0000_0000 * 0x100_0000_0000_0000 + rest
    ensures r / 0x100_0000_0000_0000 % 256 % 64 * 0x100_0000_0000_0000 + rest == r % 0x4000_0000_0000_0000
  {
  }

  lemma TwelveBits(r: nat, q: nat, h: nat, l: nat)
    requires r == 0x1000 * q + 0x100 * h + l && h < 16 && l < 256
    ensures r % 256 == l && r % 0x1000 == 0x100 * h + l && r / 0x100 == 16 * q + h && r / 0x100 % 256 % 16 == h
  {
    assert r / 0x100 == 16 * q + h;
    assert (16 * q + h) % 256 == 16 * (q % 16) + h;
  }

  lemma RandAOf(r: nat)
    ensures BigEndian([Low(r / 0x100) % 16, Low(r)]) == r % 0x1000
  {
    hide BigEndian, Power256;
    var top := Low(r / 0x100) % 16;
    BigEndianPush([top], Low(r));
    BigEndianPush([], top);
    assert BigEndian([]) == 0 by { BigEndianEmpty(); }
    assert [] + [top] == [top];
    assert [top] + [Low(r)] == [top, Low(r)];
    TwelveBits(r, r / 0x1000, r % 0x1000 / 0x100, r % 0x1000 % 0x100);
  }

  lemma BigEndianEmpty()
    ensures BigEndian([]) == 0
  {
  }

  /** A mint is a valid v7 value that carries the low 48 bits of the clock and all its random bits. */
  method NewUuidV7(ms: nat, randA: nat, randB: nat) returns (u: Uuid)
    ensures IsV7(u)
    ensures Millis(u) == ms % 0x1_0000_0000_0000
    ensures RandA(u) == randA % 0x1000
    ensures RandB(u) == randB % 0x4000_0000_0000_0000
  {
    hide BigEndian;
    u := Uuid([
      Low(ms / 0x100_0000_0000), Low(ms / 0x1_0000_0000), Low(ms / 0x100_0000), Low(ms / 0x1_0000),
      Low(ms / 0x100), Low(ms),
      0x70 + Low(randA / 0x100) % 16, Low(randA),
      0x80 + Low(randB / 0x100_0000_0000_0000) % 64,
      Low(randB / 0x1_0000_0000_0000), Low(randB / 0x100_0000_0000), Low(randB / 0x1_0000_0000),
      Low(randB / 0x100_0000),
      Low(randB / 0x1_0000), Low(randB / 0x100), Low(randB)]);
    MillisOf(ms, u.bytes[..6]);
    RandAOf(randA);
    SevenBytes(randB, u.bytes[9..]);
    RandBOf(randB, u.bytes[8] % 64, u.bytes[9..]);
  }
}
