/** The identifier generator: sixteen random bytes, with the version and
    variant bits forced, printed as an upper-case UUID in the version 4 layout
    of section 4.4 of RFC 4122 (8-4-4-4-12 hexadecimal digits and hyphens).
    The random source itself is an input; `Parse` is the formatter's inverse. */
module Uuid {
  import opened Results

  type Byte = bv8

  /** A value the reader found, or None when the text is not a printed identifier. */
  datatype Option<T> = None | Some(value: T)

  /** What the secure random source delivers for a 16-byte buffer. */
  datatype RandomRead = Filled(bytes: seq<Byte>) | ReadFailed(reason: string)

  // ---------------------------------------------------------------------------
  // Hexadecimal digits

  predicate IsUpperHexDigit(c: char) {
    '0' <= c <= '9' || 'A' <= c <= 'F'
  }

  /** The value of an upper-case hexadecimal digit, or None for any other character. */
  function DigitValue(c: char): (r: Option<Byte>)
    ensures r.Some? <==> IsUpperHexDigit(c)
    ensures r.Some? ==> r.value < 16
  {
    if '0' <= c <= '9' then Some((c as int - '0' as int) as Byte)
    else if 'A' <= c <= 'F' then Some((c as int - 'A' as int + 10) as Byte)
    else None
  }

  /** The upper-case digit of a nibble, as `%X` prints it. */
  function HexDigit(n: Byte): (c: char)
    requires n < 16
    ensures IsUpperHexDigit(c)
    ensures DigitValue(c) == Some(n)
  {
    if n < 10 then ('0' as int + n as int) as char
    else ('A' as int + n as int - 10) as char
  }

  /** A digit is printed back from its own value. */
  lemma DigitValueInverse(c: char)
    requires DigitValue(c).Some?
    ensures HexDigit(DigitValue(c).value) == c
  {
  }

  // ---------------------------------------------------------------------------
  // `%X` on a byte slice: two upper-case digits per byte, high nibble first

  function Hex(bytes: seq<Byte>): (s: string)
    ensures |s| == 2 * |bytes|
    ensures forall i :: 0 <= i < |s| ==> IsUpperHexDigit(s[i])
  {
    if bytes == [] then []
    else [HexDigit(bytes[0] >> 4), HexDigit(bytes[0] & 0x0F)] + Hex(bytes[1..])
  }

  /** The two digits printed for byte `k` sit at offsets `2k` and `2k + 1`. */
  lemma {:induction false} HexAt(bytes: seq<Byte>, k: nat)
    requires k < |bytes|
    ensures Hex(bytes)[2 * k] == HexDigit(bytes[k] >> 4)
    ensures Hex(bytes)[2 * k + 1] == HexDigit(bytes[k] & 0x0F)
  {
    if k > 0 {
      HexAt(bytes[1..], k - 1);
    }
  }

  /** Printing a concatenation prints the parts one after the other. */
  lemma {:induction false} HexAppend(a: seq<Byte>, b: seq<Byte>)
    ensures Hex(a + b) == Hex(a) + Hex(b)
  {
    if a == [] {
      assert a + b == b;
    } else {
      assert (a + b)[1..] == a[1..] + b;
      HexAppend(a[1..], b);
    }
  }

  /** Reads back what `Hex` prints: pairs of upper-case digits, high nibble first. */
  function Unhex(s: string): (r: Option<seq<Byte>>)
    ensures r.Some? ==> 2 * |r.value| == |s|
    decreases |s|
  {
    if s == [] then Some([])
    else if |s| == 1 then None
    else
      match (DigitValue(s[0]), DigitValue(s[1]), Unhex(s[2..]))
      case (Some(hi), Some(lo), Some(rest)) => Some([(hi << 4) | lo] + rest)
      case _ => None
  }

  lemma NibblesJoin(b: Byte)
    ensures ((b >> 4) << 4) | (b & 0x0F) == b
  {
  }

  lemma NibblesSplit(hi: Byte, lo: Byte)
    requires hi < 16 && lo < 16
    ensures ((hi << 4) | lo) >> 4 == hi
    ensures ((hi << 4) | lo) & 0x0F == lo
  {
  }

  /** `Unhex` inverts `Hex`. */
  lemma {:induction false} UnhexHex(bytes: seq<Byte>)
    ensures Unhex(Hex(bytes)) == Some(bytes)
  {
    if bytes != [] {
      var s := Hex(bytes);
      assert s[2..] == Hex(bytes[1..]);
      UnhexHex(bytes[1..]);
      NibblesJoin(bytes[0]);
      assert [bytes[0]] + bytes[1..] == bytes;
    }
  }

  /** `Hex` inverts `Unhex` wherever `Unhex` succeeds. */
  lemma {:induction false} HexUnhex(s: string)
    requires Unhex(s).Some?
    ensures Hex(Unhex(s).value) == s
    decreases |s|
  {
    if s != [] {
      var hi, lo := DigitValue(s[0]).value, DigitValue(s[1]).value;
      var rest := Unhex(s[2..]).value;
      var b := (hi << 4) | lo;
      assert Unhex(s).value == [b] + rest;
      assert ([b] + rest)[1..] == rest;
      HexUnhex(s[2..]);
      NibblesSplit(hi, lo);
      DigitValueInverse(s[0]);
      DigitValueInverse(s[1]);
      assert s == [s[0], s[1]] + s[2..];
    }
  }

  // ---------------------------------------------------------------------------
  // Version and variant bits

  /** The version nibble: the source writes `(b | 0x40) & 0x4F`, which is the
      canonical `(b & 0x0F) | 0x40` of RFC 4122 and keeps the low nibble. */
  function SetVersion(b: Byte): (r: Byte)
    ensures r == (b & 0x0F) | 0x40
    ensures r >> 4 == 4
    ensures r & 0x0F == b & 0x0F
  {
    (b | 0x40) & 0x4F
  }

  /** The variant bits: the source writes `(b | 0x80) & 0xBF`, which is the
      canonical `(b & 0x3F) | 0x80` and keeps the low six bits. */
  function SetVariant(b: Byte): (r: Byte)
    ensures r == (b & 0x3F) | 0x80
    ensures r >> 6 == 2
    ensures r & 0x3F == b & 0x3F
  {
    (b | 0x80) & 0xBF
  }

  /** Sixteen bytes whose version nibble is 4 and whose variant bits are 10. */
  predicate IsVersion4(b: seq<Byte>) {
    |b| == 16 && b[6] >> 4 == 4 && b[8] >> 6 == 2
  }

  /** The buffer after the source overwrites bytes 6 and 8. */
  function Mask(random: seq<Byte>): (b: seq<Byte>)
    requires |random| == 16
    ensures IsVersion4(b)
    ensures forall i :: 0 <= i < 16 && i != 6 && i != 8 ==> b[i] == random[i]
    ensures b[6] & 0x0F == random[6] & 0x0F && b[8] & 0x3F == random[8] & 0x3F
    ensures IsVersion4(random) ==> b == random
  {
    random[6 := SetVersion(random[6])][8 := SetVariant(random[8])]
  }

  // ---------------------------------------------------------------------------
  // The printed form

  predicate IsHyphenOffset(i: int) {
    i == 8 || i == 13 || i == 18 || i == 23
  }

  /** 36 characters: hyphens at offsets 8, 13, 18 and 23 and an upper-case
      hexadecimal digit everywhere else, so groups of 8-4-4-4-12 digits. */
  predicate IsUuidShape(u: string) {
    |u| == 36 &&
    forall i :: 0 <= i < 36 ==> if IsHyphenOffset(i) then u[i] == '-' else IsUpperHexDigit(u[i])
  }

  /** `%X-%X-%X-%X-%X` over the byte groups 0..4, 4..6, 6..8, 8..10 and 10..16. */
  function Format(b: seq<Byte>): (u: string)
    requires |b| == 16
    ensures IsUuidShape(u)
  {
    Hex(b[0..4]) + "-" + Hex(b[4..6]) + "-" + Hex(b[6..8]) + "-" + Hex(b[8..10]) + "-" + Hex(b[10..])
  }

  /** The 32 digits of a UUID-shaped string, hyphens removed. */
  function Digits(u: string): (d: string)
    requires |u| == 36
    ensures |d| == 32
  {
    u[0..8] + u[9..13] + u[14..18] + u[19..23] + u[24..]
  }

  /** Reads a printed identifier back into its sixteen bytes. */
  function Parse(u: string): (r: Option<seq<Byte>>)
    ensures r.Some? ==> |r.value| == 16
  {
    if |u| != 36 || u[8] != '-' || u[13] != '-' || u[18] != '-' || u[23] != '-' then None
    else Unhex(Digits(u))
  }

  /** Five groups joined by hyphens: where each group lands, and the digits left
      once the hyphens are dropped. */
  lemma JoinGroups(h0: string, h1: string, h2: string, h3: string, h4: string)
    requires |h0| == 8 && |h1| == 4 && |h2| == 4 && |h3| == 4 && |h4| == 12
    ensures var u := h0 + "-" + h1 + "-" + h2 + "-" + h3 + "-" + h4;
      |u| == 36 && u[0..8] == h0 && u[9..13] == h1 && u[14..18] == h2 &&
      u[19..23] == h3 && u[24..] == h4 && Digits(u) == h0 + h1 + h2 + h3 + h4
  {
  }

  /** The hexadecimal print of the whole buffer is the prints of its five groups. */
  lemma HexGroups(b: seq<Byte>)
    requires |b| == 16
    ensures Hex(b) == Hex(b[0..4]) + Hex(b[4..6]) + Hex(b[6..8]) + Hex(b[8..10]) + Hex(b[10..])
  {
    HexAppend(b[0..4], b[4..6]);
    assert b[0..4] + b[4..6] == b[0..6];
    HexAppend(b[0..6], b[6..8]);
    assert b[0..6] + b[6..8] == b[0..8];
    HexAppend(b[0..8], b[8..10]);
    assert b[0..8] + b[8..10] == b[0..10];
    HexAppend(b[0..10], b[10..]);
    assert b[0..10] + b[10..] == b;
  }

  /** The digits of a printed buffer are the buffer printed without separators. */
  lemma FormatDigits(b: seq<Byte>)
    requires |b| == 16
    ensures Digits(Format(b)) == Hex(b)
  {
    JoinGroups(Hex(b[0..4]), Hex(b[4..6]), Hex(b[6..8]), Hex(b[8..10]), Hex(b[10..]));
    HexGroups(b);
  }

  /** Parsing a printed buffer gives the buffer back. */
  lemma ParseFormat(b: seq<Byte>)
    requires |b| == 16
    ensures Parse(Format(b)) == Some(b)
  {
    FormatDigits(b);
    UnhexHex(b);
  }

  /** Whatever parses is exactly the print of what it parses to. */
  lemma FormatParse(u: string)
    requires Parse(u).Some?
    ensures Format(Parse(u).value) == u
  {
    var b := Parse(u).value;
    HexUnhex(Digits(u));
    FormatDigits(b);
    var f := Format(b);
    assert Digits(f) == Digits(u);
    assert f[0..8] == Digits(f)[0..8] == Digits(u)[0..8] == u[0..8];
    assert f[9..13] == Digits(f)[8..12] == Digits(u)[8..12] == u[9..13];
    assert f[14..18] == Digits(f)[12..16] == Digits(u)[12..16] == u[14..18];
    assert f[19..23] == Digits(f)[16..20] == Digits(u)[16..20] == u[19..23];
    assert f[24..] == Digits(f)[20..] == Digits(u)[20..] == u[24..];
    forall i | 0 <= i < 36 ensures f[i] == u[i] {
      if i < 8 {
        assert f[i] == f[0..8][i];
        assert u[i] == u[0..8][i];
      } else if 8 < i < 13 {
        assert f[i] == f[9..13][i - 9];
        assert u[i] == u[9..13][i - 9];
      } else if 13 < i < 18 {
        assert f[i] == f[14..18][i - 14];
        assert u[i] == u[14..18][i - 14];
      } else if 18 < i < 23 {
        assert f[i] == f[19..23][i - 19];
        assert u[i] == u[19..23][i - 19];
      } else if 23 < i {
        assert f[i] == f[24..][i - 24];
        assert u[i] == u[24..][i - 24];
      }
    }
  }

  /** The printed identifiers of version 4: UUID-shaped strings whose version
      digit is 4 and whose variant bits are 10. */
  predicate IsVersion4Id(u: string) {
    Parse(u).Some? && IsVersion4(Parse(u).value)
  }

  // ---------------------------------------------------------------------------
  // The generator

  /** The identifier printed for sixteen random bytes: the 13th digit
      (offset 14) is `4` and the 17th digit (offset 19) is one of 8, 9, A, B. */
  function NewId(random: seq<Byte>): (u: string)
    requires |random| == 16
    ensures IsUuidShape(u)
    ensures u[14] == '4'
    ensures u[19] in {'8', '9', 'A', 'B'}
    ensures Parse(u) == Some(Mask(random))
    ensures IsVersion4Id(u)
  {
    var b := Mask(random);
    VersionDigits(b);
    ParseFormat(b);
    Format(b)
  }

  /** In the print of a version 4 buffer the version digit is `4` and the
      variant digit is one of 8, 9, A, B. */
  lemma VersionDigits(b: seq<Byte>)
    requires IsVersion4(b)
    ensures Format(b)[14] == '4'
    ensures Format(b)[19] in {'8', '9', 'A', 'B'}
  {
    JoinGroups(Hex(b[0..4]), Hex(b[4..6]), Hex(b[6..8]), Hex(b[8..10]), Hex(b[10..]));
    var u := Format(b);
    HexAt(b[6..8], 0);
    HexAt(b[8..10], 0);
    assert u[14] == u[14..18][0] == Hex(b[6..8])[0];
    assert u[19] == u[19..23][0] == Hex(b[8..10])[0];
    var v := b[8] >> 4;
    assert 8 <= v < 12;
    assert HexDigit(v) in {'8', '9', 'A', 'B'};
  }

  /** Every version 4 identifier is printed for some random input: its own bytes. */
  lemma Version4IdsAreGenerated(u: string)
    requires IsVersion4Id(u)
    ensures NewId(Parse(u).value) == u
  {
    FormatParse(u);
  }

  /** Distinct identifiers printed for masked buffers come from distinct buffers,
      and the same buffer always prints the same identifier. */
  lemma NewIdDeterminedByMask(r1: seq<Byte>, r2: seq<Byte>)
    requires |r1| == 16 && |r2| == 16
    ensures NewId(r1) == NewId(r2) <==> Mask(r1) == Mask(r2)
  {
    ParseFormat(Mask(r1));
    ParseFormat(Mask(r2));
  }

  /** The source's `uuid`: fails with the random source's error, otherwise
      returns the identifier for the bytes read. */
  function Generate(read: RandomRead): (r: Result<string>)
    requires read.Filled? ==> |read.bytes| == 16
    ensures r.Ok? <==> read.Filled?
    ensures read.ReadFailed? ==> r.error == RandomSourceFailed(read.reason)
    ensures r.Ok? ==> IsVersion4Id(r.value) && r.value == NewId(read.bytes)
  {
    match read
    case Filled(bytes) => Ok(NewId(bytes))
    case ReadFailed(reason) => Err(RandomSourceFailed(reason))
  }
}
