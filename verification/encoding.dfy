/** Fixed-width integer types and the two textual renderings the source uses:
    `%02X` (two upper-case hex digits) and `%d` (decimal). */
module Encoding {
  import opened Wrappers

  /** Go `byte`. */
  type uint8 = x: int | 0 <= x < 0x100
  /** Go `uint16`. */
  type uint16 = x: int | 0 <= x < 0x1_0000
  /** Go `uint64`. */
  type uint64 = x: int | 0 <= x < 0x1_0000_0000_0000_0000

  const HEX_DIGITS: string := "0123456789ABCDEF"

  predicate IsHexDigit(c: char) {
    ('0' <= c <= '9') || ('A' <= c <= 'F')
  }

  predicate IsDecimalDigit(c: char) {
    '0' <= c <= '9'
  }

  /** The upper-case hex digit for a nibble. */
  function HexDigit(n: nat): (c: char)
    requires n < 16
    ensures IsHexDigit(c)
  {
    HEX_DIGITS[n]
  }

  /** Inverse of `HexDigit`, defined independently on the character codes. */
  function HexDigitValue(c: char): Option<nat> {
    if '0' <= c <= '9' then Some(c as int - '0' as int)
    else if 'A' <= c <= 'F' then Some(c as int - 'A' as int + 10)
    else None
  }

  lemma HexDigitRoundTrip(n: nat)
    requires n < 16
    ensures HexDigitValue(HexDigit(n)) == Some(n)
  {
  }

  /** `fmt.Sprintf("%02X", b)`: always two characters, high nibble first. */
  function Hex2(b: uint8): (s: string)
    ensures |s| == 2
    ensures IsHexDigit(s[0]) && IsHexDigit(s[1])
  {
    [HexDigit(b / 16), HexDigit(b % 16)]
  }

  /** Reads back two hex digits; fails on anything else. */
  function ParseHex2(s: string): Option<uint8> {
    if |s| != 2 then None
    else match (HexDigitValue(s[0]), HexDigitValue(s[1]))
      case (Some(hi), Some(lo)) => Some(hi * 16 + lo)
      case _ => None
  }

  /** Parsing the two-digit rendering gives back the byte, so `Hex2` is injective. */
  lemma Hex2RoundTrip(b: uint8)
    ensures ParseHex2(Hex2(b)) == Some(b)
  {
    HexDigitRoundTrip(b / 16);
    HexDigitRoundTrip(b % 16);
  }

  lemma Hex2Injective(a: uint8, b: uint8)
    ensures Hex2(a) == Hex2(b) ==> a == b
  {
    Hex2RoundTrip(a);
    Hex2RoundTrip(b);
  }

  function DecimalDigit(d: nat): (c: char)
    requires d < 10
    ensures IsDecimalDigit(c)
  {
    HEX_DIGITS[d]
  }

  /** `fmt.Sprintf("%d", n)` for a non-negative number: the shortest decimal
      rendering, with no leading zero unless the number is zero. */
  function Decimal(n: nat): (s: string)
    ensures 1 <= |s|
    ensures forall i :: 0 <= i < |s| ==> IsDecimalDigit(s[i])
    ensures |s| > 1 ==> s[0] != '0'
    ensures n < 10 <==> |s| == 1
  {
    if n < 10 then [DecimalDigit(n)]
    else Decimal(n / 10) + [DecimalDigit(n % 10)]
  }

  /** The value of a string of decimal digits, most significant first. */
  function DecimalValue(s: string): nat
    requires forall i :: 0 <= i < |s| ==> IsDecimalDigit(s[i])
  {
    if |s| == 0 then 0
    else
      assert IsDecimalDigit(s[|s| - 1]);
      DecimalValue(s[..|s| - 1]) * 10 + (s[|s| - 1] as int - '0' as int)
  }

  /** Reading the decimal rendering back gives the number, so `Decimal` is injective. */
  lemma {:induction false} DecimalRoundTrip(n: nat)
    ensures DecimalValue(Decimal(n)) == n
  {
    var s := Decimal(n);
    if n >= 10 {
      DecimalRoundTrip(n / 10);
      assert s[..|s| - 1] == Decimal(n / 10);
    }
  }

  lemma DecimalInjective(a: nat, b: nat)
    ensures Decimal(a) == Decimal(b) ==> a == b
  {
    DecimalRoundTrip(a);
    DecimalRoundTrip(b);
  }

  /** A buffer of the same length holding only zero bytes: what zeroization
      leaves behind. */
  function Zeroed(s: seq<uint8>): (r: seq<uint8>)
    ensures |r| == |s|
    ensures forall i :: 0 <= i < |r| ==> r[i] == 0
  {
    seq(|s|, _ => 0)
  }

  lemma ZeroedIdempotent(s: seq<uint8>)
    ensures Zeroed(Zeroed(s)) == Zeroed(s)
  {
  }

  /** Zeroization forgets the contents: only the length survives. */
  lemma ZeroedDependsOnlyOnLength(s: seq<uint8>, t: seq<uint8>)
    ensures Zeroed(s) == Zeroed(t) <==> |s| == |t|
  {
    if |s| == |t| {
      assert forall i :: 0 <= i < |s| ==> Zeroed(s)[i] == Zeroed(t)[i];
    }
  }
}

/** Byte buffers with reference semantics, as Go's `[]byte` slices behave:
    a fresh copy and in-place zeroization. */
module Buffers {
  import opened Encoding

  /** `make([]byte, len(src))` followed by `copy`: a new buffer with the same contents. */
  method CopyOf(src: array<uint8>) returns (dst: array<uint8>)
    ensures fresh(dst)
    ensures dst[..] == src[..]
  {
    dst := new uint8[src.Length];
    var i := 0;
    while i < src.Length
      invariant 0 <= i <= src.Length
      invariant dst[..i] == src[..i]
    {
      dst[i] := src[i];
      i := i + 1;
    }
  }

  /** `for i := range buf { buf[i] = 0 }`. */
  method ZeroFill(buf: array<uint8>)
    modifies buf
    ensures buf[..] == Zeroed(old(buf[..]))
  {
    var i := 0;
    while i < buf.Length
      invariant 0 <= i <= buf.Length
      invariant forall j :: 0 <= j < i ==> buf[j] == 0
    {
      buf[i] := 0;
      i := i + 1;
    }
  }
}
