/**
  The byte helpers of the login protocol (src/session.ts): `hex_to_array`, which
  fills a Uint8Array from pairs of characters with JavaScript's `parseInt(pair, 16)`,
  `array_to_hex`, which writes every byte as two lower-case hex digits, and the
  `HEX_REX` pattern of src/util.ts that the handlers use to check hex fields.
*/
module Hex {
  import opened Wrappers

  /** An element of a Uint8Array. */
  type byte = x: int | 0 <= x < 256

  /** One character of the class `[0-9a-f]`. */
  predicate IsHexDigit(c: char) {
    '0' <= c <= '9' || 'a' <= c <= 'f'
  }

  /** Every character is a lower-case hex digit (the empty string included). */
  predicate IsLowerHex(s: string) {
    forall i :: 0 <= i < |s| ==> IsHexDigit(s[i])
  }

  /** `HEX_REX.test(s)` for `HEX_REX = /^[0-9a-f]+$/`: one or more lower-case hex digits. */
  predicate HexRex(s: string) {
    |s| > 0 && IsLowerHex(s)
  }

  /** The handlers' field check: `s.length === n && HEX_REX.test(s)`. */
  predicate IsHexField(s: string, n: nat) {
    |s| == n && HexRex(s)
  }

  lemma HexRexRejectsEmptyAndUpperCase(s: string)
    ensures HexRex(s) ==> s != []
    ensures HexRex(s) ==> forall i :: 0 <= i < |s| ==> !('A' <= s[i] <= 'Z')
  {
  }

  /** The lower-case digit for a value below 16, as `Number.prototype.toString(16)` writes it. */
  function DigitChar(d: nat): (c: char)
    requires d < 16
    ensures IsHexDigit(c)
  {
    if d < 10 then (('0' as int) + d) as char else (('a' as int) + d - 10) as char
  }

  /** A digit that `parseInt(_, 16)` accepts: either case. */
  predicate IsRadix16Digit(c: char) {
    '0' <= c <= '9' || 'a' <= c <= 'f' || 'A' <= c <= 'F'
  }

  function Radix16Value(c: char): (v: nat)
    requires IsRadix16Digit(c)
    ensures v < 16
  {
    if '0' <= c <= '9' then c as int - '0' as int
    else if 'a' <= c <= 'f' then c as int - 'a' as int + 10
    else c as int - 'A' as int + 10
  }

  lemma DigitRoundTrip(d: nat)
    requires d < 16
    ensures IsRadix16Digit(DigitChar(d)) && Radix16Value(DigitChar(d)) == d
  {
  }

  lemma LowerDigitRoundTrip(c: char)
    requires IsHexDigit(c)
    ensures IsRadix16Digit(c) && DigitChar(Radix16Value(c)) == c
  {
  }

  /** ECMAScript's StrWhiteSpaceChar: the white space and line terminators `parseInt` skips. */
  predicate IsStrWhiteSpace(c: char) {
    c == '\t' || c == '\n' || c == '\U{000B}' || c == '\U{000C}' || c == '\r' || c == ' '
    || c == '\U{00A0}' || c == '\U{1680}' || ('\U{2000}' <= c <= '\U{200A}')
    || c == '\U{2028}' || c == '\U{2029}' || c == '\U{202F}' || c == '\U{205F}'
    || c == '\U{3000}' || c == '\U{FEFF}'
  }

  /**
    `parseInt(c1 + c2, 16)` on a string of two characters; None is NaN.
    Leading white space is skipped, one sign is taken, a "0x"/"0X" prefix is
    removed, and the longest run of radix-16 digits that follows is the value.
  */
  function ParseInt16Pair(c1: char, c2: char): (r: Option<int>)
    ensures r.Some? ==> -15 <= r.value <= 255
  {
    if IsStrWhiteSpace(c1) then
      (if IsRadix16Digit(c2) then Some(Radix16Value(c2)) else None)
    else if c1 == '-' || c1 == '+' then
      (if !IsRadix16Digit(c2) then None
       else if c1 == '-' then Some(0 - Radix16Value(c2) as int) else Some(Radix16Value(c2)))
    else if c1 == '0' && (c2 == 'x' || c2 == 'X') then
      None
    else if IsRadix16Digit(c1) then
      (if IsRadix16Digit(c2) then Some(16 * Radix16Value(c1) + Radix16Value(c2))
       else Some(Radix16Value(c1)))
    else
      None
  }

  /** Storing a number into a Uint8Array: NaN becomes 0, anything else is taken modulo 256. */
  function ToUint8(n: Option<int>): byte {
    match n
    case None => 0
    case Some(v) => v % 256
  }

  /** A parsed pair is stored as is, a negative one wrapped by 256, and NaN as 0. */
  lemma ToUint8Stores(v: int)
    ensures 0 <= v < 256 ==> ToUint8(Some(v)) == v
    ensures -256 < v < 0 ==> ToUint8(Some(v)) == v + 256
    ensures ToUint8(None) == 0
  {
  }

  /** The contents of `hex_to_array(hex)`: `hex.length / 2` bytes (the length truncates), byte i from characters 2i and 2i+1. */
  function HexToBytes(hex: string): (r: seq<byte>)
    ensures |r| == |hex| / 2
  {
    seq(|hex| / 2, i requires 0 <= i < |hex| / 2 => ToUint8(ParseInt16Pair(hex[2 * i], hex[2 * i + 1])))
  }

  lemma HexToBytesAt(hex: string, i: nat)
    requires i < |hex| / 2
    ensures HexToBytes(hex)[i] == ToUint8(ParseInt16Pair(hex[2 * i], hex[2 * i + 1]))
  {
  }

  /** `hex_to_array`: allocates the array and fills it pair by pair. */
  method HexToArray(hex: string) returns (a: array<byte>)
    ensures fresh(a)
    ensures a[..] == HexToBytes(hex)
  {
    a := new byte[|hex| / 2];
    for i := 0 to a.Length
      invariant forall k :: 0 <= k < i ==> a[k] == HexToBytes(hex)[k]
    {
      a[i] := ToUint8(ParseInt16Pair(hex[2 * i], hex[2 * i + 1]));
    }
  }

  /** `b.toString(16).padStart(2, '0')`. */
  function ByteToHex(b: byte): string {
    [DigitChar(b / 16), DigitChar(b % 16)]
  }

  /** `array_to_hex`: two lower-case digits per byte, most significant first. */
  function BytesToHex(bytes: seq<byte>): (r: string)
    ensures |r| == 2 * |bytes|
    ensures IsLowerHex(r)
  {
    if |bytes| == 0 then "" else ByteToHex(bytes[0]) + BytesToHex(bytes[1..])
  }

  /** Hex-encoding distributes over concatenation. */
  lemma {:induction false} BytesToHexAppend(a: seq<byte>, b: seq<byte>)
    ensures BytesToHex(a + b) == BytesToHex(a) + BytesToHex(b)
  {
    if |a| == 0 {
      assert a + b == b;
    } else {
      assert (a + b)[1..] == a[1..] + b;
      BytesToHexAppend(a[1..], b);
    }
  }

  lemma {:induction false} BytesToHexAt(bytes: seq<byte>, i: nat)
    requires i < |bytes|
    ensures BytesToHex(bytes)[2 * i] == DigitChar(bytes[i] / 16)
    ensures BytesToHex(bytes)[2 * i + 1] == DigitChar(bytes[i] % 16)
  {
    if i > 0 {
      BytesToHexAt(bytes[1..], i - 1);
      assert BytesToHex(bytes) == ByteToHex(bytes[0]) + BytesToHex(bytes[1..]);
    }
  }

  /** The output of `array_to_hex` is accepted by HEX_REX unless it is empty. */
  lemma BytesToHexMatchesHexRex(bytes: seq<byte>)
    requires |bytes| > 0
    ensures HexRex(BytesToHex(bytes))
  {
  }

  /** The two digits `array_to_hex` writes for a byte parse back to that byte. */
  lemma ByteToHexParses(b: byte)
    ensures ToUint8(ParseInt16Pair(ByteToHex(b)[0], ByteToHex(b)[1])) == b
  {
    var hi, lo := b / 16, b % 16;
    DigitRoundTrip(hi);
    DigitRoundTrip(lo);
    var c1, c2 := DigitChar(hi), DigitChar(lo);
    assert ByteToHex(b) == [c1, c2];
    assert !IsStrWhiteSpace(c1) && c1 != '-' && c1 != '+' && c2 != 'x' && c2 != 'X';
    assert ParseInt16Pair(c1, c2) == Some(16 * hi + lo);
    assert 16 * hi + lo == b;
  }

  /** `hex_to_array(array_to_hex(a))` gives back `a`. */
  lemma {:induction false} HexToBytesOfBytesToHex(bytes: seq<byte>)
    ensures HexToBytes(BytesToHex(bytes)) == bytes
  {
    var h := BytesToHex(bytes);
    forall i | 0 <= i < |bytes|
      ensures HexToBytes(h)[i] == bytes[i]
    {
      var pair := ByteToHex(bytes[i]);
      BytesToHexAt(bytes, i);
      assert h[2 * i] == pair[0] && h[2 * i + 1] == pair[1];
      ByteToHexParses(bytes[i]);
      HexToBytesAt(h, i);
    }
  }

  /** `array_to_hex(hex_to_array(s))` gives back `s` for every even-length lower-case hex string. */
  lemma {:induction false} BytesToHexOfHexToBytes(s: string)
    requires |s| % 2 == 0
    requires IsLowerHex(s)
    ensures BytesToHex(HexToBytes(s)) == s
  {
    var bytes := HexToBytes(s);
    var h := BytesToHex(bytes);
    forall i | 0 <= i < |s| / 2
      ensures h[2 * i] == s[2 * i] && h[2 * i + 1] == s[2 * i + 1]
    {
      BytesToHexAt(bytes, i);
      LowerPairRoundTrip(s[2 * i], s[2 * i + 1]);
    }
    forall j | 0 <= j < |s|
      ensures h[j] == s[j]
    {
      var i := j / 2;
      assert j == 2 * i || j == 2 * i + 1;
    }
  }

  lemma DivMod16(hi: nat, lo: nat)
    requires hi < 16 && lo < 16
    ensures (16 * hi + lo) / 16 == hi && (16 * hi + lo) % 16 == lo
  {
  }

  lemma LowerPairRoundTrip(c1: char, c2: char)
    requires IsHexDigit(c1) && IsHexDigit(c2)
    ensures ByteToHex(ToUint8(ParseInt16Pair(c1, c2))) == [c1, c2]
  {
    LowerDigitRoundTrip(c1);
    LowerDigitRoundTrip(c2);
    var hi, lo := Radix16Value(c1), Radix16Value(c2);
    assert !IsStrWhiteSpace(c1);
    assert ParseInt16Pair(c1, c2) == Some(16 * hi + lo);
    DivMod16(hi, lo);
  }

  /** Bitwise exclusive or of two naturals, one bit at a time from the least significant. */
  function BitXor(a: nat, b: nat): nat
    decreases a + b
  {
    if a == 0 && b == 0 then 0 else 2 * BitXor(a / 2, b / 2) + (a % 2 + b % 2) % 2
  }

  lemma {:induction false} BitXorBound(a: nat, b: nat, k: nat)
    requires a < Pow2(k) && b < Pow2(k)
    ensures BitXor(a, b) < Pow2(k)
    decreases a + b
  {
    if a != 0 || b != 0 {
      assert k > 0;
      BitXorBound(a / 2, b / 2, k - 1);
    }
  }

  function Pow2(k: nat): (r: nat)
    ensures r > 0
  {
    if k == 0 then 1 else 2 * Pow2(k - 1)
  }

  /** `x ^ y` on two bytes, as JavaScript computes it on Uint8Array elements. */
  function Xor(x: byte, y: byte): (r: byte)
  {
    assert Pow2(8) == 256;
    BitXorBound(x, y, 8);
    BitXor(x, y)
  }

  /** The least significant bit of BitXor and the bits above it. */
  lemma BitXorStep(a: nat, b: nat)
    ensures BitXor(a, b) / 2 == BitXor(a / 2, b / 2)
    ensures BitXor(a, b) % 2 == (a % 2 + b % 2) % 2
  {
    if a == 0 && b == 0 {
      assert BitXor(a, b) == 0 == BitXor(a / 2, b / 2);
    } else {
      var h := BitXor(a / 2, b / 2);
      var p := (a % 2 + b % 2) % 2;
      assert BitXor(a, b) == 2 * h + p && 0 <= p < 2;
    }
  }

  /** Exclusive or with the same key twice gives the original bit pattern. */
  lemma {:induction false} BitXorCancels(a: nat, b: nat)
    ensures BitXor(BitXor(a, b), b) == a
    decreases a + b
  {
    if a != 0 || b != 0 {
      var c := BitXor(a, b);
      BitXorStep(a, b);
      BitXorCancels(a / 2, b / 2);
      BitXorStep(c, b);
      var d := BitXor(c, b);
      assert d / 2 == a / 2;
      ParityCancels(a % 2, b % 2);
      assert d % 2 == a % 2;
      SameHalves(d, a);
    }
  }

  lemma ParityCancels(x: nat, y: nat)
    requires x < 2 && y < 2
    ensures ((x + y) % 2 + y) % 2 == x
  {
  }

  lemma SameHalves(x: nat, y: nat)
    requires x / 2 == y / 2 && x % 2 == y % 2
    ensures x == y
  {
  }

  lemma XorCancels(x: byte, y: byte)
    ensures Xor(Xor(x, y), y) == x
  {
    BitXorCancels(x, y);
  }
}
