/** The byte-order, hex and amount helpers of the validator package
    (`HexReverse`, `HexStringReverse`, `ParseInt`), together with the pieces of
    Go's standard library they lean on: `hex.DecodeString`, `hex.EncodeToString`,
    `big.Int.SetString` with base 10 or 16, `big.Int.String` and ASCII
    `strings.ToLower`.
 */
module Codec {
  import opened Wrappers

  newtype byte = x: int | 0 <= x < 256

  /* ---------------------------------------------------------------------- */
  /* Byte order                                                             */
  /* ---------------------------------------------------------------------- */

  /** The bytes of `arr` in reverse order. */
  function HexReverse(arr: seq<byte>): (r: seq<byte>)
    ensures |r| == |arr|
    ensures forall i :: 0 <= i < |arr| ==> r[i] == arr[|arr| - 1 - i]
  {
    if |arr| == 0 then [] else HexReverse(arr[1..]) + [arr[0]]
  }

  /** Reversing twice gives the original bytes back. */
  lemma HexReverseInvolution(arr: seq<byte>)
    ensures HexReverse(HexReverse(arr)) == arr
  {
    var r := HexReverse(HexReverse(arr));
    assert |r| == |arr|;
    forall i | 0 <= i < |arr|
      ensures r[i] == arr[i]
    {
      assert r[i] == HexReverse(arr)[|arr| - 1 - i];
    }
  }

  /* ---------------------------------------------------------------------- */
  /* Text                                                                   */
  /* ---------------------------------------------------------------------- */

  /** ASCII lower-casing of one character (`strings.ToLower` on ASCII text). */
  function LowerChar(c: char): char {
    if 'A' <= c <= 'Z' then (c as int + 32) as char else c
  }

  function ToLower(s: string): (r: string)
    ensures |r| == |s|
    ensures forall i :: 0 <= i < |s| ==> r[i] == LowerChar(s[i])
  {
    seq(|s|, i requires 0 <= i < |s| => LowerChar(s[i]))
  }

  /* ---------------------------------------------------------------------- */
  /* Hex digits                                                             */
  /* ---------------------------------------------------------------------- */

  /** A digit `hex.DecodeString` and `SetString(_, 16)` accept, in either case. */
  predicate IsHexDigit(c: char) {
    '0' <= c <= '9' || 'a' <= c <= 'f' || 'A' <= c <= 'F'
  }

  predicate IsLowerHexDigit(c: char) {
    '0' <= c <= '9' || 'a' <= c <= 'f'
  }

  predicate IsHex(s: string) {
    forall i :: 0 <= i < |s| ==> IsHexDigit(s[i])
  }

  predicate IsLowerHex(s: string) {
    forall i :: 0 <= i < |s| ==> IsLowerHexDigit(s[i])
  }

  /** Hex text that `hex.DecodeString` decodes without error. */
  predicate IsEvenHex(s: string) {
    |s| % 2 == 0 && IsHex(s)
  }

  function DigitValue(c: char): (v: nat)
    requires IsHexDigit(c)
    ensures v < 16
  {
    if '0' <= c <= '9' then c as int - '0' as int
    else if 'a' <= c <= 'f' then c as int - 'a' as int + 10
    else c as int - 'A' as int + 10
  }

  /** The lower-case digit `hex.EncodeToString` writes for `v`. */
  function LowerDigit(v: nat): (c: char)
    requires v < 16
    ensures IsLowerHexDigit(c)
    ensures DigitValue(c) == v
  {
    if v < 10 then ('0' as int + v) as char else ('a' as int + v - 10) as char
  }

  /** A digit read and re-written comes back lower-cased. */
  lemma DigitRewrite(c: char)
    requires IsHexDigit(c)
    ensures LowerDigit(DigitValue(c)) == LowerChar(c)
  {
  }

  /* ---------------------------------------------------------------------- */
  /* hex.EncodeToString / hex.DecodeString                                  */
  /* ---------------------------------------------------------------------- */

  function PairText(b: byte): (t: string)
    ensures |t| == 2 && IsLowerHex(t)
    ensures DigitValue(t[0]) * 16 + DigitValue(t[1]) == b as int
  {
    [LowerDigit(b as int / 16), LowerDigit(b as int % 16)]
  }

  function PairValue(hi: char, lo: char): (b: byte)
    requires IsHexDigit(hi) && IsHexDigit(lo)
  {
    (DigitValue(hi) * 16 + DigitValue(lo)) as byte
  }

  /** A digit pair read as a byte and written back comes back lower-cased. */
  lemma PairRewrite(hi: char, lo: char)
    requires IsHexDigit(hi) && IsHexDigit(lo)
    ensures PairText(PairValue(hi, lo)) == [LowerChar(hi), LowerChar(lo)]
  {
    var v := DigitValue(hi) * 16 + DigitValue(lo);
    assert v / 16 == DigitValue(hi) && v % 16 == DigitValue(lo);
    DigitRewrite(hi);
    DigitRewrite(lo);
  }

  /** Two lower-case digits per byte, most significant nibble first. */
  function HexEncode(bs: seq<byte>): (s: string)
    ensures |s| == 2 * |bs|
    ensures IsLowerHex(s)
    ensures forall k :: 0 <= k < |bs| ==> PairValue(s[2 * k], s[2 * k + 1]) == bs[k]
  {
    if |bs| == 0 then "" else PairText(bs[0]) + HexEncode(bs[1..])
  }

  /** `hex.DecodeString` with its error ignored, as every caller here does: the
      bytes of the longest prefix made of complete, valid digit pairs (see
      `HexDecodePairs`). */
  function HexDecode(s: string): (bs: seq<byte>)
    ensures 2 * |bs| <= |s|
    ensures IsEvenHex(s) ==> 2 * |bs| == |s|
  {
    if |s| < 2 || !IsHexDigit(s[0]) || !IsHexDigit(s[1]) then []
    else
      assert IsEvenHex(s) ==> IsEvenHex(s[2..]);
      [PairValue(s[0], s[1])] + HexDecode(s[2..])
  }

  /** Byte `k` of `HexDecode(s)` is the value of digit pair `k` of `s`. */
  lemma {:induction false} HexDecodePairs(s: string)
    ensures forall k :: 0 <= k < |HexDecode(s)| ==>
      IsHexDigit(s[2 * k]) && IsHexDigit(s[2 * k + 1]) && HexDecode(s)[k] == PairValue(s[2 * k], s[2 * k + 1])
  {
    if |s| >= 2 && IsHexDigit(s[0]) && IsHexDigit(s[1]) {
      var bs := HexDecode(s);
      var tail := s[2..];
      var rest := HexDecode(tail);
      HexDecodePairs(tail);
      assert bs == [PairValue(s[0], s[1])] + rest;
      forall k | 0 < k < |bs|
        ensures IsHexDigit(s[2 * k]) && IsHexDigit(s[2 * k + 1]) && bs[k] == PairValue(s[2 * k], s[2 * k + 1])
      {
        var j := k - 1;
        assert bs[k] == rest[j];
        assert 2 * k == 2 * j + 2;
        assert tail[2 * j] == s[2 * k];
        assert tail[2 * j + 1] == s[2 * k + 1];
      }
    }
  }

  /** `HexDecode` stops only at a digit pair holding a non-hex character, or
      at a trailing odd character. */
  lemma {:induction false} HexDecodeStops(s: string)
    ensures var n := |HexDecode(s)|;
      2 * n + 1 < |s| ==> !(IsHexDigit(s[2 * n]) && IsHexDigit(s[2 * n + 1]))
  {
    if |s| >= 2 && IsHexDigit(s[0]) && IsHexDigit(s[1]) {
      var tail := s[2..];
      var n := |HexDecode(tail)|;
      HexDecodeStops(tail);
      assert |HexDecode(s)| == n + 1;
      if 2 * n + 3 < |s| {
        assert tail[2 * n] == s[2 * n + 2];
        assert tail[2 * n + 1] == s[2 * n + 3];
      }
    }
  }

  /** Decoding what was encoded gives the bytes back. */
  lemma {:induction false} DecodeEncode(bs: seq<byte>)
    ensures HexDecode(HexEncode(bs)) == bs
  {
    if |bs| > 0 {
      var s := HexEncode(bs);
      assert s == PairText(bs[0]) + HexEncode(bs[1..]);
      assert s[2..] == HexEncode(bs[1..]);
      DecodeEncode(bs[1..]);
      assert PairValue(s[0], s[1]) == bs[0];
    }
  }

  /** Encoding what was decoded from valid hex gives the text back, lower-cased. */
  lemma {:induction false} EncodeDecode(s: string)
    requires IsEvenHex(s)
    ensures HexEncode(HexDecode(s)) == ToLower(s)
  {
    if |s| > 0 {
      var bs := HexDecode(s);
      assert IsEvenHex(s[2..]);
      EncodeDecode(s[2..]);
      assert bs == [PairValue(s[0], s[1])] + HexDecode(s[2..]);
      assert bs[1..] == HexDecode(s[2..]);
      PairRewrite(s[0], s[1]);
      assert ToLower(s) == [LowerChar(s[0]), LowerChar(s[1])] + ToLower(s[2..]);
    }
  }

  /** On text that is already lower-case hex, lower-casing changes nothing. */
  lemma LowerHexIsLower(s: string)
    requires IsLowerHex(s)
    ensures ToLower(s) == s
  {
    assert forall i :: 0 <= i < |s| ==> ToLower(s)[i] == s[i];
  }

  /* ---------------------------------------------------------------------- */
  /* HexStringReverse                                                       */
  /* ---------------------------------------------------------------------- */

  /** Decode hex, reverse the bytes, re-encode as lower-case hex. */
  function HexStringReverse(value: string): (r: string)
    ensures IsLowerHex(r) && |r| % 2 == 0
    ensures HexDecode(r) == HexReverse(HexDecode(value))
    ensures IsEvenHex(value) ==> |r| == |value|
  {
    DecodeEncode(HexReverse(HexDecode(value)));
    HexEncode(HexReverse(HexDecode(value)))
  }

  /** Applying `HexStringReverse` twice to valid hex gives the text back, up to case. */
  lemma HexStringReverseInvolution(s: string)
    requires IsEvenHex(s)
    ensures HexStringReverse(HexStringReverse(s)) == ToLower(s)
  {
    var once := HexStringReverse(s);
    HexReverseInvolution(HexDecode(s));
    assert HexStringReverse(once) == HexEncode(HexDecode(s));
    EncodeDecode(s);
  }

  /** On lower-case hex the reversal is an exact involution. */
  lemma HexStringReverseLowerInvolution(s: string)
    requires IsEvenHex(s) && IsLowerHex(s)
    ensures HexStringReverse(HexStringReverse(s)) == s
  {
    HexStringReverseInvolution(s);
    LowerHexIsLower(s);
  }

  lemma HexStringReverseEmpty()
    ensures HexStringReverse("") == ""
  {
    assert HexDecode("") == [];
  }

  /* ---------------------------------------------------------------------- */
  /* Numeric values                                                         */
  /* ---------------------------------------------------------------------- */

  /** The value `big.Int.SetString(s, 16)` accumulates: most significant digit first. */
  function HexValue(s: string): nat
    requires IsHex(s)
  {
    if |s| == 0 then 0 else HexValue(s[..|s| - 1]) * 16 + DigitValue(s[|s| - 1])
  }

  /** The little-endian value of a byte string, `sum of bs[i] * 256^i`. */
  function LittleEndian(bs: seq<byte>): nat {
    if |bs| == 0 then 0 else bs[0] as nat + 256 * LittleEndian(bs[1..])
  }

  lemma {:induction false} EncodeAppend(bs: seq<byte>, b: byte)
    ensures HexEncode(bs + [b]) == HexEncode(bs) + PairText(b)
  {
    if |bs| > 0 {
      assert (bs + [b])[1..] == bs[1..] + [b];
      EncodeAppend(bs[1..], b);
    }
  }

  lemma HexValueAppendPair(t: string, p: string)
    requires IsHex(t) && IsHex(p) && |p| == 2
    ensures IsHex(t + p)
    ensures HexValue(t + p) == HexValue(t) * 256 + DigitValue(p[0]) * 16 + DigitValue(p[1])
  {
    var u := t + p;
    assert u[..|u| - 1] == t + [p[0]];
    assert (t + [p[0]])[..|t|] == t;
  }

  /** The hex text of the reversed bytes, read as a base-16 number, is the
      little-endian value of the bytes. */
  lemma {:induction false} HexValueOfReversal(bs: seq<byte>)
    ensures HexValue(HexEncode(HexReverse(bs))) == LittleEndian(bs)
  {
    if |bs| > 0 {
      var rest := HexReverse(bs[1..]);
      assert HexReverse(bs) == rest + [bs[0]];
      EncodeAppend(rest, bs[0]);
      HexValueAppendPair(HexEncode(rest), PairText(bs[0]));
      HexValueOfReversal(bs[1..]);
    }
  }

  /* ---------------------------------------------------------------------- */
  /* Decimal text                                                           */
  /* ---------------------------------------------------------------------- */

  predicate IsDecimalDigit(c: char) {
    '0' <= c <= '9'
  }

  predicate IsDecimal(s: string) {
    forall i :: 0 <= i < |s| ==> IsDecimalDigit(s[i])
  }

  /** The value `big.Int.SetString(s, 10)` accumulates. */
  function DecimalValue(s: string): nat
    requires IsDecimal(s)
  {
    if |s| == 0 then 0 else DecimalValue(s[..|s| - 1]) * 10 + (s[|s| - 1] as int - '0' as int)
  }

  /** `big.Int.String()`: canonical decimal text, no leading zero. */
  function DecimalText(n: nat): (s: string)
    ensures |s| > 0 && IsDecimal(s)
    ensures n > 0 ==> s[0] != '0'
    ensures DecimalValue(s) == n
  {
    var last := ('0' as int + n % 10) as char;
    if n < 10 then [last]
    else
      var s := DecimalText(n / 10) + [last];
      assert s[..|s| - 1] == DecimalText(n / 10);
      s
  }

  /* ---------------------------------------------------------------------- */
  /* big.Int.SetString and ParseInt                                         */
  /* ---------------------------------------------------------------------- */

  /** `new(big.Int).SetString(s, 10)`; `None` is the nil result. */
  function ParseDecimal(s: string): Option<nat> {
    if |s| > 0 && IsDecimal(s) then Some(DecimalValue(s)) else None
  }

  /** `new(big.Int).SetString(s, 16)`; `None` is the nil result. */
  function ParseHex(s: string): Option<nat> {
    if |s| > 0 && IsHex(s) then Some(HexValue(s)) else None
  }

  /** `SetString(HexStringReverse(value), 16)`: the amount read as little-endian hex. */
  function ParseLittleEndianHex(value: string): (r: Option<nat>)
    ensures r.Some? <==> |HexDecode(value)| > 0
    ensures r.Some? ==> r.value == LittleEndian(HexDecode(value))
  {
    var t := HexStringReverse(value);
    HexValueOfReversal(HexDecode(value));
    ParseHex(t)
  }

  /** The type tag that selects base-10 parsing. */
  const IntegerType := "Integer"

  /** Parses an amount: base 10 under the "Integer" tag, little-endian hex under any other. */
  function ParseInt(value: string, ty: string): (r: Option<nat>)
    ensures ty == IntegerType ==> (r.Some? <==> |value| > 0 && IsDecimal(value))
    ensures ty == IntegerType && r.Some? ==> r.value == DecimalValue(value)
    ensures ty != IntegerType ==> (r.Some? <==> |HexDecode(value)| > 0)
    ensures ty != IntegerType && r.Some? ==> r.value == LittleEndian(HexDecode(value))
  {
    if ty == IntegerType then ParseDecimal(value) else ParseLittleEndianHex(value)
  }

  /** `big.Int.String()` text parses back to the same number under "Integer". */
  lemma ParseIntDecimalRoundTrip(n: nat)
    ensures ParseInt(DecimalText(n), IntegerType) == Some(n)
  {
  }

  /** Under any other tag, the hex text of a non-empty byte string parses to its little-endian value. */
  lemma ParseIntHexRoundTrip(bs: seq<byte>, ty: string)
    requires |bs| > 0 && ty != IntegerType
    ensures ParseInt(HexEncode(bs), ty) == Some(LittleEndian(bs))
  {
    DecodeEncode(bs);
  }

  /** Worked examples: "0100" is 100 in decimal and 1 as little-endian hex;
      the empty string and a non-digit parse to nothing. */
  lemma ParseIntExamples()
    ensures ParseInt("0100", IntegerType) == Some(100)
    ensures ParseInt("0100", "Hex") == Some(1)
    ensures ParseInt("", "Hex") == None
    ensures ParseInt("12a", IntegerType) == None
  {
    assert HexDecode("00") == [0];
    assert HexDecode("0100") == [1, 0];
    assert LittleEndian([1, 0]) == 1 by {
      assert [1, 0][1..] == [0 as byte];
    }
    assert !IsDecimalDigit("12a"[2]);
    var s := "0100";
    assert s[..3] == "010" && s[..3][..2] == "01" && s[..3][..2][..1] == "0";
    assert DecimalValue("0") == 0;
    assert DecimalValue("01") == 1;
    assert DecimalValue("010") == 10;
  }
}
