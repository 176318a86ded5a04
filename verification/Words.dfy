/** Hex strings and big-endian words as the ledger reads them
    (internal/core/services/balancefill.go:41-66, internal/fetcher/utils.go:11-20). */
module Words {
  import opened Wrappers

  type Byte = b: nat | b < 256

  /** big.Int.SetBytes: an unsigned big-endian number. */
  function FromBytes(bs: seq<Byte>): nat {
    if bs == [] then 0 else FromBytes(bs[..|bs| - 1]) * 256 + bs[|bs| - 1]
  }

  /** The low k bytes of n, big-endian, padded with zeros. */
  function ToBytes(n: nat, k: nat): (bs: seq<Byte>)
    ensures |bs| == k
  {
    if k == 0 then [] else ToBytes(n / 256, k - 1) + [n % 256]
  }

  function Pow256(k: nat): (r: nat)
    ensures r > 0
  {
    if k == 0 then 1 else 256 * Pow256(k - 1)
  }

  /** The values a 32-byte word can hold. */
  predicate IsWord(n: nat) {
    n < 0x1_0000000000000000_0000000000000000_0000000000000000_0000000000000000
  }

  lemma {:induction false} Pow256Add(a: nat, b: nat)
    ensures Pow256(a + b) == Pow256(a) * Pow256(b)
  {
    if a > 0 {
      Pow256Add(a - 1, b);
      assert Pow256(a + b) == 256 * Pow256(a - 1 + b) && Pow256(a) == 256 * Pow256(a - 1);
      hide Pow256;
      TimesMoves(256, Pow256(a - 1), Pow256(b));
    }
  }

  lemma TimesMoves(x: nat, y: nat, z: nat)
    ensures x * (y * z) == (x * y) * z
  {
  }

  /** They are the numbers of at most 32 bytes. */
  lemma WordLimit()
    ensures Pow256(32) == 0x1_0000000000000000_0000000000000000_0000000000000000_0000000000000000
  {
    assert Pow256(8) == 0x1_0000000000000000;
    Pow256Add(8, 8);
    Pow256Add(16, 16);
  }

  lemma {:induction false} BytesRoundTrip(n: nat, k: nat)
    requires n < Pow256(k)
    ensures FromBytes(ToBytes(n, k)) == n
  {
    if k == 0 {
    } else {
      BytesRoundTrip(n / 256, k - 1);
      assert ToBytes(n, k)[..k - 1] == ToBytes(n / 256, k - 1);
    }
  }

  /** The first byte is the most significant one. */
  lemma {:induction false} FirstByteCounts(b: Byte, rest: seq<Byte>)
    ensures FromBytes([b] + rest) == b * Pow256(|rest|) + FromBytes(rest)
  {
    var bs, n := [b] + rest, |rest|;
    if n == 0 {
      assert bs[..0] == [];
    } else {
      assert bs[..n] == [b] + rest[..n - 1];
      FirstByteCounts(b, rest[..n - 1]);
      assert (b * Pow256(n - 1)) * 256 == b * (256 * Pow256(n - 1));
    }
  }

  /** Every list of bytes is the big-endian form of its number. */
  lemma {:induction false} NumberRoundTrip(bs: seq<Byte>)
    ensures ToBytes(FromBytes(bs), |bs|) == bs && FromBytes(bs) < Pow256(|bs|)
  {
    if bs != [] {
      NumberRoundTrip(bs[..|bs| - 1]);
    }
  }

  // ---------------------------------------------------------------- hex text

  function HexDigit(d: nat): char
    requires d < 16
  {
    "0123456789abcdef"[d]
  }

  function HexValue(c: char): Option<nat> {
    if '0' <= c <= '9' then Some(c as int - '0' as int)
    else if 'a' <= c <= 'f' then Some(c as int - 'a' as int + 10)
    else if 'A' <= c <= 'F' then Some(c as int - 'A' as int + 10)
    else None
  }

  lemma HexDigitValue(d: nat)
    requires d < 16
    ensures HexValue(HexDigit(d)) == Some(d)
  {
    var digits := "0123456789abcdef";
    assert digits[0] == '0' && digits[1] == '1' && digits[2] == '2' && digits[3] == '3';
    assert digits[4] == '4' && digits[5] == '5' && digits[6] == '6' && digits[7] == '7';
    assert digits[8] == '8' && digits[9] == '9' && digits[10] == 'a' && digits[11] == 'b';
    assert digits[12] == 'c' && digits[13] == 'd' && digits[14] == 'e' && digits[15] == 'f';
  }

  function HexOf(bs: seq<Byte>): string {
    if bs == [] then "" else [HexDigit(bs[0] / 16), HexDigit(bs[0] % 16)] + HexOf(bs[1..])
  }

  /** hex.DecodeString with its error ignored: the bytes before the first bad digit. */
  function DecodeHex(s: string): seq<Byte> {
    if |s| < 2 || HexValue(s[0]).None? || HexValue(s[1]).None? then []
    else
      var hi, lo := HexValue(s[0]).value, HexValue(s[1]).value;
      [hi * 16 + lo] + DecodeHex(s[2..])
  }

  /** common.FromHex: drop a 0x prefix, pad to an even length, decode. */
  function FromHex(s: string): seq<Byte> {
    var digits := if |s| >= 2 && s[0] == '0' && (s[1] == 'x' || s[1] == 'X') then s[2..] else s;
    DecodeHex(if |digits| % 2 == 1 then "0" + digits else digits)
  }

  /** hexutil.Encode, the form in which log data and topics are stored. */
  function Encode(bs: seq<Byte>): string {
    "0x" + HexOf(bs)
  }

  lemma {:induction false} DecodeHexOf(bs: seq<Byte>)
    ensures |HexOf(bs)| == 2 * |bs| && DecodeHex(HexOf(bs)) == bs
  {
    if bs == [] {
    } else {
      DecodeHexOf(bs[1..]);
      HexDigitValue(bs[0] / 16);
      HexDigitValue(bs[0] % 16);
      assert HexOf(bs)[2..] == HexOf(bs[1..]);
    }
  }

  lemma HexRoundTrip(bs: seq<Byte>)
    ensures FromHex(Encode(bs)) == bs
  {
    DecodeHexOf(bs);
    assert Encode(bs)[2..] == HexOf(bs);
  }

  /** common.BigToHash(n).Hex(): the 32-byte hex form of a number. */
  function HashHex(n: nat): string {
    Encode(ToBytes(n, 32))
  }

  lemma HashHexInjective(a: nat, b: nat)
    requires IsWord(a) && IsWord(b) && HashHex(a) == HashHex(b)
    ensures a == b
  {
    WordLimit();
    HexRoundTrip(ToBytes(a, 32));
    HexRoundTrip(ToBytes(b, 32));
    BytesRoundTrip(a, 32);
    BytesRoundTrip(b, 32);
  }

  // ---------------------------------------------------------------- the text, character by character

  /** A digit of hexutil.Encode. */
  predicate IsLowerDigit(c: char) {
    '0' <= c <= '9' || 'a' <= c <= 'f'
  }

  /** The value of every character; upper case is read as well. */
  lemma HexValueIff(c: char, d: nat)
    requires d < 16
    ensures HexValue(c) == Some(d) <==> c == "0123456789abcdef"[d] || c == "0123456789ABCDEF"[d]
  {
    HexDigitValue(d);
    var upper := "0123456789ABCDEF";
    assert upper[0] == '0' && upper[1] == '1' && upper[2] == '2' && upper[3] == '3';
    assert upper[4] == '4' && upper[5] == '5' && upper[6] == '6' && upper[7] == '7';
    assert upper[8] == '8' && upper[9] == '9' && upper[10] == 'A' && upper[11] == 'B';
    assert upper[12] == 'C' && upper[13] == 'D' && upper[14] == 'E' && upper[15] == 'F';
  }

  lemma DigitOf(c: char) returns (d: nat)
    requires IsLowerDigit(c)
    ensures d < 16 && HexDigit(d) == c && HexValue(c) == Some(d)
  {
    d := HexValue(c).value;
    HexDigitValue(d);
    HexDigitLower(d);
  }

  lemma HexDigitLower(d: nat)
    requires d < 16
    ensures IsLowerDigit(HexDigit(d))
  {
    HexDigitValue(d);
  }

  /** Each byte is two lower-case digits, its high half first. */
  lemma {:induction false} HexTextAt(bs: seq<Byte>, i: nat)
    requires i < |bs|
    ensures
      var text := HexOf(bs);
      && |text| == 2 * |bs| && IsLowerDigit(text[2 * i]) && IsLowerDigit(text[2 * i + 1])
      && HexValue(text[2 * i]) == Some(bs[i] / 16) && HexValue(text[2 * i + 1]) == Some(bs[i] % 16)
  {
    DecodeHexOf(bs);
    var hi, lo, rest := HexDigit(bs[0] / 16), HexDigit(bs[0] % 16), HexOf(bs[1..]);
    assert HexOf(bs) == [hi, lo] + rest;
    if i == 0 {
      HexDigitValue(bs[0] / 16);
      HexDigitValue(bs[0] % 16);
      HexDigitLower(bs[0] / 16);
      HexDigitLower(bs[0] % 16);
    } else {
      HexTextAt(bs[1..], i - 1);
      assert HexOf(bs)[2 * i] == rest[2 * (i - 1)] && HexOf(bs)[2 * i + 1] == rest[2 * (i - 1) + 1];
    }
  }

  /** 0x and an even number of lower-case digits. */
  predicate IsHexText(text: string) {
    && |text| >= 2 && |text| % 2 == 0 && text[0] == '0' && text[1] == 'x'
    && forall i :: 2 <= i < |text| ==> IsLowerDigit(text[i])
  }

  lemma {:induction false} HexOfDecoded(s: string)
    requires |s| % 2 == 0 && forall i :: 0 <= i < |s| ==> IsLowerDigit(s[i])
    ensures HexOf(DecodeHex(s)) == s && 2 * |DecodeHex(s)| == |s|
  {
    hide HexDigit, HexValue;
    if s != "" {
      var hi := DigitOf(s[0]);
      var lo := DigitOf(s[1]);
      HexOfDecoded(s[2..]);
      var bs := DecodeHex(s);
      assert bs == [hi * 16 + lo] + DecodeHex(s[2..]);
      assert bs[0] / 16 == hi && bs[0] % 16 == lo && bs[1..] == DecodeHex(s[2..]);
      assert s == [s[0], s[1]] + s[2..];
    }
  }

  /** Such a text is the form of the bytes it decodes to. */
  lemma TextRoundTrip(text: string)
    requires IsHexText(text)
    ensures Encode(FromHex(text)) == text && 2 * |FromHex(text)| + 2 == |text|
  {
    HexOfDecoded(text[2..]);
    hide HexOf, DecodeHex;
    assert FromHex(text) == DecodeHex(text[2..]);
    assert text == "0x" + text[2..];
  }

  /** hexutil.Encode writes such texts. */
  lemma EncodeIsHexText(bs: seq<Byte>)
    ensures IsHexText(Encode(bs)) && |Encode(bs)| == 2 * |bs| + 2
  {
    DecodeHexOf(bs);
    hide HexOf, DecodeHex, IsLowerDigit, HexValue;
    forall j | 0 <= j < 2 * |bs| ensures IsLowerDigit(HexOf(bs)[j]) {
      HexTextAt(bs, j / 2);
      assert j == 2 * (j / 2) || j == 2 * (j / 2) + 1;
    }
    assert forall i :: 2 <= i < |Encode(bs)| ==> Encode(bs)[i] == HexOf(bs)[i - 2];
  }

  /** The form of an id is the only text of 0x and 64 lower-case digits that decodes to it, so an id stored as an
      indexed topic and the same id decoded from data have one text. */
  lemma HashHexIff(n: nat, text: string)
    requires IsWord(n)
    ensures text == HashHex(n) <==> |text| == 66 && IsHexText(text) && FromBytes(FromHex(text)) == n
  {
    var bs := ToBytes(n, 32);
    assert FromHex(HashHex(n)) == bs by { HexRoundTrip(bs); }
    assert FromBytes(bs) == n by { WordLimit(); BytesRoundTrip(n, 32); }
    EncodeIsHexText(bs);
    hide IsHexText, FromHex, Encode, FromBytes, ToBytes;
    if |text| == 66 && IsHexText(text) && FromBytes(FromHex(text)) == n {
      TextRoundTrip(text);
      NumberRoundTrip(FromHex(text));
    }
  }

  lemma WordBytes(n: nat)
    requires IsWord(n)
    ensures FromBytes(ToBytes(n, 32)) == n
  {
    WordLimit();
    BytesRoundTrip(n, 32);
  }

  lemma TextBytes(n: nat, text: string)
    requires |text| == 66 && IsHexText(text) && FromBytes(FromHex(text)) == n
    ensures FromHex(text) == ToBytes(n, 32)
  {
    TextRoundTrip(text);
    NumberRoundTrip(FromHex(text));
  }
}
