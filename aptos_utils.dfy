/** `HexEncodedBytes::to_string` of crates/client/src/aptos_utils.rs: a byte vector
    rendered as "0x" followed by its lowercase Base16 encoding (the alphabet that
    `hex::encode` emits), together with a decoder that serves as its inverse. */
module AptosUtils {
  import opened Results

  type byte = x: int | 0 <= x < 256

  /** The sixteen digits `hex::encode` uses, in order of value. */
  const LowerHexAlphabet: string := "0123456789abcdef"

  const HexPrefix: string := "0x"

  predicate IsLowerHexDigit(c: char) {
    '0' <= c <= '9' || 'a' <= c <= 'f'
  }

  /** The digit for a nibble value. */
  function HexDigit(n: int): (c: char)
    requires 0 <= n < 16
    ensures IsLowerHexDigit(c)
    ensures c == LowerHexAlphabet[n]
  {
    if n < 10 then ('0' as int + n) as char else ('a' as int + n - 10) as char
  }

  /** The value of a lowercase hex digit, or None for any other character. */
  function DigitValue(c: char): (r: Option<int>)
    ensures r.Some? <==> IsLowerHexDigit(c)
    ensures r.Some? ==> 0 <= r.value < 16 && HexDigit(r.value) == c
  {
    if '0' <= c <= '9' then Some(c as int - '0' as int)
    else if 'a' <= c <= 'f' then Some(c as int - 'a' as int + 10)
    else None
  }

  /** `hex::encode`: two lowercase digits per byte, high nibble first. */
  function Encode(bytes: seq<byte>): (s: string)
    ensures |s| == 2 * |bytes|
    ensures forall i :: 0 <= i < |s| ==> IsLowerHexDigit(s[i])
    ensures forall i :: 0 <= i < |bytes| ==>
      s[2 * i] == HexDigit(bytes[i] / 16) && s[2 * i + 1] == HexDigit(bytes[i] % 16)
  {
    if bytes == [] then ""
    else
      var rest := Encode(bytes[1..]);
      assert forall i :: 1 <= i < |bytes| ==> bytes[i] == bytes[1..][i - 1];
      [HexDigit(bytes[0] / 16), HexDigit(bytes[0] % 16)] + rest
  }

  /** Pairwise decoding of lowercase hex text; None on odd length or a foreign character. */
  function Decode(s: string): (r: Option<seq<byte>>)
    ensures r.Some? ==> 2 * |r.value| == |s|
  {
    if |s| == 0 then Some([])
    else if |s| == 1 then None
    else
      var hi, lo, rest := DigitValue(s[0]), DigitValue(s[1]), Decode(s[2..]);
      if hi.Some? && lo.Some? && rest.Some? then Some([hi.value * 16 + lo.value] + rest.value)
      else None
  }

  datatype HexEncodedBytes = HexEncodedBytes(bytes: seq<byte>)

  /** `HexEncodedBytes::to_string`. */
  function ToString(h: HexEncodedBytes): (s: string)
    ensures |s| == |HexPrefix| + 2 * |h.bytes|
    ensures s[..|HexPrefix|] == HexPrefix
    ensures forall i :: |HexPrefix| <= i < |s| ==> IsLowerHexDigit(s[i])
    ensures forall i :: 0 <= i < |h.bytes| ==>
      s[2 + 2 * i] == HexDigit(h.bytes[i] / 16) && s[3 + 2 * i] == HexDigit(h.bytes[i] % 16)
  {
    HexPrefix + Encode(h.bytes)
  }

  /** Reads back a string of the form ToString produces. */
  function FromString(s: string): (r: Option<HexEncodedBytes>)
    ensures r.Some? ==> |s| == |HexPrefix| + 2 * |r.value.bytes| && s[..|HexPrefix|] == HexPrefix
  {
    if |s| >= |HexPrefix| && s[..|HexPrefix|] == HexPrefix then
      match Decode(s[|HexPrefix|..])
      case Some(bytes) => Some(HexEncodedBytes(bytes))
      case None => None
    else None
  }

  /** An empty vector renders as the bare prefix. */
  lemma EmptyIsPrefixOnly()
    ensures ToString(HexEncodedBytes([])) == "0x"
  {
  }

  /** A byte is its high nibble times sixteen plus its low nibble. */
  lemma NibbleSplit(b: byte)
    ensures 0 <= b / 16 < 16 && 0 <= b % 16 < 16
    ensures (b / 16) * 16 + b % 16 == b
  {
  }

  /** Reading back a digit gives the value it was written for. */
  lemma DigitOfHexDigit(n: int)
    requires 0 <= n < 16
    ensures DigitValue(HexDigit(n)) == Some(n)
  {
  }

  /** Decoding two digits in front of decodable text. */
  lemma DecodePair(s: string)
    requires |s| >= 2 && DigitValue(s[0]).Some? && DigitValue(s[1]).Some? && Decode(s[2..]).Some?
    ensures Decode(s) == Some([DigitValue(s[0]).value * 16 + DigitValue(s[1]).value] + Decode(s[2..]).value)
  {
  }

  /** Decoding undoes encoding. */
  lemma {:induction false} DecodeEncode(bytes: seq<byte>)
    ensures Decode(Encode(bytes)) == Some(bytes)
  {
    if bytes != [] {
      var b := bytes[0];
      var hi, lo := b / 16, b % 16;
      NibbleSplit(b);
      var s := Encode(bytes);
      assert s == [HexDigit(hi), HexDigit(lo)] + Encode(bytes[1..]);
      assert s[2..] == Encode(bytes[1..]);
      DecodeEncode(bytes[1..]);
      DigitOfHexDigit(hi);
      DigitOfHexDigit(lo);
      DecodePair(s);
      assert [b] + bytes[1..] == bytes;
    }
  }

  /** Encoding undoes decoding: every string the decoder accepts is the encoding of what it returns. */
  lemma {:induction false} EncodeDecode(s: string)
    requires Decode(s).Some?
    ensures Encode(Decode(s).value) == s
  {
    if |s| >= 2 {
      var hi, lo := DigitValue(s[0]).value, DigitValue(s[1]).value;
      var rest := Decode(s[2..]).value;
      EncodeDecode(s[2..]);
      var b: byte := hi * 16 + lo;
      assert Decode(s).value == [b] + rest;
      assert ([b] + rest)[1..] == rest;
      assert b / 16 == hi && b % 16 == lo;
      assert s == [s[0], s[1]] + s[2..];
    }
  }

  /** The textual form round-trips. */
  lemma ToStringRoundTrip(h: HexEncodedBytes)
    ensures FromString(ToString(h)) == Some(h)
  {
    var s := ToString(h);
    assert s[|HexPrefix|..] == Encode(h.bytes);
    DecodeEncode(h.bytes);
  }

  /** Distinct byte vectors render as distinct strings. */
  lemma ToStringInjective(a: HexEncodedBytes, b: HexEncodedBytes)
    requires ToString(a) == ToString(b)
    ensures a == b
  {
    ToStringRoundTrip(a);
    ToStringRoundTrip(b);
  }

  /** Every string FromString accepts is the rendering of the value it reads back. */
  lemma FromStringToString(s: string)
    requires FromString(s).Some?
    ensures ToString(FromString(s).value) == s
  {
    EncodeDecode(s[|HexPrefix|..]);
    assert s == s[..|HexPrefix|] + s[|HexPrefix|..];
  }
}
