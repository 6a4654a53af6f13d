/**
 * Hexadecimal text to bytes, as Go's encoding/hex DecodeString does it:
 * each pair of hex digits (either case) becomes one byte; a character that
 * is not a hex digit, or an odd number of characters, is an error. Pairs are
 * checked from the left, so an invalid character in a complete pair is
 * reported before an odd length.
 */
module Hex {
  import opened Wrappers

  newtype byte = x: int | 0 <= x < 256

  datatype HexError = InvalidByte(c: char) | OddLength

  predicate IsHexDigit(c: char) {
    ('0' <= c <= '9') || ('a' <= c <= 'f') || ('A' <= c <= 'F')
  }

  /** The value of one hex digit. */
  function DigitValue(c: char): (v: nat)
    requires IsHexDigit(c)
    ensures v < 16
  {
    if '0' <= c <= '9' then (c - '0') as nat
    else if 'a' <= c <= 'f' then (c - 'a') as nat + 10
    else (c - 'A') as nat + 10
  }

  /** Text that decodes: an even number of characters, all hex digits. */
  predicate IsHexText(s: string) {
    |s| % 2 == 0 && forall i :: 0 <= i < |s| ==> IsHexDigit(s[i])
  }

  /**
   * hex.DecodeString. It succeeds exactly on hex text; then byte k is the
   * pair s[2k], s[2k+1] read as a two-digit number, high digit first.
   */
  function DecodeString(s: string): (r: Result<seq<byte>, HexError>)
    decreases |s|
    ensures r.Ok? <==> IsHexText(s)
    ensures r.Ok? ==>
              && |r.value| == |s| / 2
              && forall k :: 0 <= k < |r.value| ==>
                   r.value[k] as int == 16 * DigitValue(s[2 * k]) + DigitValue(s[2 * k + 1])
    ensures r == Fail(OddLength) ==> |s| % 2 == 1
  {
    if |s| == 0 then Ok([])
    else if !IsHexDigit(s[0]) then Fail(InvalidByte(s[0]))
    else if |s| == 1 then Fail(OddLength)
    else if !IsHexDigit(s[1]) then Fail(InvalidByte(s[1]))
    else
      HexTextTail(s);
      match DecodeString(s[2..])
      case Fail(e) => Fail(e)
      case Ok(rest) =>
        var b := (16 * DigitValue(s[0]) + DigitValue(s[1])) as byte;
        PairsShift(s, rest, b);
        Ok([b] + rest)
  }

  /** Hex text is one pair of digits followed by hex text. */
  lemma HexTextTail(s: string)
    requires |s| >= 2
    ensures IsHexText(s) <==> IsHexDigit(s[0]) && IsHexDigit(s[1]) && IsHexText(s[2..])
  {
    if IsHexDigit(s[0]) && IsHexDigit(s[1]) && IsHexText(s[2..]) {
      forall i | 2 <= i < |s|
        ensures IsHexDigit(s[i])
      {
        assert s[i] == s[2..][i - 2];
      }
    }
  }

  /** Byte k + 1 of the whole text is byte k of the text after the first pair. */
  lemma PairsShift(s: string, rest: seq<byte>, b: byte)
    requires |s| >= 2 && IsHexText(s) && |rest| == |s| / 2 - 1
    requires b as int == 16 * DigitValue(s[0]) + DigitValue(s[1])
    requires forall k :: 0 <= k < |rest| ==>
               rest[k] as int == 16 * DigitValue(s[2..][2 * k]) + DigitValue(s[2..][2 * k + 1])
    ensures forall k :: 0 <= k < |rest| + 1 ==>
              ([b] + rest)[k] as int == 16 * DigitValue(s[2 * k]) + DigitValue(s[2 * k + 1])
  {
    forall k | 1 <= k < |rest| + 1
      ensures ([b] + rest)[k] as int == 16 * DigitValue(s[2 * k]) + DigitValue(s[2 * k + 1])
    {
      var j := k - 1;
      assert s[2..][2 * j] == s[2 * k] && s[2..][2 * j + 1] == s[2 * k + 1];
    }
  }
}
