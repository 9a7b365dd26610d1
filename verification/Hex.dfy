/** encoding/hex. */
module Hex {
  import opened Wrappers

  type Byte = n: nat | n < 256

  function Digit(d: nat): char
    requires d < 16
  {
    if d < 10 then ('0' as int + d) as char else ('a' as int + (d - 10)) as char
  }

  function Value(c: char): Option<nat> {
    if '0' <= c <= '9' then Some(c as int - '0' as int)
    else if 'a' <= c <= 'f' then Some(c as int - 'a' as int + 10)
    else if 'A' <= c <= 'F' then Some(c as int - 'A' as int + 10)
    else None
  }

  function Encode(bs: seq<Byte>): string {
    if bs == [] then "" else [Digit(bs[0] / 16), Digit(bs[0] % 16)] + Encode(bs[1..])
  }

  /** Fails on an odd length or a character that is no hex digit. */
  function Decode(s: string): Option<seq<Byte>> {
    if s == "" then Some([])
    else if |s| == 1 then None
    else
      match (Value(s[0]), Value(s[1]), Decode(s[2..]))
      case (Some(h), Some(l), Some(rest)) =>
        if h < 16 && l < 16 then Some([16 * h + l as Byte] + rest) else None
      case _ => None
  }

  lemma DigitValue(d: nat)
    requires d < 16
    ensures Value(Digit(d)) == Some(d)
  {
  }

  predicate IsHexDigit(c: char) { '0' <= c <= '9' || 'a' <= c <= 'f' || 'A' <= c <= 'F' }

  lemma ValueIff(c: char)
    ensures Value(c).Some? <==> IsHexDigit(c)
    ensures Value(c).Some? ==> Value(c).value < 16
  {
  }

  /** Exactly the texts of pairs of hex digits decode, each pair to one byte. */
  lemma {:induction false} DecodesExactly(s: string)
    ensures Decode(s).Some? <==> |s| % 2 == 0 && forall i :: 0 <= i < |s| ==> IsHexDigit(s[i])
    ensures Decode(s).Some? ==> |s| == 2 * |Decode(s).value|
  {
    if |s| == 1 {
    } else if s != "" {
      DecodesExactly(s[2..]);
      ValueIff(s[0]);
      ValueIff(s[1]);
      assert forall i :: 2 <= i < |s| ==> s[i] == s[2..][i - 2];
      if |s| % 2 == 0 && forall i :: 0 <= i < |s| ==> IsHexDigit(s[i]) {
        assert forall i :: 0 <= i < |s[2..]| ==> s[2..][i] == s[i + 2];
      }
    }
  }

  lemma {:induction false} DecodeEncode(bs: seq<Byte>)
    ensures Decode(Encode(bs)) == Some(bs)
  {
    if bs != [] {
      DecodeEncode(bs[1..]);
      DigitValue(bs[0] / 16);
      DigitValue(bs[0] % 16);
      assert Encode(bs)[2..] == Encode(bs[1..]);
      assert [bs[0]] + bs[1..] == bs;
    }
  }
}
