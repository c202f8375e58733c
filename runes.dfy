/** Go's runes and the runtime conversions between a string and its runes.
    A Go string that holds valid UTF-8 is a sequence of Unicode scalar values;
    a Dafny `string` is exactly such a sequence, so the runtime's byte-level
    UTF-8 decoding and encoding are taken as given and only their effect on
    codepoints is modelled. */
module Runes {

  /** A rune (Go's `rune`, an `int32`) holding a Unicode scalar value.
      Its default value is 0, the zero rune that `make([]rune, n)` fills in. */
  type Rune = c: int | 0 <= c < 0xD800 || 0xE000 <= c < 0x11_0000

  /** `[]rune(s)`: the codepoints of `s`, one rune per character, in order. */
  function Decode(s: string): (r: seq<Rune>)
    ensures |r| == |s|
    ensures forall i :: 0 <= i < |s| ==> r[i] == s[i] as int
  {
    seq(|s|, i requires 0 <= i < |s| => s[i] as int)
  }

  /** `string(r)`: the string whose codepoints are `r`. */
  function Encode(r: seq<Rune>): (s: string)
    ensures |s| == |r|
    ensures forall i :: 0 <= i < |r| ==> s[i] as int == r[i]
  {
    seq(|r|, i requires 0 <= i < |r| => r[i] as char)
  }

  /** Encoding the runes of a string gives the string back. */
  lemma EncodeDecode(s: string)
    ensures Encode(Decode(s)) == s
  {
  }

  /** Decoding an encoded rune sequence gives the runes back. */
  lemma DecodeEncode(r: seq<Rune>)
    ensures Decode(Encode(r)) == r
  {
  }

  /** Two strings with the same runes are the same string. */
  lemma DecodeInjective(s: string, t: string)
    requires Decode(s) == Decode(t)
    ensures s == t
  {
  }
}
