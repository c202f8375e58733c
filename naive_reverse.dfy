/** stringutil's NaiveReverse: decode the whole string into runes, then fill
    a fresh rune buffer with an index loop reading the runes back to front. */
module Naive {
  import opened Runes
  import opened Reversal

  /** Returns its argument string reversed rune-wise left to right. The
      input is a value and the method modifies no existing object: the only
      buffer written is the freshly allocated `rOut`. */
  method NaiveReverse(s: string) returns (res: string)
    ensures |Decode(res)| == |Decode(s)|
    ensures forall i :: 0 <= i < |s| ==> Decode(res)[i] == Decode(s)[|s| - 1 - i]
    ensures Decode(res) == Reversed(Decode(s))
  {
    var r := Decode(s);
    var n := |r|;
    var rOut := new Rune[n];
    var i := 0;
    while i < n
      invariant 0 <= i <= n
      invariant forall j :: 0 <= j < i ==> rOut[j] == r[n - 1 - j]
    {
      rOut[i] := r[n - 1 - i];
      i := i + 1;
    }
    res := Encode(rOut[..]);
    DecodeEncode(rOut[..]);
    ReversedByIndex(r, rOut[..]);
  }
}
