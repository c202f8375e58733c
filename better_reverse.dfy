/** stringutil's BetterReverse: count the runes, then walk the string one
    rune at a time (Go's `range` over a string), writing each rune at a write
    cursor that starts at the last position and moves one place left per
    rune. */
module Better {
  import opened Runes
  import opened Reversal

  /** Returns its argument string reversed rune-wise left to right. The
      `k`-th rune visited lands at position `n - 1 - k`; every position of
      `rOut` is written exactly once, and the cursor ends at -1. */
  method BetterReverse(s: string) returns (res: string)
    ensures |Decode(res)| == |Decode(s)|
    ensures forall i :: 0 <= i < |s| ==> Decode(res)[i] == Decode(s)[|s| - 1 - i]
    ensures Decode(res) == Reversed(Decode(s))
  {
    var n := |Decode(s)|;
    var rOut := new Rune[n];
    var i := n - 1;
    ghost var written: set<int> := {};
    // `for _, c := range s`: the runes of `s`, decoded one at a time
    for k := 0 to |s|
      invariant i == n - 1 - k
      invariant forall j :: j in written <==> i < j < n
      invariant forall j :: i < j < n ==> rOut[j] == s[n - 1 - j] as int
    {
      var c: Rune := s[k] as int;
      assert 0 <= i < n && i !in written;
      rOut[i] := c;
      written := written + {i};
      i := i - 1;
    }
    assert i == -1 && forall j :: j in written <==> 0 <= j < n;
    res := Encode(rOut[..]);
    DecodeEncode(rOut[..]);
    ReversedByIndex(Decode(s), rOut[..]);
  }
}
