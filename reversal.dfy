/** The contract shared by every reverser in the package: a sequence
    "reversed rune-wise left to right". `Reversed` is the reference
    definition, written independently of the index loops that implement it:
    the last element comes first, followed by the reversal of the rest. */
module Reversal {
  import opened Runes

  function Reversed<T>(s: seq<T>): seq<T>
  {
    if |s| == 0 then [] else [s[|s| - 1]] + Reversed(s[..|s| - 1])
  }

  /** Reversal keeps the length, and position `k` of the result holds
      position `|s| - 1 - k` of the input. */
  lemma {:induction false} ReversedAt<T>(s: seq<T>, k: int)
    requires 0 <= k < |s|
    ensures |Reversed(s)| == |s|
    ensures Reversed(s)[k] == s[|s| - 1 - k]
  {
    var init := s[..|s| - 1];
    if k > 0 {
      ReversedAt(init, k - 1);
      assert Reversed(s)[k] == Reversed(init)[k - 1];
    } else if |init| > 0 {
      ReversedAt(init, 0);
    } else {
      assert |Reversed(init)| == 0;
    }
  }

  /** Reversal keeps the length (the empty sequence included). */
  lemma {:induction false} ReversedLength<T>(s: seq<T>)
    ensures |Reversed(s)| == |s|
  {
    if |s| > 0 {
      ReversedAt(s, 0);
    }
  }

  /** The index mapping characterises reversal: a sequence of the same
      length whose position `k` holds `s[|s| - 1 - k]` is `Reversed(s)`. */
  lemma ReversedByIndex<T>(s: seq<T>, r: seq<T>)
    requires |r| == |s|
    requires forall k :: 0 <= k < |s| ==> r[k] == s[|s| - 1 - k]
    ensures r == Reversed(s)
  {
    ReversedLength(s);
    forall k | 0 <= k < |s| ensures r[k] == Reversed(s)[k] {
      ReversedAt(s, k);
    }
  }

  /** Reversing twice gives the input back. */
  lemma ReversedTwice<T>(s: seq<T>)
    ensures Reversed(Reversed(s)) == s
  {
    var r := Reversed(s);
    ReversedLength(s);
    forall k | 0 <= k < |s| ensures s[k] == r[|r| - 1 - k] {
      ReversedAt(s, |s| - 1 - k);
    }
    ReversedByIndex(r, s);
  }

  /** Reversal rearranges the elements and neither adds nor drops any. */
  lemma {:induction false} ReversedMultiset<T>(s: seq<T>)
    ensures multiset(Reversed(s)) == multiset(s)
  {
    if |s| > 0 {
      var init := s[..|s| - 1];
      ReversedMultiset(init);
      assert s == init + [s[|s| - 1]];
    }
  }

  /** Reversal commutes with taking the runes of a string, so reversing the
      runes is the same as reversing the characters. */
  lemma DecodeReversed(s: string)
    ensures Decode(Reversed(s)) == Reversed(Decode(s))
  {
    var d := Decode(s);
    ReversedLength(s);
    forall k | 0 <= k < |s| ensures Decode(Reversed(s))[k] == d[|d| - 1 - k] {
      ReversedAt(s, k);
    }
    ReversedByIndex(d, Decode(Reversed(s)));
  }

  /** The empty input, single runes, and the package's test vectors,
      including the three-bytes-per-rune "世界", which is reordered as whole
      runes. */
  lemma ReversedExamples()
    ensures Reversed("") == ""
    ensures Reversed("a") == "a"
    ensures Reversed("ab") == "ba"
    ensures Reversed("Hello, world") == "dlrow ,olleH"
    ensures Reversed("Hello, 世界") == "界世 ,olleH"
  {
    ReversedByIndex("ab", "ba");
    ReversedByIndex("Hello, world", "dlrow ,olleH");
    ReversedByIndex("Hello, 世界", "界世 ,olleH");
  }
}
