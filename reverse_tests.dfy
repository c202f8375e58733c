/** What the package's tests check, derived from the two reversers'
    contracts alone: both pass the same three vectors, and the two agree on
    every input. */
module ReverseTests {
  import opened Runes
  import opened Reversal
  import opened Naive
  import opened Better

  /** A reverser whose result has the runes of `s` reversed returns exactly
      the characters of `s` reversed. */
  lemma ReversedResult(s: string, res: string)
    requires Decode(res) == Reversed(Decode(s))
    ensures res == Reversed(s)
  {
    DecodeReversed(s);
    DecodeInjective(res, Reversed(s));
  }

  /** TestNaiveReverse: every vector matches its expected output. */
  method TestNaiveReverse() returns (passed: bool)
    ensures passed
  {
    ReversedExamples();
    var got1 := NaiveReverse("Hello, world");
    ReversedResult("Hello, world", got1);
    var got2 := NaiveReverse("Hello, 世界");
    ReversedResult("Hello, 世界", got2);
    var got3 := NaiveReverse("");
    ReversedResult("", got3);
    passed := got1 == "dlrow ,olleH" && got2 == "界世 ,olleH" && got3 == "";
  }

  /** TestBetterReverse: every vector matches its expected output. */
  method TestBetterReverse() returns (passed: bool)
    ensures passed
  {
    ReversedExamples();
    var got1 := BetterReverse("Hello, world");
    ReversedResult("Hello, world", got1);
    var got2 := BetterReverse("Hello, 世界");
    ReversedResult("Hello, 世界", got2);
    var got3 := BetterReverse("");
    ReversedResult("", got3);
    passed := got1 == "dlrow ,olleH" && got2 == "界世 ,olleH" && got3 == "";
  }

  /** The two reversers return the same string on every input, and that
      string reversed again is the input. */
  method ReversersAgree(s: string) returns (naive: string, better: string)
    ensures naive == better
    ensures Reversed(naive) == s
  {
    naive := NaiveReverse(s);
    better := BetterReverse(s);
    ReversedResult(s, naive);
    ReversedResult(s, better);
    ReversedTwice(s);
  }
}
