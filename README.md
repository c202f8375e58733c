# stringutil: rune-wise string reversal

The Go package `stringutil` reverses a string by codepoint (Go `rune`) rather
than by byte, so that multi-byte UTF-8 characters survive. It does so twice,
in two independent ways that share one doc contract, "returns its argument
string reversed rune-wise left to right":

- `NaiveReverse` decodes the string into a rune slice `r` of length `n`,
  allocates a fresh slice `rOut` of length `n` and fills it with an index loop,
  `rOut[i] = r[n-1-i]`.
- `BetterReverse` also allocates `rOut` of length `n`, then walks the string
  with `range`, which decodes one rune at a time, writing each rune at a cursor
  `i` that starts at `n-1` and is decremented after every write.

This project models both as Dafny methods that fill a freshly allocated
`array<Rune>` in a loop, as the Go code does, and proves each against one
reference definition, `Reversal.Reversed` (last element first, then the
reversal of the rest). About that definition it proves the index mapping,
length preservation, that the index mapping characterises it, involution,
multiset preservation and the test vectors. A client module derives from the
two methods' contracts alone that both pass the package's test vectors and
that they agree on every input.

Strings are Dafny `string`s: a sequence of Unicode scalar values, which is
what a valid UTF-8 Go string denotes. `Runes.Decode` is `[]rune(s)` (one rune
per character), `Runes.Encode` is `string(rOut)`, and Go's `range s` is
modelled as visiting the characters of `s` in order and converting each to a
rune, which yields the same rune sequence as `[]rune(s)`. The bounds checks
Go performs on `rOut[i]` and `r[n-1-i]` are Dafny's array and sequence index
obligations, so verification shows neither index leaves `[0, n)`.

Files: `runes.dfy` (module `Runes`), `reversal.dfy` (module `Reversal`),
`naive_reverse.dfy` (module `Naive`), `better_reverse.dfy` (module `Better`),
`reverse_tests.dfy` (module `ReverseTests`).

## Model

| member | source | states |
|---|---|---|
| `Naive.NaiveReverse` | stringutil/naive_reverse.go:4-12 | the result has as many runes as the input, its rune `i` is input rune `n-1-i`, i.e. its runes are `Reversed` of the input's; every read `r[n-1-i]` and write `rOut[i]` is in bounds; no existing object is modified |
| `Better.BetterReverse` | stringutil/better_reverse.go:4-14 | same result contract as NaiveReverse (as many runes as the input, rune `i` is input rune `n-1-i`, i.e. `Reversed` of the input's runes); beyond the contract, the body's loop invariants and assertions prove that the cursor is in `[0, n)` at every write, the `k`-th rune visited goes to `n-1-k`, each position is written exactly once and the cursor ends at -1 |
| `Reversal.ReversedAt` | stringutil/naive_reverse.go:8-10 | reversal keeps the length and places input position `n-1-k` at output position `k` |
| `Reversal.ReversedLength` | stringutil/naive_reverse.go:5-7 | the reversal of any sequence, the empty one included, has its length |
| `Reversal.ReversedByIndex` | stringutil/better_reverse.go:7-12 | any sequence of length `n` whose position `k` holds input position `n-1-k` is the reversal: the index loops' final buffers are exactly `Reversed` |
| `Reversal.ReversedTwice` | stringutil/naive_reverse.go:3-10 | reversing twice returns the original sequence |
| `Reversal.ReversedMultiset` | stringutil/naive_reverse.go:3 | the reversal has exactly the same multiset of elements as the input |
| `Reversal.DecodeReversed` | stringutil/naive_reverse.go:5 | taking the runes of the reversed characters equals reversing the runes, so reversal is by whole codepoint |
| `Reversal.ReversedExamples` | stringutil/naive_reverse_test.go:12-14 | the package's three vectors `"Hello, world" -> "dlrow ,olleH"`, `"Hello, 世界" -> "界世 ,olleH"`, `"" -> ""`; also two added cases not in the tests, a single rune `"a" -> "a"` and two runes `"ab" -> "ba"` |
| `Runes.EncodeDecode` | stringutil/better_reverse.go:5 | `[]rune(s)` loses nothing: converting a string to runes and back with `string(...)` gives the same string |
| `Runes.DecodeEncode` | stringutil/naive_reverse.go:11 | `string(r)` loses nothing: converting runes to a string and back with `[]rune(...)` gives the same runes |
| `Runes.DecodeInjective` | stringutil/better_reverse.go:13 | two strings with the same runes are equal, so a result is determined by its runes |
| `ReverseTests.ReversedResult` | stringutil/naive_reverse.go:3 | a result whose runes are the reversed runes of `s` is the string `s` reversed character by character |
| `ReverseTests.TestNaiveReverse` | stringutil/naive_reverse_test.go:8-19 | NaiveReverse passes all three test vectors |
| `ReverseTests.TestBetterReverse` | stringutil/better_reverse_test.go:5-18 | BetterReverse passes all three test vectors |
| `ReverseTests.ReversersAgree` | stringutil/better_reverse.go:3-14 | BetterReverse and NaiveReverse return the same string on every input, and reversing that string gives the input back |

## Left out

- UTF-8 byte-level decoding and encoding (`[]rune(s)`, `range` over a string, `string(rOut)`): Go runtime facilities, modelled only by their effect on codepoints.
- Invalid UTF-8 and the runtime's U+FFFD substitution: strings are sequences of Unicode scalar values, so malformed input cannot be expressed.
- The byte offset that `range` yields alongside each rune: `BetterReverse` discards it.
- `Utf8Reverse`: its tests exist, but its implementation is not part of this model.
- Benchmarks: they measure time, not behaviour.
- The testify `assert` helper used by the NaiveReverse test: a foreign test library; the test is modelled by its outcome.
- Go's `int` width: rune counts are unbounded integers here; no string Go can hold has more runes than a 64-bit `int` counts.
