/** The Internet checksum of the measurement script (scripts/paper-runtime.py, `checksum`) against the
    one's-complement sum of section 1 of RFC 1071. */
module Checksum {

  type word = x: int | 0 <= x < 65536

  type octet = x: int | 0 <= x < 256

  /** One's-complement addition of 16-bit words: the carry comes back in at the low end. */
  function OnesAdd(a: word, b: word): word {
    if a + b < 65536 then a + b else a + b - 65535
  }

  /** The one's-complement sum of the words. */
  function OnesSum(words: seq<word>): word {
    if |words| == 0 then 0 else OnesAdd(OnesSum(words[..|words| - 1]), words[|words| - 1])
  }

  /** The plain sum of the words. */
  function Total(words: seq<word>): nat {
    if |words| == 0 then 0 else Total(words[..|words| - 1]) + words[|words| - 1]
  }

  /** The two folds of the script, on an unbounded integer, and the 16 low bits of the result. */
  function Folded(total: nat): word {
    var once := total / 65536 + total % 65536;
    (once + once / 65536) % 65536
  }

  function Pair(high: octet, low: octet): word {
    var h: int, l: int := high, low;
    h * 256 + l
  }

  /** The words of a byte string in network order; an odd one is padded with a zero byte. */
  function Words(payload: seq<octet>): (w: seq<word>)
    ensures |w| == (|payload| + 1) / 2
  {
    if |payload| == 0 then []
    else if |payload| == 1 then [Pair(payload[0], 0)]
    else [Pair(payload[0], payload[1])] + Words(payload[2..])
  }

  lemma TotalStart(words: seq<word>)
    ensures Total(words[..0]) == 0
  {
  }

  lemma TotalStep(words: seq<word>, i: nat)
    requires i < |words|
    ensures Total(words[..i + 1]) == Total(words[..i]) + words[i]
  {
    assert words[..i + 1][..i] == words[..i];
  }

  /** `checksum`: sum, fold twice, complement. */
  method Compute(payload: seq<octet>) returns (c: word)
    ensures c == 65535 - Folded(Total(Words(payload)))
    ensures |payload| <= 131072 ==> c == 65535 - OnesSum(Words(payload))
  {
    hide Total, OnesSum, Words;
    var words := Words(payload);
    TotalStart(words);
    var total: nat := 0;
    for i := 0 to |words|
      invariant total == Total(words[..i])
    {
      TotalStep(words, i);
      total := total + words[i];
    }
    assert words[..|words|] == words;
    if |payload| <= 131072 { FoldIsOnesSum(words); }
    total := total / 65536 + total % 65536;
    total := total + total / 65536;
    c := 65535 - total % 65536;
  }

  // ----- the fold is the one's-complement sum -----

  /** The representative a one's-complement sum keeps of a total: 0 only for 0. */
  function Residue(total: nat): word {
    if total == 0 then 0 else (total - 1) % 65535 + 1
  }

  lemma {:induction false} OnesSumIsResidue(words: seq<word>)
    ensures OnesSum(words) == Residue(Total(words))
  {
    if |words| > 0 { OnesSumIsResidue(words[..|words| - 1]); }
  }

  lemma {:induction false} TotalBound(words: seq<word>)
    ensures Total(words) <= 65535 * |words|
  {
    if |words| > 0 { TotalBound(words[..|words| - 1]); }
  }

  /** The second partial sum: the low half of the first fold and the carry out of it, before the last bits
      are cut off. */
  function SecondSum(total: nat): nat {
    var once := total / 65536 + total % 65536;
    once % 65536 + once / 65536
  }

  /** Folding a total twice yields its one's-complement sum exactly when the second partial sum fits a word,
      or what is cut off counts nothing and something is left. */
  lemma FoldExactly(total: nat)
    ensures Folded(total) == Residue(total) <==>
            SecondSum(total) < 65536 || (SecondSum(total) / 65536 % 65535 == 0 && SecondSum(total) % 65536 > 0)
  {
    var once := total / 65536 + total % 65536;
    var again := SecondSum(total);
    var k := again / 65536;
    var s := Folded(total);
    assert total == 65535 * (total / 65536) + once;
    assert once + once / 65536 == 65536 * (once / 65536) + again;
    FoldedIs(again, once / 65536);
    assert s == again - 65536 * k == again % 65536;
    assert once == again + 65535 * (once / 65536);
    if total > 0 {
      var carried := total / 65536 + once / 65536 + k;
      assert total == s + k + 65535 * carried;
      ResidueOf(total, s, k, carried);
    }
  }

  /** For anything shorter than 2 to the 44th words: exactly when the second partial sum fits a word. */
  lemma FoldExactlyFits(words: seq<word>)
    requires |words| < 0x1000_0000_0000
    ensures Folded(Total(words)) == OnesSum(words) <==> SecondSum(Total(words)) < 65536
  {
    var total := Total(words);
    TotalBound(words);
    OnesSumIsResidue(words);
    FoldExactly(total);
    var once := total / 65536 + total % 65536;
    assert once < 0x1000_0000_0000 + 65536;
    assert SecondSum(total) < 65535 * 65536;
  }

  lemma {:induction false} TotalOfRepeated(n: nat, w: word)
    ensures Total(seq(n, _ => w)) == n * w
  {
    if n > 0 {
      TotalOfRepeated(n - 1, w);
      assert seq(n, _ => w)[..n - 1] == seq(n - 1, _ => w);
    }
  }

  lemma {:induction false} WordsOfOnes(n: nat)
    ensures Words(seq(2 * n, _ => 255) + [0, 2]) == seq(n, _ => 65535) + [2]
  {
    var payload: seq<octet> := seq(2 * n, _ => 255) + [0, 2];
    if n == 0 {
      assert payload == [0, 2] && payload[2..] == [];
    } else {
      WordsOfOnes(n - 1);
      assert payload[2..] == seq(2 * (n - 1), _ => 255) + [0, 2];
    }
  }

  /** Data the two folds do not bring down to its one's-complement sum: 262150 bytes of all ones, then 0 and 2. */
  lemma FoldCanFail(payload: seq<octet>)
    requires payload == seq(262150, _ => 255) + [0, 2]
    ensures Folded(Total(Words(payload))) == 1 && OnesSum(Words(payload)) == 2
  {
    var ones: seq<word> := seq(131075, _ => 65535);
    WordsOfOnes(131075);
    TotalOfRepeated(131075, 65535);
    assert (ones + [2])[..131075] == ones;
    assert Total(Words(payload)) == 131072 * 65536 + 65535;
    OnesSumIsResidue(Words(payload));
  }

  lemma FoldedIs(again: nat, carry: nat)
    ensures (65536 * carry + again) % 65536 == again - 65536 * (again / 65536)
  {
  }

  lemma ResidueOf(total: nat, s: word, k: nat, carried: nat)
    requires total > 0 && total == s + k + 65535 * carried
    ensures s == Residue(total) <==> k % 65535 == 0 && s != 0
  {
    var r := Residue(total);
    assert total == r + 65535 * ((total - 1) / 65535);
    if k % 65535 == 0 && s != 0 {
      assert k == 65535 * (k / 65535);
      SameWord(s, r, (total - 1) / 65535 - carried - k / 65535);
    }
  }

  lemma SameWord(s: word, r: word, d: int)
    requires s - r == 65535 * d && s > 0 && r > 0
    ensures s == r
  {
  }

  /** Below 2 to the 32nd a third fold never carries. */
  lemma FoldIsResidue(total: nat)
    requires total < 0x1_0000_0000
    ensures Folded(total) == Residue(total)
  {
    FoldExactly(total);
    var once := total / 65536 + total % 65536;
    assert once <= 131070;
    assert SecondSum(total) < 65536;
  }

  lemma FoldIsOnesSum(words: seq<word>)
    requires |words| <= 65536
    ensures Folded(Total(words)) == OnesSum(words)
  {
    TotalBound(words);
    OnesSumIsResidue(words);
    FoldIsResidue(Total(words));
  }

  // ----- writing the checksum into the data -----

  lemma {:induction false} TotalUpdate(words: seq<word>, i: nat, c: word)
    requires i < |words|
    ensures Total(words[i := c]) == Total(words) - words[i] + c
  {
    var n := |words| - 1;
    if i < n {
      TotalUpdate(words[..n], i, c);
      assert words[i := c][..n] == words[..n][i := c];
    } else {
      assert words[i := c][..n] == words[..n];
    }
  }

  /** Section 1 of RFC 1071: with the checksum written into a field that was zero, the checksum of the whole
      is zero. */
  lemma ChecksumVerifies(words: seq<word>, i: nat)
    requires |words| <= 65536 && i < |words| && words[i] == 0
    ensures 65535 - Folded(Total(words[i := 65535 - Folded(Total(words))])) == 0
  {
    var total := Total(words);
    var c := 65535 - Folded(total);
    TotalUpdate(words, i, c);
    TotalBound(words);
    TotalBound(words[i := c]);
    FoldIsResidue(total);
    FoldIsResidue(total + c);
    Complement(total);
  }

  lemma Complement(total: nat)
    ensures Residue(total + (65535 - Residue(total))) == 65535
  {
    var q := if total == 0 then 0 else (total - 1) / 65535;
    assert total + (65535 - Residue(total)) == 65535 * (q + 1);
    assert 65535 * (q + 1) - 1 == 65535 * q + 65534;
  }

  /** The data as bytes: even length, an even offset, two bytes replaced. */
  lemma {:induction false} WordsUpdate(payload: seq<octet>, i: nat, high: octet, low: octet)
    requires |payload| % 2 == 0 && 2 * i + 1 < |payload|
    ensures Words(payload[2 * i := high][2 * i + 1 := low]) == Words(payload)[i := Pair(high, low)]
  {
    var updated := payload[2 * i := high][2 * i + 1 := low];
    if i == 0 {
      assert updated[2..] == payload[2..];
    } else {
      WordsUpdate(payload[2..], i - 1, high, low);
      assert updated[2..] == payload[2..][2 * (i - 1) := high][2 * (i - 1) + 1 := low];
    }
  }

  lemma {:induction false} FieldIsWord(payload: seq<octet>, i: nat)
    requires 2 * i + 1 < |payload|
    ensures Words(payload)[i] == Pair(payload[2 * i], payload[2 * i + 1])
  {
    if i > 0 {
      FieldIsWord(payload[2..], i - 1);
      assert payload[2..][2 * (i - 1)] == payload[2 * i] && payload[2..][2 * (i - 1) + 1] == payload[2 * i + 1];
    }
  }

  /** Writing what `Compute` returns into a zero field and computing again gives zero. */
  method WriteAndCheck(payload: seq<octet>, i: nat) returns (again: word)
    requires |payload| % 2 == 0 && |payload| <= 131072 && 2 * i + 1 < |payload|
    requires payload[2 * i] == 0 && payload[2 * i + 1] == 0
    ensures again == 0
  {
    hide Total, Words, Folded, OnesSum;
    var c := Compute(payload);
    var high: octet, low: octet := c / 256, c % 256;
    assert Pair(high, low) == c;
    FieldIsWord(payload, i);
    WordsUpdate(payload, i, high, low);
    ChecksumVerifies(Words(payload), i);
    again := Compute(payload[2 * i := high][2 * i + 1 := low]);
  }

  /** The worked example of section 3 of RFC 1071: eight bytes whose one's-complement sum is 0xddf2. */
  method StandardExample() returns (c: word)
    ensures c == 65535 - 0xddf2
  {
    var payload: seq<octet> := [0x00, 0x01, 0xf2, 0x03, 0xf4, 0xf5, 0xf6, 0xf7];
    ExampleWords(payload);
    c := Compute(payload);
  }

  lemma ExampleWords(payload: seq<octet>)
    requires payload == [0x00, 0x01, 0xf2, 0x03, 0xf4, 0xf5, 0xf6, 0xf7]
    ensures Total(Words(payload)) == 0x2ddf0 && Folded(0x2ddf0) == 0xddf2
  {
    var words: seq<word> := [0x0001, 0xf203, 0xf4f5, 0xf6f7];
    hide Total;
    var three: seq<octet>, two: seq<octet>, one: seq<octet>, none: seq<octet> :=
      [0xf2, 0x03, 0xf4, 0xf5, 0xf6, 0xf7], [0xf4, 0xf5, 0xf6, 0xf7], [0xf6, 0xf7], [];
    assert payload[2..] == three && three[2..] == two && two[2..] == one && one[2..] == none;
    assert Words(one) == [Pair(0xf6, 0xf7)] + Words(none);
    assert Words(two) == [Pair(0xf4, 0xf5)] + Words(one);
    assert Words(three) == [Pair(0xf2, 0x03)] + Words(two);
    assert Words(payload) == [Pair(0x00, 0x01)] + Words(three);
    assert Words(payload) == words;
    ExampleTotal(words);
  }

  lemma ExampleTotal(words: seq<word>)
    requires words == [0x0001, 0xf203, 0xf4f5, 0xf6f7]
    ensures Total(words) == 0x2ddf0
  {
    hide Total;
    TotalStart(words);
    TotalStep(words, 0);
    TotalStep(words, 1);
    TotalStep(words, 2);
    TotalStep(words, 3);
    assert words[..4] == words;
  }
}
