/**
 The two calls into Go's strings package that the log-file naming code
 makes, restricted to the one-character arguments it passes:
 `strings.Index(s, ".")` and `strings.Replace(s, "\\", "_", -1)`.
 */
module Strings {

  /** The index of the first occurrence of `c` in `s`, or -1 when `c` does
      not occur, as `strings.Index` reports it for a one-character needle. */
  function Index(s: string, c: char): (i: int)
    ensures -1 <= i < |s|
    ensures i == -1 <==> c !in s
    ensures 0 <= i ==> s[i] == c && c !in s[..i]
  {
    if |s| == 0 then -1
    else if s[0] == c then 0
    else
      var j := Index(s[1..], c);
      assert j >= 0 ==> s[..j + 1] == [s[0]] + s[1..][..j];
      if j < 0 then -1 else j + 1
  }

  /** Every occurrence of `from` replaced by `to`, as `strings.Replace`
      does with a count of -1 for one-character arguments. */
  function ReplaceAll(s: string, from: char, to: char): (r: string)
    ensures |r| == |s|
    ensures forall i :: 0 <= i < |s| ==> r[i] == if s[i] == from then to else s[i]
  {
    if |s| == 0 then []
    else [if s[0] == from then to else s[0]] + ReplaceAll(s[1..], from, to)
  }

  /** Character-by-character string order, as Go's `<` compares strings;
      a proper prefix comes first. */
  predicate LexLess(a: string, b: string) {
    |b| > 0 && (|a| == 0 || a[0] < b[0] || (a[0] == b[0] && LexLess(a[1..], b[1..])))
  }

  /** Strings are compared by their first parts first when those have one
      length, and by the rest only when the first parts agree. */
  lemma {:induction false} LexLessConcat(a1: string, b1: string, a2: string, b2: string)
    requires |a1| == |a2|
    ensures LexLess(a1 + b1, a2 + b2) <==> LexLess(a1, a2) || (a1 == a2 && LexLess(b1, b2))
    decreases |a1|
  {
    if |a1| == 0 {
      assert a1 + b1 == b1 && a2 + b2 == b2;
    } else {
      assert (a1 + b1)[1..] == a1[1..] + b1;
      assert (a2 + b2)[1..] == a2[1..] + b2;
      LexLessConcat(a1[1..], b1, a2[1..], b2);
      assert a1 == a2 <==> a1[0] == a2[0] && a1[1..] == a2[1..];
    }
  }

  /** Concatenations with first parts of one length are equal exactly when
      both parts are. */
  lemma ConcatEqual(a1: string, b1: string, a2: string, b2: string)
    requires |a1| == |a2|
    ensures a1 + b1 == a2 + b2 <==> a1 == a2 && b1 == b2
  {
    if a1 + b1 == a2 + b2 {
      assert a1 == (a1 + b1)[..|a1|];
      assert b1 == (a1 + b1)[|a1|..];
    }
  }
}
