/**
 * Joining a list of tokens with a separator character, as Rust's
 * `[String]::join` does, and the splitting that undoes it.
 */
module Text {

  /** `s` does not contain `c`. */
  predicate Avoids(s: string, c: char) {
    forall i :: 0 <= i < |s| ==> s[i] != c
  }

  /** Every token is non-empty and free of the separator. */
  predicate Splittable(xs: seq<string>, c: char) {
    forall i :: 0 <= i < |xs| ==> |xs[i]| > 0 && Avoids(xs[i], c)
  }

  /** The tokens of `xs` with one `sep` between neighbours. */
  function Join(xs: seq<string>, sep: char): (s: string)
    ensures |xs| == 0 ==> s == ""
    ensures |xs| == 1 ==> s == xs[0]
  {
    if |xs| == 0 then ""
    else if |xs| == 1 then xs[0]
    else xs[0] + [sep] + Join(xs[1..], sep)
  }

  /** The maximal runs of `s` between occurrences of `c`. */
  function Split(s: string, c: char): (r: seq<string>)
    ensures |r| >= 1
    decreases |s|
  {
    if |s| == 0 then [""]
    else if s[0] == c then [""] + Split(s[1..], c)
    else
      var rest := Split(s[1..], c);
      [[s[0]] + rest[0]] + rest[1..]
  }

  /** A string without the separator is one field. */
  lemma {:induction false} SplitAvoiding(a: string, c: char)
    requires Avoids(a, c)
    ensures Split(a, c) == [a]
    decreases |a|
  {
    if |a| > 0 {
      SplitAvoiding(a[1..], c);
      assert [a[0]] + a[1..] == a;
    }
  }

  /** A separator after a field without the separator ends that field. */
  lemma {:induction false} SplitField(a: string, c: char, b: string)
    requires Avoids(a, c)
    ensures Split(a + [c] + b, c) == [a] + Split(b, c)
    decreases |a|
  {
    var s := a + [c] + b;
    if |a| == 0 {
      assert s[1..] == b;
    } else {
      assert s[1..] == a[1..] + [c] + b;
      SplitField(a[1..], c, b);
      assert [a[0]] + a[1..] == a;
    }
  }

  /** Splitting a joined list of splittable tokens gives the tokens back. */
  lemma {:induction false} SplitJoin(xs: seq<string>, c: char)
    requires |xs| > 0 && Splittable(xs, c)
    ensures Split(Join(xs, c), c) == xs
    decreases |xs|
  {
    if |xs| == 1 {
      SplitAvoiding(xs[0], c);
    } else {
      SplitField(xs[0], c, Join(xs[1..], c));
      SplitJoin(xs[1..], c);
      assert xs == [xs[0]] + xs[1..];
    }
  }
}
