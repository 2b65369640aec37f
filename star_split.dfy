/**
 * Splitting a chunk at every match of the pattern `\*\d*` (the `regex`
 * crate's `Regex::split`): a `*` together with the longest run of ASCII digits
 * after it is a separator, matches are found left to right without overlap, and
 * the pieces before, between and after the matches are kept, empty ones too.
 */
module StarSplit {

  predicate IsDigit(c: char) {
    '0' <= c <= '9'
  }

  predicate AllDigits(s: string) {
    forall i :: 0 <= i < |s| ==> IsDigit(s[i])
  }

  predicate NoStar(s: string) {
    forall i :: 0 <= i < |s| ==> s[i] != '*'
  }

  /** The length of the longest run of digits at the start of `s`. */
  function DigitRun(s: string): (n: nat)
    ensures n <= |s|
    ensures AllDigits(s[..n])
    ensures n < |s| ==> !IsDigit(s[n])
  {
    if s != [] && IsDigit(s[0]) then 1 + DigitRun(s[1..]) else 0
  }

  function Split(s: string): (r: seq<string>)
    ensures |r| >= 1
    ensures forall i :: 0 <= i < |r| ==> NoStar(r[i])
    decreases |s|
  {
    if s == [] then [""]
    else if s[0] == '*' then [""] + Split(s[1 + DigitRun(s[1..])..])
    else
      var rest := Split(s[1..]);
      [[s[0]] + rest[0]] + rest[1..]
  }

  /** The number of `*` characters in `s`. */
  function StarCount(s: string): (n: nat)
  {
    if s == [] then 0 else (if s[0] == '*' then 1 else 0) + StarCount(s[1..])
  }

  lemma {:induction false} StarCountAppend(a: string, b: string)
    ensures StarCount(a + b) == StarCount(a) + StarCount(b)
  {
    if a != [] {
      assert (a + b)[1..] == a[1..] + b;
      StarCountAppend(a[1..], b);
    } else {
      assert a + b == b;
    }
  }

  lemma {:induction false} DigitsNoStar(d: string)
    requires AllDigits(d)
    ensures StarCount(d) == 0
  {
    if d != [] {
      DigitsNoStar(d[1..]);
    }
  }

  /** Every `*` is a split point and nothing else is: there is one piece more than there are stars. */
  lemma {:induction false} SplitCount(s: string)
    ensures |Split(s)| == 1 + StarCount(s)
    decreases |s|
  {
    if s == [] {
    } else if s[0] == '*' {
      var n := DigitRun(s[1..]);
      SplitCount(s[1 + n..]);
      assert s[1..] == s[1..][..n] + s[1 + n..];
      StarCountAppend(s[1..][..n], s[1 + n..]);
      DigitsNoStar(s[1..][..n]);
    } else {
      SplitCount(s[1..]);
    }
  }

  /** A piece without `*` is a single piece. */
  lemma {:induction false} SplitNoStar(p: string)
    requires NoStar(p)
    ensures Split(p) == [p]
  {
    if p != [] {
      SplitNoStar(p[1..]);
      assert [p[0]] + p[1..] == p;
    }
  }

  /** Text without `*` in front of a chunk joins the chunk's first piece. */
  lemma {:induction false} SplitPrefix(p: string, rest: string)
    requires NoStar(p)
    ensures Split(p + rest) == [p + Split(rest)[0]] + Split(rest)[1..]
  {
    if p == [] {
      assert p + rest == rest;
      assert p + Split(rest)[0] == Split(rest)[0];
      assert [Split(rest)[0]] + Split(rest)[1..] == Split(rest);
    } else {
      assert (p + rest)[1..] == p[1..] + rest;
      SplitPrefix(p[1..], rest);
      assert [p[0]] + (p[1..] + Split(rest)[0]) == p + Split(rest)[0];
    }
  }

  /** A `*`, its digits and a rest that does not start with a digit: one piece is closed, the rest is split on. */
  lemma SplitStarDigits(d: string, rest: string)
    requires AllDigits(d)
    requires rest != [] ==> !IsDigit(rest[0])
    ensures Split("*" + d + rest) == [""] + Split(rest)
  {
    var s := "*" + d + rest;
    assert s[1..] == d + rest;
    DigitRunPrefix(d, rest);
    assert s[1 + |d|..] == rest;
  }

  lemma {:induction false} DigitRunPrefix(d: string, rest: string)
    requires AllDigits(d)
    requires rest != [] ==> !IsDigit(rest[0])
    ensures DigitRun(d + rest) == |d|
  {
    if d == [] {
      assert d + rest == rest;
    } else {
      assert (d + rest)[1..] == d[1..] + rest;
      DigitRunPrefix(d[1..], rest);
    }
  }

  /** Splitting a piece without `*`, a separator and a rest: the piece comes first. */
  lemma SplitCons(p: string, d: string, rest: string)
    requires NoStar(p) && AllDigits(d)
    requires rest != [] ==> !IsDigit(rest[0])
    ensures Split(p + "*" + d + rest) == [p] + Split(rest)
  {
    var t := "*" + d + rest;
    assert p + "*" + d + rest == p + t;
    SplitStarDigits(d, rest);
    SplitBeforeSeparator(p, t);
  }

  lemma SplitBeforeSeparator(p: string, t: string)
    requires NoStar(p) && Split(t)[0] == ""
    ensures Split(p + t) == [p] + Split(t)[1..]
  {
    SplitPrefix(p, t);
    assert p + Split(t)[0] == p;
  }
}
