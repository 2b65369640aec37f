/**
 * Rust's `str::split("\r\n")`: the pieces between the leftmost non-overlapping
 * occurrences of CRLF, the piece before the first one and the piece after the
 * last one included (so there is always at least one piece).
 */
module Crlf {

  const CRLF: string := "\r\n"

  /** `s` has a CRLF starting at position `i`. */
  predicate CrlfAt(s: string, i: int) {
    0 <= i && i + 1 < |s| && s[i] == '\r' && s[i + 1] == '\n'
  }

  predicate NoCrlf(s: string) {
    forall i :: 0 <= i < |s| ==> !CrlfAt(s, i)
  }

  function Split(s: string): (r: seq<string>)
    ensures |r| >= 1
    decreases |s|
  {
    if CrlfAt(s, 0) then [""] + Split(s[2..])
    else if s == [] then [""]
    else
      var rest := Split(s[1..]);
      [[s[0]] + rest[0]] + rest[1..]
  }

  /** The pieces glued back together with CRLF between them. */
  function Join(ps: seq<string>): (s: string)
    requires |ps| >= 1
  {
    if |ps| == 1 then ps[0] else ps[0] + CRLF + Join(ps[1..])
  }

  predicate AllNoCrlf(ps: seq<string>) {
    forall i :: 0 <= i < |ps| ==> NoCrlf(ps[i])
  }

  /** A string without CRLF is one piece. */
  lemma {:induction false} SplitNoCrlf(p: string)
    requires NoCrlf(p)
    ensures Split(p) == [p]
  {
    if p != [] {
      assert !CrlfAt(p, 0);
      assert NoCrlf(p[1..]) by {
        forall i | 0 <= i < |p[1..]| ensures !CrlfAt(p[1..], i) {
          assert !CrlfAt(p, i + 1);
        }
      }
      SplitNoCrlf(p[1..]);
      assert [p[0]] + p[1..] == p;
    }
  }

  /** Splitting a piece without CRLF, a CRLF and a rest peels off that piece. */
  lemma {:induction false} SplitCons(p: string, rest: string)
    requires NoCrlf(p)
    ensures Split(p + CRLF + rest) == [p] + Split(rest)
    decreases |p|
  {
    var s := p + CRLF + rest;
    if p == [] {
      assert s == CRLF + rest;
      assert CrlfAt(s, 0);
      assert s[2..] == rest;
    } else {
      assert !CrlfAt(s, 0) by {
        if |p| == 1 {
          assert s[1] == '\r';
        } else {
          assert !CrlfAt(p, 0);
        }
      }
      assert NoCrlf(p[1..]) by {
        forall i | 0 <= i < |p[1..]| ensures !CrlfAt(p[1..], i) {
          assert !CrlfAt(p, i + 1);
        }
      }
      assert s[1..] == p[1..] + CRLF + rest;
      SplitCons(p[1..], rest);
      assert [p[0]] + p[1..] == p;
    }
  }

  /** Joining CRLF-free pieces and splitting again gives the pieces back. */
  lemma {:induction false} SplitJoin(ps: seq<string>)
    requires |ps| >= 1 && AllNoCrlf(ps)
    ensures Split(Join(ps)) == ps
  {
    if |ps| == 1 {
      SplitNoCrlf(ps[0]);
    } else {
      SplitJoin(ps[1..]);
      SplitCons(ps[0], Join(ps[1..]));
      assert [ps[0]] + ps[1..] == ps;
    }
  }

  /** A character in front of a CRLF-free piece adds no CRLF unless it is '\r' before '\n'. */
  lemma NoCrlfCons(c: char, p: string)
    requires NoCrlf(p)
    requires |p| > 0 && c == '\r' ==> p[0] != '\n'
    ensures NoCrlf([c] + p)
  {
    var q := [c] + p;
    forall i | 0 <= i < |q| ensures !CrlfAt(q, i) {
      if i > 0 {
        assert !CrlfAt(p, i - 1);
      }
    }
  }

  /** Joining a piece in front of at least one more puts a CRLF between them. */
  lemma JoinFront(p: string, rest: seq<string>)
    requires |rest| >= 1
    ensures Join([p] + rest) == p + CRLF + Join(rest)
  {
    assert ([p] + rest)[1..] == rest;
  }

  /** Gluing a character to the first piece glues it to the front of the join. */
  lemma JoinConsHead(c: char, p: string, rest: seq<string>)
    ensures Join([[c] + p] + rest) == [c] + Join([p] + rest)
  {
    if rest != [] {
      JoinFront([c] + p, rest);
      JoinFront(p, rest);
    }
  }

  /** The join starts with the first piece. */
  lemma JoinHead(ps: seq<string>)
    requires |ps| >= 1
    ensures |ps[0]| <= |Join(ps)| && Join(ps)[..|ps[0]|] == ps[0]
  {
    if |ps| > 1 {
      assert Join(ps) == ps[0] + (CRLF + Join(ps[1..]));
    }
  }

  /** The inductive step of `JoinSplit` for a string that does not start with CRLF. */
  lemma JoinSplitStep(s: string)
    requires s != [] && !CrlfAt(s, 0)
    requires Join(Split(s[1..])) == s[1..] && AllNoCrlf(Split(s[1..]))
    ensures Join(Split(s)) == s
    ensures AllNoCrlf(Split(s))
  {
    var rest := Split(s[1..]);
    assert Split(s) == [[s[0]] + rest[0]] + rest[1..];
    JoinConsHead(s[0], rest[0], rest[1..]);
    assert [rest[0]] + rest[1..] == rest;
    assert s == [s[0]] + s[1..];
    JoinHead(rest);
    assert |rest[0]| > 0 ==> rest[0][0] == s[1..][..|rest[0]|][0];
    NoCrlfCons(s[0], rest[0]);
    assert forall i :: 1 <= i < |Split(s)| ==> Split(s)[i] == rest[i];
  }

  /** Splitting and joining again gives the string back, and no piece holds a CRLF. */
  lemma {:induction false} JoinSplit(s: string)
    ensures Join(Split(s)) == s
    ensures AllNoCrlf(Split(s))
    decreases |s|
  {
    if CrlfAt(s, 0) {
      JoinSplit(s[2..]);
      assert s == CRLF + s[2..];
      assert Split(s)[1..] == Split(s[2..]);
      assert NoCrlf("");
    } else if s == [] {
      assert NoCrlf("");
    } else {
      JoinSplit(s[1..]);
      JoinSplitStep(s);
    }
  }
}
