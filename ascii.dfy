/**
 * ASCII case folding, the part of Rust's `str::to_lowercase` that the model
 * covers: only 'A'..'Z' are changed, every other character is kept.
 */
module Ascii {

  predicate IsUpper(c: char) {
    'A' <= c <= 'Z'
  }

  function LowerChar(c: char): (d: char)
    ensures !IsUpper(d)
    ensures IsUpper(c) ==> d as int == c as int + 32
    ensures !IsUpper(c) ==> d == c
  {
    if IsUpper(c) then (c as int + 32) as char else c
  }

  /** No character of `s` is an ASCII upper-case letter. */
  predicate IsLower(s: string) {
    forall i :: 0 <= i < |s| ==> !IsUpper(s[i])
  }

  /** `s.to_lowercase()`, restricted to ASCII. */
  function ToLower(s: string): (r: string)
    ensures |r| == |s|
  {
    if s == [] then [] else [LowerChar(s[0])] + ToLower(s[1..])
  }

  /** Lower-casing keeps the length and works character by character. */
  lemma {:induction false} ToLowerAt(s: string)
    ensures |ToLower(s)| == |s|
    ensures forall i :: 0 <= i < |s| ==> ToLower(s)[i] == LowerChar(s[i])
  {
    if s != [] {
      ToLowerAt(s[1..]);
      forall i | 0 <= i < |s| ensures ToLower(s)[i] == LowerChar(s[i]) {
        if i > 0 {
          assert ToLower(s)[i] == ToLower(s[1..])[i - 1];
        }
      }
    }
  }

  /** The result of lower-casing has no upper-case letter. */
  lemma ToLowerIsLower(s: string)
    ensures IsLower(ToLower(s))
  {
    ToLowerAt(s);
  }

  /** Lower-casing is idempotent. */
  lemma ToLowerIdempotent(s: string)
    ensures ToLower(ToLower(s)) == ToLower(s)
  {
    ToLowerAt(s);
    ToLowerAt(ToLower(s));
  }

  /** A string is its own lower-case form exactly when it has no upper-case letter. */
  lemma ToLowerFixpoint(s: string)
    ensures ToLower(s) == s <==> IsLower(s)
  {
    ToLowerAt(s);
    if IsLower(s) {
      assert forall i :: 0 <= i < |s| ==> ToLower(s)[i] == s[i];
    } else {
      var i :| 0 <= i < |s| && IsUpper(s[i]);
      assert ToLower(s)[i] != s[i];
    }
  }

  /**
   * Two strings are equal ignoring ASCII case when they have the same length and
   * at each position the characters are equal or are the upper- and lower-case
   * forms of the same letter.
   */
  predicate EqualIgnoringCase(a: string, b: string) {
    |a| == |b| &&
    forall i :: 0 <= i < |a| ==>
      a[i] == b[i] ||
      (IsUpper(a[i]) && b[i] as int == a[i] as int + 32) ||
      (IsUpper(b[i]) && a[i] as int == b[i] as int + 32)
  }

  /** Lower-casing identifies exactly the strings that are equal ignoring case. */
  lemma ToLowerCaseInsensitive(a: string, b: string)
    ensures ToLower(a) == ToLower(b) <==> EqualIgnoringCase(a, b)
  {
    ToLowerAt(a);
    ToLowerAt(b);
    if ToLower(a) == ToLower(b) {
      assert forall i :: 0 <= i < |a| ==> LowerChar(a[i]) == LowerChar(b[i]);
    }
    if EqualIgnoringCase(a, b) {
      assert forall i :: 0 <= i < |a| ==> ToLower(a)[i] == ToLower(b)[i];
    }
  }
}
