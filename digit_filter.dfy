/**
 * The `restrictToNumbers` filter of the PIN-entry widget: the raw text of the
 * hidden text input is reduced to the matches of the regular expression
 * `[0-9]` (global flag), joined back together.
 */
module DigitFilter {

  predicate IsDigit(c: char) {
    '0' <= c <= '9'
  }

  /** The digits of `s`, in the order they occur. */
  function Digits(s: string): (r: string)
    ensures |r| <= |s|
    ensures forall i :: 0 <= i < |r| ==> IsDigit(r[i])
  {
    if s == [] then []
    else if IsDigit(s[0]) then [s[0]] + Digits(s[1..])
    else Digits(s[1..])
  }

  /** `r` can be obtained from `s` by deleting characters (greedy matching). */
  predicate IsSubsequence(r: string, s: string)
    decreases |s|
  {
    if r == [] then true
    else if s == [] then false
    else if r[0] == s[0] then IsSubsequence(r[1..], s[1..])
    else IsSubsequence(r, s[1..])
  }

  /** The filter keeps the original order: its output is a subsequence of its input. */
  lemma {:induction false} DigitsIsSubsequence(s: string)
    ensures IsSubsequence(Digits(s), s)
  {
    if s != [] {
      DigitsIsSubsequence(s[1..]);
      var rest := Digits(s[1..]);
      if IsDigit(s[0]) {
        assert Digits(s)[1..] == rest;
      } else if rest != [] {
        assert IsDigit(rest[0]);
      }
    }
  }

  /** Every digit occurs in the output exactly as often as in the input; nothing else occurs. */
  lemma {:induction false} DigitsCounts(s: string)
    ensures forall c :: multiset(Digits(s))[c] == if IsDigit(c) then multiset(s)[c] else 0
  {
    if s != [] {
      DigitsCounts(s[1..]);
      assert s == [s[0]] + s[1..];
      assert multiset(s) == multiset([s[0]]) + multiset(s[1..]);
      if IsDigit(s[0]) {
        assert multiset(Digits(s)) == multiset([s[0]]) + multiset(Digits(s[1..]));
      }
    }
  }

  /** Filtering distributes over concatenation: each character is judged on its own. */
  lemma {:induction false} DigitsConcat(a: string, b: string)
    ensures Digits(a + b) == Digits(a) + Digits(b)
  {
    if a == [] {
      assert a + b == b;
    } else {
      assert (a + b)[0] == a[0];
      assert (a + b)[1..] == a[1..] + b;
      DigitsConcat(a[1..], b);
    }
  }

  /** The filter leaves a text unchanged exactly when the text holds only digits. */
  lemma {:induction false} DigitsIdentity(s: string)
    ensures Digits(s) == s <==> forall i :: 0 <= i < |s| ==> IsDigit(s[i])
  {
    if s != [] && forall i :: 0 <= i < |s| ==> IsDigit(s[i]) {
      assert forall i :: 0 <= i < |s[1..]| ==> IsDigit(s[1..][i]) by {
        forall i | 0 <= i < |s[1..]| ensures IsDigit(s[1..][i]) {
          assert s[1..][i] == s[i + 1];
        }
      }
      DigitsIdentity(s[1..]);
    }
  }

  /** Filtering twice is filtering once. */
  lemma DigitsIdempotent(s: string)
    ensures Digits(Digits(s)) == Digits(s)
  {
  }

  /** A mixed input keeps only its digits. */
  lemma DigitsOfMixedInput()
    ensures Digits("1a2b3c4d") == "1234"
  {
  }
}
