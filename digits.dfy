/** Decimal digit characters and the digit filter applied to a CPF candidate
    before it is checked (`''.join(filter(str.isdigit, cpf))`). */
module Digits {

  /** A decimal digit value. */
  type Digit = d: int | 0 <= d <= 9

  /** The digit characters of the model's alphabet: ASCII '0'..'9'. */
  predicate IsDigit(c: char) {
    '0' <= c <= '9'
  }

  predicate AllDigits(s: string) {
    forall i :: 0 <= i < |s| ==> IsDigit(s[i])
  }

  /** `int(c)` for a single digit character. */
  function Value(c: char): Digit
    requires IsDigit(c)
  {
    (c as int) - ('0' as int)
  }

  /** `str(d)` for a single digit. */
  function Char(d: Digit): (c: char)
    ensures IsDigit(c) && Value(c) == d
  {
    (d + '0' as int) as char
  }

  lemma CharOfValue(c: char)
    requires IsDigit(c)
    ensures Char(Value(c)) == c
  {
  }

  /** Distinct digit characters have distinct values. */
  lemma ValueInjective(c: char, e: char)
    requires IsDigit(c) && IsDigit(e)
    ensures Value(c) == Value(e) <==> c == e
  {
  }

  /** The digit characters of `s`, in their original order. */
  function DigitsOf(s: string): (r: string)
    ensures AllDigits(r)
    ensures |r| <= |s|
  {
    if s == [] then []
    else if IsDigit(s[0]) then [s[0]] + DigitsOf(s[1..])
    else DigitsOf(s[1..])
  }

  /** A string of digits passes the filter unchanged. */
  lemma {:induction false} DigitsOfDigits(s: string)
    requires AllDigits(s)
    ensures DigitsOf(s) == s
  {
    if s != [] {
      DigitsOfDigits(s[1..]);
    }
  }

  /** A string without digits filters to nothing. */
  lemma {:induction false} DigitsOfNoDigits(s: string)
    requires forall i :: 0 <= i < |s| ==> !IsDigit(s[i])
    ensures DigitsOf(s) == []
  {
    if s != [] {
      DigitsOfNoDigits(s[1..]);
    }
  }

  /** Filtering twice is filtering once. */
  lemma DigitsOfIdempotent(s: string)
    ensures DigitsOf(DigitsOf(s)) == DigitsOf(s)
  {
    DigitsOfDigits(DigitsOf(s));
  }

  /** Filtering distributes over concatenation. */
  lemma {:induction false} DigitsOfConcat(a: string, b: string)
    ensures DigitsOf(a + b) == DigitsOf(a) + DigitsOf(b)
  {
    if a == [] {
      assert a + b == b;
    } else {
      assert (a + b)[1..] == a[1..] + b;
      DigitsOfConcat(a[1..], b);
    }
  }

  /** Inserting a non-digit character anywhere leaves the filtered digits
      unchanged (read right to left: so does removing one). */
  lemma {:induction false} NonDigitInsertion(s: string, i: nat, c: char)
    requires i <= |s|
    requires !IsDigit(c)
    ensures DigitsOf(s[..i] + [c] + s[i..]) == DigitsOf(s)
  {
    var pre, post := s[..i], s[i..];
    assert [c][1..] == [];
    assert DigitsOf([c]) == [];
    DigitsOfConcat(pre + [c], post);
    DigitsOfConcat(pre, [c]);
    DigitsOfConcat(pre, post);
    assert pre + post == s;
  }
}
