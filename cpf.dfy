/** The CPF validator `valida_cpf`: a reference statement of the CPF rule and
    the validator proved to decide exactly that rule. */
module Cpf {
  import opened Digits
  import opened CheckDigits

  /** Weights of the first check digit, over digits 1..9. */
  const FirstWeights: seq<int> := [10, 9, 8, 7, 6, 5, 4, 3, 2]

  /** Weights of the second check digit, over digits 1..10. */
  const SecondWeights: seq<int> := [11, 10, 9, 8, 7, 6, 5, 4, 3, 2]

  /** The digit values of a string of digit characters. */
  function Values(s: string): (v: seq<Digit>)
    requires AllDigits(s)
    ensures |v| == |s|
    ensures forall i :: 0 <= i < |s| ==> v[i] == Value(s[i])
  {
    seq(|s|, i requires 0 <= i < |s| => Value(s[i]))
  }

  /** Sum of pairwise products. */
  function Dot(a: seq<int>, b: seq<int>): int
    requires |a| == |b|
  {
    if a == [] then 0 else a[0] * b[0] + Dot(a[1..], b[1..])
  }

  /** `x * n`: n copies of x (a string when x is a character). */
  function Repeat<T>(x: T, n: nat): (r: seq<T>)
    ensures |r| == n && forall i :: 0 <= i < n ==> r[i] == x
  {
    seq(n, _ => x)
  }

  predicate AllEqual(v: seq<Digit>) {
    forall i :: 0 <= i < |v| ==> v[i] == v[0]
  }

  /** The CPF rule on digit values: eleven digits, not all equal, the tenth the
      check digit of the first nine under weights 10..2 and the eleventh the
      check digit of the first ten under weights 11..2. */
  predicate IsStandardCpf(v: seq<Digit>) {
    |v| == 11 && !AllEqual(v) &&
    v[9] == CheckDigit(Dot(v[..9], FirstWeights)) &&
    v[10] == CheckDigit(Dot(v[..10], SecondWeights))
  }

  /** A candidate string is a valid CPF when its digits obey the CPF rule. */
  predicate IsValidCpf(s: string) {
    IsStandardCpf(Values(DigitsOf(s)))
  }

  /** The loop's weighted sum is the dot product with the descending weights. */
  lemma {:induction false} WeightedSumIsDot(s: string, w: int, ws: seq<int>)
    requires AllDigits(s)
    requires |ws| == |s|
    requires forall i :: 0 <= i < |ws| ==> ws[i] == w - i
    ensures WeightedSum(s, w) == Dot(Values(s), ws)
  {
    if s != [] {
      assert Values(s)[1..] == Values(s[1..]);
      WeightedSumIsDot(s[1..], w - 1, ws[1..]);
    }
  }

  /** `valida_cpf(cpf)`. */
  method ValidaCpf(cpf: string) returns (ok: bool)
    ensures ok == IsValidCpf(cpf)
  {
    var digits := DigitsOf(cpf);
    ghost var v := Values(digits);
    if |digits| != 11 {
      return false;
    }
    assert AllEqual(v) <==> digits == Repeat(digits[0], 11) by {
      forall i | 0 <= i < 11 {
        ValueInjective(digits[i], digits[0]);
      }
    }
    if digits == Repeat(digits[0], 11) {
      return false;
    }
    var d1 := ComputeCheckDigit(digits[..9], 10);
    var d2 := ComputeCheckDigit(digits[..9] + [Char(d1)], 11);
    ok := digits[9..] == [Char(d1), Char(d2)];

    WeightedSumIsDot(digits[..9], 10, FirstWeights);
    assert Values(digits[..9]) == v[..9];
    if digits[9] == Char(d1) {
      assert digits[..9] + [Char(d1)] == digits[..10];
      WeightedSumIsDot(digits[..10], 11, SecondWeights);
      assert Values(digits[..10]) == v[..10];
      CharOfValue(digits[10]);
      assert ok <==> digits[10] == Char(d2);
    } else {
      CharOfValue(digits[9]);
      assert v[9] != d1;
    }
  }

  /** A string of digits is a valid CPF exactly when its values obey the rule. */
  lemma ValidityOfDigitString(s: string, v: seq<Digit>)
    requires AllDigits(s) && Values(s) == v
    ensures IsValidCpf(s) == IsStandardCpf(v)
  {
    DigitsOfDigits(s);
  }

  /** Fewer or more than eleven digits is never a CPF. */
  lemma WrongDigitCountRejected(s: string)
    requires |DigitsOf(s)| != 11
    ensures !IsValidCpf(s)
  {
  }

  /** Eleven copies of one digit are rejected, whatever the punctuation. */
  lemma RepeatedDigitsRejected(s: string, c: char)
    requires IsDigit(c)
    requires DigitsOf(s) == Repeat(c, 11)
    ensures !IsValidCpf(s)
  {
    assert AllEqual(Values(DigitsOf(s)));
  }

  function Sum(ws: seq<int>): int {
    if ws == [] then 0 else ws[0] + Sum(ws[1..])
  }

  lemma {:induction false} DotOfRepeat(d: int, ws: seq<int>)
    ensures Dot(Repeat(d, |ws|), ws) == d * Sum(ws)
  {
    if ws != [] {
      assert Repeat(d, |ws|)[1..] == Repeat(d, |ws| - 1);
      DotOfRepeat(d, ws[1..]);
    }
  }

  /** When k + 1 is a multiple of 11, the check digit of k * d is d itself. */
  lemma CheckDigitOfScaled(d: Digit, k: int, m: int)
    requires k + 1 == 11 * m
    ensures CheckDigit(k * d) == d
  {
    assert k * d + d == 11 * (m * d);
    CheckDigitCongruence(k * d, d);
  }

  /** Nine copies of d, weighted 10..2, sum to 54 d, whose check digit is d. */
  lemma FirstCheckOfRepeat(d: Digit)
    ensures CheckDigit(Dot(Repeat<int>(d, 9), FirstWeights)) == d
  {
    DotOfRepeat(d, FirstWeights);
    assert Sum(FirstWeights) == 54;
    CheckDigitOfScaled(d, 54, 5);
  }

  /** Ten copies of d, weighted 11..2, sum to 65 d, whose check digit is d. */
  lemma SecondCheckOfRepeat(d: Digit)
    ensures CheckDigit(Dot(Repeat<int>(d, 10), SecondWeights)) == d
  {
    DotOfRepeat(d, SecondWeights);
    assert Sum(SecondWeights) == 65;
    CheckDigitOfScaled(d, 65, 6);
  }

  /** A run of eleven equal digits satisfies both check-digit equations, so
      the all-equal test alone is what rejects it. */
  lemma RepeatedDigitsPassChecksum(d: Digit)
    ensures var v := Repeat<Digit>(d, 11);
      v[9] == CheckDigit(Dot(v[..9], FirstWeights)) &&
      v[10] == CheckDigit(Dot(v[..10], SecondWeights))
  {
    var v := Repeat<Digit>(d, 11);
    assert v[..9] == Repeat<int>(d, 9);
    assert v[..10] == Repeat<int>(d, 10);
    FirstCheckOfRepeat(d);
    SecondCheckOfRepeat(d);
  }

  /** Adding or removing one non-digit character never changes the verdict. */
  lemma PunctuationInvariance(s: string, i: nat, c: char)
    requires i <= |s|
    requires !IsDigit(c)
    ensures IsValidCpf(s[..i] + [c] + s[i..]) == IsValidCpf(s)
  {
    NonDigitInsertion(s, i, c);
  }

  /** The first nine digits of a valid CPF determine the other two. */
  lemma CheckDigitsDetermined(s: string, t: string)
    requires IsValidCpf(s) && IsValidCpf(t)
    requires DigitsOf(s)[..9] == DigitsOf(t)[..9]
    ensures DigitsOf(s) == DigitsOf(t)
  {
    var a, b := DigitsOf(s), DigitsOf(t);
    var va, vb := Values(a), Values(b);
    assert va[..9] == vb[..9];
    assert va[9] == vb[9];
    assert va[..10] == vb[..10];
    assert va[10] == vb[10];
    forall i | 0 <= i < 11
      ensures a[i] == b[i]
    {
      ValueInjective(a[i], b[i]);
    }
  }

  /** Changing only the last digit of a valid CPF makes it invalid. */
  lemma LastDigitChangeDetected(s: string, t: string)
    requires IsValidCpf(s)
    requires |DigitsOf(t)| == 11
    requires DigitsOf(t)[..10] == DigitsOf(s)[..10]
    requires DigitsOf(t)[10] != DigitsOf(s)[10]
    ensures !IsValidCpf(t)
  {
    var a, b := DigitsOf(s), DigitsOf(t);
    if IsValidCpf(t) {
      assert a[..10][..9] == a[..9] && b[..10][..9] == b[..9];
      CheckDigitsDetermined(s, t);
      assert false;
    }
  }

  /** The CPF rule in the textbook form: each check digit makes its weighted
      sum a multiple of 11, or is 0 when that would take a 10. */
  lemma CongruenceForm(v: seq<Digit>)
    requires |v| == 11
    ensures IsStandardCpf(v) <==>
      !AllEqual(v) &&
      ((Dot(v[..9], FirstWeights) + v[9]) % 11 == 0 ||
       (Dot(v[..9], FirstWeights) % 11 == 1 && v[9] == 0)) &&
      ((Dot(v[..10], SecondWeights) + v[10]) % 11 == 0 ||
       (Dot(v[..10], SecondWeights) % 11 == 1 && v[10] == 0))
  {
    CheckDigitCongruence(Dot(v[..9], FirstWeights), v[9]);
    CheckDigitCongruence(Dot(v[..10], SecondWeights), v[10]);
  }

  /** The digit values of the worked example 111.444.777-35. */
  const Example: seq<Digit> := [1, 1, 1, 4, 4, 4, 7, 7, 7, 3, 5]

  lemma ExampleValues()
    ensures Values("11144477735") == Example
  {
  }

  lemma FirstSumOfExample()
    ensures Dot(Example[..9], FirstWeights) == 162
  {
    assert Example[..9] == [1, 1, 1, 4, 4, 4, 7, 7, 7];
    ExampleSums();
  }

  lemma SecondSumOfExample()
    ensures Dot(Example[..10], SecondWeights) == 204
  {
    assert Example[..10] == [1, 1, 1, 4, 4, 4, 7, 7, 7, 3];
    ExampleSums();
  }

  /** The two weighted sums of the example, one product at a time. */
  lemma ExampleSums()
    ensures Dot([1, 1, 1, 4, 4, 4, 7, 7, 7], FirstWeights) == 162
    ensures Dot([1, 1, 1, 4, 4, 4, 7, 7, 7, 3], SecondWeights) == 204
  {
    DotStep(7, 2, [], []);
    DotStep(7, 3, [7], [2]);
    DotStep(7, 4, [7, 7], [3, 2]);
    DotStep(4, 5, [7, 7, 7], [4, 3, 2]);
    DotStep(4, 6, [4, 7, 7, 7], [5, 4, 3, 2]);
    DotStep(4, 7, [4, 4, 7, 7, 7], [6, 5, 4, 3, 2]);
    DotStep(1, 8, [4, 4, 4, 7, 7, 7], [7, 6, 5, 4, 3, 2]);
    DotStep(1, 9, [1, 4, 4, 4, 7, 7, 7], [8, 7, 6, 5, 4, 3, 2]);
    DotStep(1, 10, [1, 1, 4, 4, 4, 7, 7, 7], [9, 8, 7, 6, 5, 4, 3, 2]);
    DotStep(3, 2, [], []);
    DotStep(7, 3, [3], [2]);
    DotStep(7, 4, [7, 3], [3, 2]);
    DotStep(7, 5, [7, 7, 3], [4, 3, 2]);
    DotStep(4, 6, [7, 7, 7, 3], [5, 4, 3, 2]);
    DotStep(4, 7, [4, 7, 7, 7, 3], [6, 5, 4, 3, 2]);
    DotStep(4, 8, [4, 4, 7, 7, 7, 3], [7, 6, 5, 4, 3, 2]);
    DotStep(1, 9, [4, 4, 4, 7, 7, 7, 3], [8, 7, 6, 5, 4, 3, 2]);
    DotStep(1, 10, [1, 4, 4, 4, 7, 7, 7, 3], [9, 8, 7, 6, 5, 4, 3, 2]);
    DotStep(1, 11, [1, 1, 4, 4, 4, 7, 7, 7, 3], [10, 9, 8, 7, 6, 5, 4, 3, 2]);
  }

  lemma DotStep(x: int, y: int, a: seq<int>, b: seq<int>)
    requires |a| == |b|
    ensures Dot([x] + a, [y] + b) == x * y + Dot(a, b)
  {
    assert ([x] + a)[1..] == a;
    assert ([y] + b)[1..] == b;
  }

  /** Worked example: 111.444.777-35 has weighted sums 162 and 204, giving
      check digits 3 and 5, so its digits obey the CPF rule. */
  lemma KnownWeightedSums()
    ensures Dot(Example[..9], FirstWeights) == 162 && CheckDigit(162) == 3
    ensures Dot(Example[..10], SecondWeights) == 204 && CheckDigit(204) == 5
    ensures IsStandardCpf(Example)
  {
    FirstSumOfExample();
    SecondSumOfExample();
    assert Example[3] != Example[0];
  }

  /** Eleven digits written in the documented punctuated form xxx.xxx.xxx-xx. */
  function Formatted(d: string): string
    requires |d| == 11
  {
    d[..3] + ['.'] + d[3..6] + ['.'] + d[6..9] + ['-'] + d[9..]
  }

  lemma {:induction false} FormattedDigits(d: string)
    requires |d| == 11 && AllDigits(d)
    ensures DigitsOf(Formatted(d)) == d
  {
    var a, b, c, e := d[..3], d[3..6], d[6..9], d[9..];
    var p1 := a + ['.'];
    var p2 := p1 + b;
    var p3 := p2 + ['.'];
    var p4 := p3 + c;
    var p5 := p4 + ['-'];
    assert Formatted(d) == p5 + e;
    DigitsOfNoDigits(['.']);
    DigitsOfNoDigits(['-']);
    DigitsOfDigits(a);
    DigitsOfDigits(b);
    DigitsOfDigits(c);
    DigitsOfDigits(e);
    DigitsOfConcat(a, ['.']);
    DigitsOfConcat(p1, b);
    DigitsOfConcat(p2, ['.']);
    DigitsOfConcat(p3, c);
    DigitsOfConcat(p4, ['-']);
    DigitsOfConcat(p5, e);
    assert a + b + c + e == d;
  }

  /** A CPF is valid in the punctuated form exactly when it is valid as bare
      digits. */
  lemma FormattingInvariance(d: string)
    requires |d| == 11 && AllDigits(d)
    ensures IsValidCpf(Formatted(d)) == IsValidCpf(d)
  {
    FormattedDigits(d);
    DigitsOfDigits(d);
  }

  lemma KnownFormatted()
    ensures Formatted("11144477735") == "111.444.777-35"
  {
  }

  /** 111.444.777-35 is valid, with or without its punctuation. */
  lemma KnownValid()
    ensures IsValidCpf("11144477735")
    ensures IsValidCpf(Formatted("11144477735"))
  {
    ExampleValues();
    ValidityOfDigitString("11144477735", Example);
    KnownWeightedSums();
    FormattingInvariance("11144477735");
  }

  lemma CorruptedValues()
    ensures Values("11144477736") == Example[..10] + [6]
  {
  }

  /** The example's digits with the last one changed from 5 to 6 break the
      CPF rule. */
  lemma CorruptedBreaksRule()
    ensures !IsStandardCpf(Example[..10] + [6])
  {
    var v := Example[..10] + [6];
    assert v[..10] == Example[..10];
    SecondSumOfExample();
  }

  /** Corrupting the last digit of 111.444.777-35 is detected. */
  lemma KnownInvalid()
    ensures !IsValidCpf("11144477736")
  {
    CorruptedValues();
    ValidityOfDigitString("11144477736", Example[..10] + [6]);
    CorruptedBreaksRule();
  }

  /** The short, the empty and the all-zero candidates are rejected. */
  lemma KnownRejected()
    ensures !IsValidCpf("00000000000")
    ensures !IsValidCpf("111")
    ensures !IsValidCpf("")
  {
    RepeatedDigitsRejected("00000000000", '0');
  }
}
