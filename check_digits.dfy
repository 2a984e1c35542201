/** The nested helper `calcular_digito`: a weighted digit sum reduced to one
    check digit by the mod-11 rule. */
module CheckDigits {
  import opened Digits

  /** The weighted sum the loop accumulates: the digit at position i is
      multiplied by `w - i`. While every weight is positive (as with the
      initial weights 10 and 11 over 9 and 10 digits) the sum is never
      negative. */
  function WeightedSum(s: string, w: int): (r: int)
    requires AllDigits(s)
    ensures w >= |s| ==> r >= 0
    decreases |s|
  {
    if s == [] then 0
    else Value(s[0]) * w + WeightedSum(s[1..], w - 1)
  }

  /** The mod-11 rule: 0 when the remainder is below 2, else 11 minus it.
      The divisor is positive, so Python's floored `%` and Dafny's `%` agree. */
  function CheckDigit(sum: int): (r: Digit)
    ensures (r == 0) == (sum % 11 < 2)
    ensures r != 0 ==> (sum + r) % 11 == 0
  {
    var rest := sum % 11;
    if rest < 2 then 0 else 11 - rest
  }

  /** The check digit of a sum is the unique digit that brings the sum to a
      multiple of 11, or 0 when that digit would have to be 10. */
  lemma CheckDigitCongruence(sum: int, d: int)
    ensures CheckDigit(sum) == d <==>
      (0 <= d <= 9 && ((sum + d) % 11 == 0 || (sum % 11 == 1 && d == 0)))
  {
    var rest := sum % 11;
    if 0 <= d <= 9 && (sum + d) % 11 == 0 {
      assert (rest + d) % 11 == 0;
      assert rest + d == 0 || rest + d == 11;
    }
  }

  /** `calcular_digito(cpf_parcial, peso_inicial)`. */
  method ComputeCheckDigit(partial: string, initialWeight: int) returns (d: Digit)
    requires AllDigits(partial)
    ensures d == CheckDigit(WeightedSum(partial, initialWeight))
  {
    var sum := 0;
    for i := 0 to |partial|
      invariant sum + WeightedSum(partial[i..], initialWeight - i) == WeightedSum(partial, initialWeight)
    {
      assert partial[i..][1..] == partial[i + 1..];
      sum := sum + Value(partial[i]) * (initialWeight - i);
    }
    var rest := sum % 11;
    d := if rest < 2 then 0 else 11 - rest;
  }
}
