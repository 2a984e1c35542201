# CPF validation function, verified model

A Dafny model of a small Azure Functions app that validates Brazilian CPF
numbers (Cadastro de Pessoas Físicas, an 11-digit taxpayer number whose last
two digits are check digits).

- `Digits` models the first step of `valida_cpf`: keeping only the digit
  characters of the candidate, in order.
- `CheckDigits` models the nested helper `calcular_digito`. Its `for` loop is a
  method whose invariant ties the running sum `soma` to a weighted-sum
  function. The check digit follows the mod-11 rule: 0 when the remainder is
  below 2, otherwise 11 minus the remainder.
- `Cpf` states the CPF rule independently. `IsStandardCpf` requires eleven
  digits that are not all equal. The tenth digit must be the check digit of the
  first nine under the weight table 10..2. The eleventh must be the check digit
  of the first ten under 11..2. `ValidaCpf` follows the source step by step:
  - it returns early on the length test and the repeated-digit test;
  - it builds the second input as `cpf[:9] + str(digito1)`;
  - it compares the last two characters as strings.
  `ValidaCpf` is proved to return exactly `IsValidCpf`. The lemmas beside it
  cover these properties: the rejection cases, punctuation invariance,
  uniqueness of the check digits, the congruence form of the rule and the
  worked example 111.444.777-35.
- `Handler` models what `fnvalidacpf` decides: the (status, message) pair, or
  an exception that escapes, for each abstract outcome of reading the body.

Python's `%` floors and Dafny's is Euclidean. With the positive divisor 11
both give a remainder in 0..10, so the check-digit rule carries over
unchanged.

A non-empty JSON object whose `cpf` is missing or null does not get the message
"Por favor, informe um CPF.":
- `valida_cpf(None)` raises `TypeError`;
- the `except ValueError` at function_app.py:76 does not catch it, so the model
  gives the outcome `Unhandled` there.

Every all-equal 11-digit string satisfies both check-digit equations
(`RepeatedDigitsPassChecksum`). So the explicit test at function_app.py:24 is
what rejects them, not the checksum.

## Model

| member | source | states |
|---|---|---|
| `Digits.DigitsOf` | function_app.py:17 | the digit characters of the candidate: the result holds only digits and is no longer than the input; the lemmas below fix its order and contents |
| `Digits.DigitsOfConcat` | function_app.py:17 | filtering a concatenation is concatenating the filtered parts, so order is kept |
| `Digits.DigitsOfDigits` | function_app.py:17 | a string made only of digits passes the filter unchanged |
| `Digits.DigitsOfNoDigits` | function_app.py:17 | a string with no digit characters filters to the empty string |
| `Digits.DigitsOfIdempotent` | function_app.py:17 | filtering twice gives the same result as filtering once |
| `Digits.NonDigitInsertion` | function_app.py:17 | inserting or removing a non-digit character anywhere leaves the filtered digits unchanged |
| `CheckDigits.WeightedSum` | function_app.py:29-31 | digit i weighted by w - i, summed; never negative while every weight is positive |
| `CheckDigits.CheckDigit` | function_app.py:32-33 | the check digit lies in 0..9; it is 0 exactly when the remainder mod 11 is below 2; otherwise adding it makes the sum a multiple of 11 |
| `CheckDigits.CheckDigitCongruence` | function_app.py:32-33 | d is the check digit of a sum iff d is in 0..9 and either sum + d is a multiple of 11 or the remainder is 1 and d is 0 |
| `CheckDigits.ComputeCheckDigit` | function_app.py:28-33 | the loop's result is the check digit of the sum of digit i times (initial weight - i) |
| `Cpf.WeightedSumIsDot` | function_app.py:36-39 | the loop's weighted sum equals the dot product with a weight table that descends from the initial weight |
| `Cpf.ValidaCpf` | function_app.py:6-42 | returns true exactly when the candidate's digits obey the CPF rule (11 digits, not all equal, both check digits right) |
| `Cpf.WrongDigitCountRejected` | function_app.py:17-21 | a candidate with fewer or more than eleven digits is rejected |
| `Cpf.RepeatedDigitsRejected` | function_app.py:23-25 | a candidate whose digits are eleven copies of one digit is rejected, whatever its punctuation |
| `Cpf.RepeatedDigitsPassChecksum` | function_app.py:23-42 | eleven equal digits satisfy both check-digit equations, so only the repeated-digit test rejects them |
| `Cpf.PunctuationInvariance` | function_app.py:11-17 | adding or removing a non-digit character never changes the verdict |
| `Cpf.CheckDigitsDetermined` | function_app.py:35-42 | two valid CPFs that share their first nine digits have the same eleven digits |
| `Cpf.LastDigitChangeDetected` | function_app.py:39-42 | changing only the last digit of a valid CPF makes it invalid |
| `Cpf.CongruenceForm` | function_app.py:28-42 | the CPF rule restated as two mod-11 congruences on the weighted sums |
| `Cpf.KnownWeightedSums` | function_app.py:28-39 | for 111.444.777-35 the weighted sums are 162 and 204, the check digits 3 and 5, and its digits obey the CPF rule |
| `Cpf.FormattedDigits` | function_app.py:11-17 | the punctuated form xxx.xxx.xxx-xx of eleven digits filters back to those digits |
| `Cpf.FormattingInvariance` | function_app.py:11-17 | a CPF is valid in the form xxx.xxx.xxx-xx exactly when it is valid as bare digits |
| `Cpf.KnownFormatted` | function_app.py:11 | the punctuated form of "11144477735" is "111.444.777-35" |
| `Cpf.KnownValid` | function_app.py:6-42 | "11144477735" and its punctuated form "111.444.777-35" are valid |
| `Cpf.KnownInvalid` | function_app.py:39-42 | "11144477736" is invalid |
| `Cpf.KnownRejected` | function_app.py:17-25 | "00000000000", "111" and "" are invalid |
| `Handler.Respond` | function_app.py:45-80 | the outcome is `Unhandled` (an escaping exception) exactly for `WithoutCpf`, a non-empty object whose `cpf` is missing or null; otherwise the status is 200 or 400, and it is 200 exactly when the message is "CPF válido." |
| `Handler.MessagesDistinct` | function_app.py:51-74 | the four response messages are pairwise distinct |
| `Handler.RejectedBodies` | function_app.py:48-62 | a body that is not JSON gives 400 "JSON inválido."; an empty (falsy) body gives 400 "Por favor, informe um CPF para validação." |
| `Handler.AcceptedIffValid` | function_app.py:64-75 | the response is 200 "CPF válido." iff the body carries a cpf string that is a valid CPF |
| `Handler.CpfVerdict` | function_app.py:64-75 | a body with a cpf string gets 200 "CPF válido." when it is valid and 400 "CPF inválido." otherwise |
| `Handler.ResponseIgnoresPunctuation` | function_app.py:64-66 | punctuation in the cpf string never changes the response |
| `Handler.EndToEnd` | function_app.py:45-75 | {"cpf": "11144477735"} and {"cpf": "111.444.777-35"} give 200; "111" and "11144477736" give 400 "CPF inválido."; non-JSON gives 400 "JSON inválido."; {} gives 400 asking for a CPF |

## Left out

- Azure Functions plumbing: the app object, the route registration, `HttpRequest.get_json` and `HttpResponse`. These belong to the framework. The model takes the result of body parsing as the abstract `Request` value.
- `logging.info` and `print(req_body)`. These are output side effects that cannot change the response.
- Unicode digits. The model's digits are ASCII '0'..'9'. Python's `str.isdigit` also accepts other decimal and superscript digits, and `int` rejects some of those with `ValueError`. That error is the only thing the `except ValueError` at function_app.py:76-80 can catch, so the model has no path to its message "Por favor, informe um CPF.". The model treats a non-ASCII digit as a non-digit and drops it, as it drops punctuation, so the two verdicts can differ. For "١١١٤٤٤٧٧٧35", whose first nine characters are Arabic-Indic digits, the source keeps all eleven digits and returns True, while the model keeps only "35" and returns false. For "11144477735٣" the model keeps eleven digits and accepts, while the source sees twelve and rejects. "Non-digit" in `PunctuationInvariance` and `NonDigitInsertion` means any character outside '0'..'9'.
- Non-string `cpf` values and non-object JSON bodies. A missing or null `cpf` (`TypeError`) is modelled as `Unhandled`. Other cases are not modelled; the model's `cpf` is a string:
  - a number or boolean `cpf`;
  - a list of strings, which `filter` would iterate;
  - an object `cpf`, whose keys `filter` would iterate;
  - a truthy list, number, string or `true` body, which has no `.get` (`AttributeError`).
- Handler.Respond: the `Unhandled` outcome does not model the framework's own response to an escaping exception.
