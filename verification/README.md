# IRPF 2025 withholding calculator — a Dafny model

This project models `calcular_irpf_2025`, the function of the calculator
that turns a gross annual salary, a marital status, a number of children, a
number of payments and a region into five amounts: the gross salary, the
IRPF withholding, the social security contribution, the annual net salary
and the net salary per payment.

The model follows the function step by step:

- **Bracket walk** (`Brackets`, `Schedule2025`). A greedy pass over a fixed
  six-bracket table whose last bracket is unbounded. At each bracket the slice
  taken is the minimum of what is left and the bracket's limit, the slice is
  taxed at the bracket's rate, and the pass stops once nothing positive is
  left. `Brackets.Tax` is the walk as a recursive function and `Brackets.Walk`
  is the loop itself, proved equal to it.
- **Child deduction** (`Adjustments.AfterChildDeduction`). 600 per child is
  subtracted and the result is clamped at zero.
- **Marital factor** (`Adjustments.MaritalAdjustment`). The withholding is
  multiplied by 0.9 when the status lowers to `"casado"`.
- **Flat arithmetic** (`Calculator.Settle`). Social security is 6.35% of the
  gross salary. The annual net is the salary less the withholding and social
  security. The amount per payment is the annual net divided by the number of
  payments.

`Calculator.Calculate` chains these steps. A zero payment count makes the
source's division raise `ZeroDivisionError`; the model returns
`Outcome.ZeroDivisionError` in that case.

The table's limits (12450, 20200, 35200, 60000, 300000) are used as slice
capacities as they stand, not as widths between consecutive limits. The
walk therefore fills at the cumulative cut-offs 12450, 32650, 67850, 127850
and 427850 (`Schedule2025.ClosedForm`, `Schedule2025.SlicesAboveTopCutOff`).
For 30000 it withholds 12450 × 0.19 + 17550 × 0.24 = 6577.5 before
adjustments. Reading the limits as widths would instead give 12450 × 0.19 + 7750 × 0.24 + 9800 × 0.3 = 7165.5.
The model keeps the code's behaviour.

The model follows the code in other places too. The code has no input validation, so a
payment count of 13, a negative child count and a negative salary are all
accepted. It has no regional discount: the region is never read. It does not
clamp the net salary, which goes negative for a negative salary.

Amounts are exact `real`s. Children and payments are `int`s.

## Model

| member | source | states |
|---|---|---|
| Brackets.Take | main.py:21 | the slice is at most the remainder and at most a capped limit, and equals one of them: the minimum, with the limit itself as capacity |
| Brackets.Tax | main.py:16-23 | no contract of its own: `Brackets.Walk` proves the loop computes it, and `Brackets.TaxIsRatedSlices`, `Brackets.TaxNonNegative`, `Brackets.TaxMonotone`, `Brackets.TaxBetweenRates` and `Schedule2025.BaseIsClosedForm` pin it down |
| Brackets.Slices | main.py:19-23 | the walk takes at most one slice per bracket left; `Brackets.SlicesCover` and `Brackets.SlicesTakeFromRemainder` state what the slices are |
| Brackets.Walk | main.py:16-23 | the `for` loop with its early `break` accumulates exactly the recursive walk's withholding |
| Brackets.TaxIsRatedSlices | main.py:21-22 | the accumulated withholding is the sum of each slice taken times its bracket's rate |
| Brackets.SlicesCover | main.py:13-23 | over a table whose last bracket is unbounded, a positive amount gives at least one slice, every slice is positive, and the slices sum to exactly the amount |
| Brackets.SlicesTakeFromRemainder | main.py:19-23 | slice k is the minimum of the remainder before it (amount less earlier slices) and its bracket's limit, and that remainder is positive |
| Brackets.RemainderNeverNegative | main.py:17-23 | for a positive amount, the amount less any prefix of the slices is never negative |
| Brackets.TaxNonNegative | main.py:16-23 | with non-negative rates and positive limits the walk's withholding is never negative |
| Brackets.TaxMonotone | main.py:18-23 | the walk's withholding never decreases as the amount grows |
| Brackets.TaxBetweenRates | main.py:18-23 | when every rate lies in [lo, hi], the withholding on a positive amount lies between lo and hi times the amount |
| Schedule2025.BaseWithholding | main.py:7-23 | no contract of its own: the walk over the 2025 table, pinned down by `Schedule2025.BaseIsClosedForm`, `Schedule2025.BaseBounds` and `Schedule2025.BaseMonotone` |
| Schedule2025.TableWellFormed | main.py:7-14 | the 2025 table is non-empty, has positive limits and non-negative rates, and ends with the unbounded bracket |
| Schedule2025.BaseIsClosedForm | main.py:7-23 | for every salary the walk equals a piecewise-linear reference over the cumulative cut-offs 12450, 32650, 67850, 127850, 427850 |
| Schedule2025.Salary30000 | main.py:21-22 | salary 30000 is split into slices 12450 and 17550 and withholds 6577.5 before adjustments |
| Schedule2025.SlicesAboveTopCutOff | main.py:7-23 | above 427850 every capped bracket takes its full limit and the unbounded one takes the excess |
| Schedule2025.BaseBounds | main.py:7-20 | withholding is 0 for a salary that is not positive; otherwise it lies between 19% and 47% of the salary |
| Schedule2025.BaseMonotone | main.py:7-23 | withholding before adjustments never decreases as the salary grows |
| Schedule2025.SalaryCovered | main.py:13-23 | for a positive salary the 2025 walk's slices are positive, sum to the salary, and never overdraw the remainder |
| Text.Lower | main.py:28 | lowering keeps the length, leaves no ASCII capital in the result, keeps every other character, and maps each capital to the letter 32 code points above it |
| Text.LowerIdempotent | main.py:28 | lowering an already lowered string changes nothing |
| Text.LowerEqualsIgnoringCase | main.py:28 | a string lowers to a lower-case word exactly when each character is that word's letter or its capital |
| Adjustments.AfterChildDeduction | main.py:25-26 | the result is never negative, is at least the withholding less 600 per child, and is either that difference or zero |
| Adjustments.MaritalAdjustment | main.py:28-29 | a status spelling "casado" with each letter in either case gives 0.9 times the withholding; any other string leaves it unchanged |
| Adjustments.Adjust | main.py:25-29 | the adjusted withholding is never negative |
| Adjustments.IsMarried | main.py:28 | no contract of its own: the lowered status equals "casado"; `Adjustments.IsMarriedIgnoresCase` states what that means |
| Adjustments.IsMarriedIgnoresCase | main.py:28 | the status counts as married exactly when it spells "casado" with each letter in either case |
| Adjustments.ChildDeduction | main.py:25 | the deduction is non-negative exactly when the child count is, and positive exactly when the count is; its 600-per-child size is stated by `Adjustments.AfterChildDeduction` |
| Adjustments.AdjustmentOrder | main.py:25-29 | the deduction and clamp come first and the 0.9 factor scales the clamped amount |
| Adjustments.AdjustWithinBase | main.py:25-29 | with non-negative withholding and children the adjusted amount lies between 0 and the withholding |
| Adjustments.AdjustMonotone | main.py:25-29 | the adjustments preserve the order of two withholdings |
| Adjustments.NegativeChildrenRaiseWithholding | main.py:25-26 | a negative child count is not rejected and raises the withholding by 600 per child |
| Adjustments.MarriedTwoChildrenOrder | main.py:25-29 | married with two children on 6577.5 gives 4839.75, where discounting before deducting would give 4719.75 |
| Calculator.Settle | main.py:31-33 | social security is 6.35% of the salary, net is salary less withholding and social security, payments times the per-payment amount give back the net, and zero payments is an error |
| Calculator.Calculate | main.py:6-33 | zero payments is the only error; otherwise the gross is the salary, withholding is non-negative, social security is 6.35% of the salary, net is salary less both, and the per-payment amounts add up to the net |
| Calculator.WithholdingOrder | main.py:25-29 | the reported withholding is the walk's withholding less 600 per child, clamped at zero, times 0.9 when married |
| Calculator.RegionIgnored | main.py:6 | two calls that differ only in the region give the same outcome |
| Calculator.SocialSecurityIndependent | main.py:31 | social security is 6.35% of the salary whatever the status, children, payments and region |
| Calculator.WithholdingMonotone | main.py:7-29 | for fixed modifiers the reported withholding never decreases as the salary grows |
| Calculator.WithholdingBounds | main.py:7-32 | with non-negative children, withholding is 0 for a salary that is not positive, at most 47% of a positive salary, and the net is non-negative for a non-negative salary |
| Calculator.NegativeSalaryNegativeNet | main.py:32 | salary −1000 withholds nothing and leaves a net of −936.5: the net is not clamped |
| Calculator.SingleSalary30000 | main.py:6-33 | single, 30000, no children, 12 payments: 6577.5 withheld, 1905 social security, 21517.5 net, 1793.125 per payment |
| Calculator.MarriedTwoChildrenSalary30000 | main.py:6-33 | "Casado", 30000, two children, 12 payments: 4839.75 withheld, 23255.25 net, 1937.9375 per payment |
| Calculator.ThirteenPaymentsAccepted | main.py:33 | 13 payments are accepted and 13 payment amounts add up to the net |

## Left out

- The Flask application, the `/calcular_irpf` route, the JSON request and response, and the key lookups on the request (main.py:1-4, 43-53). This is transport, not calculation.
- Server start-up and the `PORT` environment variable (main.py:55-57). This is process I/O.
- The formatting of each amount as `f"{x:,.2f}€"` (main.py:35-41). The model returns the five amounts as reals, because formatting is presentation only.
- IEEE-754 float rounding. Amounts are exact reals, so every equality above is exact rather than approximate.
- Non-finite inputs. The JSON decoder accepts `NaN` and `Infinity`, and the walk (main.py:21-23) then yields NaN amounts; exact reals have no such values, so this behaviour is not modelled.
- `float('inf')` is the `Unbounded` limit, which takes all of what is left.
- The default parameter values (main.py:6). The only caller passes all five arguments.
- Text.Lower: only ASCII capitals are lowered, where Python's `str.lower` lowers all of Unicode. The only use is the comparison with `"casado"`, and it gets the same verdict. No non-ASCII character lowers to one of the letters c, a, s, d, o. U+0130 lowers to two characters, the first of which is `i`.
- Non-numeric or fractional arguments. Children and payments are integers, salary is a real. The `TypeError` that Python raises for a non-numeric salary, child count or payment count is not modelled, nor is the `AttributeError` that a non-string marital status raises at `.lower()` (main.py:28).
- Input validation, a schedule-unavailable error, regional discounts and a floor on the net salary. The code has none of these, so the model adds none.
