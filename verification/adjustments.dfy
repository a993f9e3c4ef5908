/**
 The adjustments applied to the walk's withholding, in the calculator's fixed
 order: first the flat per-child deduction with a clamp at zero, then the
 10% reduction for a married filer.
 */
module Adjustments {
  import opened Brackets
  import Text

  /** Deduction per dependent child. */
  const PerChild: real := 600.0

  /** Factor applied to the withholding of a married filer. */
  const MarriedFactor: real := 0.9

  /** The amount deducted for `children` dependants: its sign follows the
      child count, so a negative count deducts a negative amount. */
  function ChildDeduction(children: int): (d: real)
    ensures children >= 0 <==> d >= 0.0
    ensures children > 0 <==> d > 0.0
  {
    children as real * PerChild
  }

  /** Withholding after the child deduction, clamped so that it is never
      negative: the deducted amount when that is not negative, else zero. */
  function AfterChildDeduction(withholding: real, children: int): (r: real)
    ensures r >= 0.0
    ensures r >= withholding - 600.0 * children as real
    ensures r == 0.0 || r == withholding - 600.0 * children as real
  {
    Max(withholding - ChildDeduction(children), 0.0)
  }

  /** The marital status names a married filer when it lowers to "casado". */
  predicate IsMarried(status: string) {
    Text.Lower(status) == "casado"
  }

  /** Reference reading of a married status, with no case folding: six
      characters, each the letter of "casado" or its capital. */
  predicate SpellsCasado(status: string) {
    |status| == 6 && forall k :: 0 <= k < 6 ==> status[k] == "casado"[k] || status[k] == "CASADO"[k]
  }

  /** A married filer's withholding is reduced by 10%; any other status
      (any string that is not "casado" in some mix of cases) leaves it as it is. */
  function MaritalAdjustment(withholding: real, status: string): (r: real)
    ensures SpellsCasado(status) ==> r == 0.9 * withholding
    ensures !SpellsCasado(status) ==> r == withholding
  {
    IsMarriedIgnoresCase(status);
    if IsMarried(status) then withholding * MarriedFactor else withholding
  }

  /** Both adjustments, deduction first. */
  function Adjust(base: real, children: int, status: string): (r: real)
    ensures r >= 0.0
  {
    MaritalAdjustment(AfterChildDeduction(base, children), status)
  }

  /** The status matches exactly when it spells "casado" with each letter in
      either case, so "Casado" and "CASADO" match and "casada" does not. */
  lemma IsMarriedIgnoresCase(status: string)
    ensures IsMarried(status) <==> SpellsCasado(status)
  {
    var w := "casado";
    Text.LowerEqualsIgnoringCase(status, w);
    forall k | 0 <= k < 6
      ensures "CASADO"[k] as int == w[k] as int - 32
    {
    }
  }

  /** The adjustments compose in one order only: the deduction is clamped
      at zero first and the married factor scales the clamped amount. */
  lemma AdjustmentOrder(base: real, children: int, status: string)
    ensures IsMarried(status) ==> Adjust(base, children, status) == 0.9 * Max(base - 600.0 * children as real, 0.0)
    ensures !IsMarried(status) ==> Adjust(base, children, status) == Max(base - 600.0 * children as real, 0.0)
  {
  }

  /** With a non-negative withholding and child count the adjusted withholding
      lies between zero and the withholding it started from. */
  lemma AdjustWithinBase(base: real, children: int, status: string)
    requires base >= 0.0 && children >= 0
    ensures 0.0 <= Adjust(base, children, status) <= base
  {
  }

  /** The adjustments never reverse the order of two withholdings. */
  lemma AdjustMonotone(x: real, y: real, children: int, status: string)
    requires x <= y
    ensures Adjust(x, children, status) <= Adjust(y, children, status)
  {
  }

  /** A negative child count is not rejected: it turns the deduction into a
      surcharge on top of the withholding. */
  lemma NegativeChildrenRaiseWithholding(base: real, children: int)
    requires base >= 0.0 && children < 0
    ensures AfterChildDeduction(base, children) == base - 600.0 * children as real
    ensures AfterChildDeduction(base, children) > base
  {
  }

  /** Deducting before the discount differs from discounting first: for a
      married filer with 6577.5 of withholding and two children the result
      is 0.9 * (6577.5 - 1200) = 4839.75, where discounting first would give
      0.9 * 6577.5 - 1200 = 4719.75. */
  lemma MarriedTwoChildrenOrder()
    ensures Adjust(6577.5, 2, "casado") == 4839.75
    ensures Max(0.9 * 6577.5 - ChildDeduction(2), 0.0) == 4719.75
  {
    assert IsMarried("casado");
  }
}
