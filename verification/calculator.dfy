/**
 The 2025 IRPF withholding calculator: the bracket walk over the 2025 table,
 the child deduction and marital factor, a flat social security contribution,
 and the annual and per-payment net salary. Amounts are exact reals.
 */
module Calculator {
  import opened Brackets
  import opened Schedule2025
  import opened Adjustments

  /** Social security contribution as a fraction of the gross salary. */
  const SocialSecurityRate: real := 0.0635

  /** The five amounts the calculator reports. */
  datatype Breakdown = Breakdown(
    gross: real,
    withholding: real,
    socialSecurity: real,
    netAnnual: real,
    netMonthly: real)

  /** Dividing the net salary by zero payments raises an error instead of
      producing a breakdown. */
  datatype Outcome = Computed(breakdown: Breakdown) | ZeroDivisionError

  /** The whole calculation. The region is accepted and never consulted. */
  function Calculate(salary: real, status: string, children: int, payments: int, region: string): (r: Outcome)
    ensures r.ZeroDivisionError? <==> payments == 0
    ensures r.Computed? ==>
      && r.breakdown.gross == salary
      && r.breakdown.withholding >= 0.0
      && r.breakdown.socialSecurity == 0.0635 * salary
      && r.breakdown.netAnnual == salary - r.breakdown.withholding - r.breakdown.socialSecurity
      && SplitsEvenly(r.breakdown.netMonthly, payments, r.breakdown.netAnnual)
  {
    Settle(salary, Adjust(BaseWithholding(salary), children, status), payments)
  }

  /** `payments` shares of `share` add up to exactly `total`. */
  predicate SplitsEvenly(share: real, payments: int, total: real) {
    share * payments as real == total
  }

  /** The breakdown for a salary once its final withholding is known: social
      security on the gross salary, the net left after both, and that net
      divided over the payments. */
  function Settle(salary: real, withholding: real, payments: int): (r: Outcome)
    ensures r.ZeroDivisionError? <==> payments == 0
    ensures r.Computed? ==>
      && r.breakdown.gross == salary
      && r.breakdown.withholding == withholding
      && r.breakdown.socialSecurity == 0.0635 * salary
      && r.breakdown.netAnnual == salary - withholding - r.breakdown.socialSecurity
      && SplitsEvenly(r.breakdown.netMonthly, payments, r.breakdown.netAnnual)
  {
    var socialSecurity := salary * SocialSecurityRate;
    var net := salary - withholding - socialSecurity;
    if payments == 0 then ZeroDivisionError
    else Computed(Breakdown(salary, withholding, socialSecurity, net, net / payments as real))
  }

  /** The reported withholding is the walk's withholding less 600 per child,
      clamped at zero, and then scaled by 0.9 for a married filer. */
  lemma WithholdingOrder(salary: real, status: string, children: int, payments: int, region: string)
    requires payments != 0
    ensures var w := Calculate(salary, status, children, payments, region).breakdown.withholding;
      && (IsMarried(status) ==> w == 0.9 * Max(BaseWithholding(salary) - 600.0 * children as real, 0.0))
      && (!IsMarried(status) ==> w == Max(BaseWithholding(salary) - 600.0 * children as real, 0.0))
  {
    AdjustmentOrder(BaseWithholding(salary), children, status);
  }

  /** The region has no effect on any output. */
  lemma RegionIgnored(salary: real, status: string, children: int, payments: int, region1: string, region2: string)
    ensures Calculate(salary, status, children, payments, region1) == Calculate(salary, status, children, payments, region2)
  {
  }

  /** Social security is 6.35% of the gross salary whatever the marital
      status, children and region. */
  lemma SocialSecurityIndependent(salary: real, status1: string, status2: string, children1: int, children2: int,
                                  payments1: int, payments2: int, region1: string, region2: string)
    requires payments1 != 0 && payments2 != 0
    ensures Calculate(salary, status1, children1, payments1, region1).breakdown.socialSecurity == 0.0635 * salary
    ensures Calculate(salary, status1, children1, payments1, region1).breakdown.socialSecurity
         == Calculate(salary, status2, children2, payments2, region2).breakdown.socialSecurity
  {
  }

  /** For fixed modifiers the reported withholding never decreases as the
      salary grows. */
  lemma WithholdingMonotone(x: real, y: real, status: string, children: int, payments: int, region: string)
    requires x <= y && payments != 0
    ensures Calculate(x, status, children, payments, region).breakdown.withholding
         <= Calculate(y, status, children, payments, region).breakdown.withholding
  {
    BaseMonotone(x, y);
    AdjustMonotone(BaseWithholding(x), BaseWithholding(y), children, status);
  }

  /** With a non-negative child count the reported withholding is zero for a
      salary that is not positive and at most 47% of a positive salary; the
      net salary is then never negative for a non-negative salary. */
  lemma WithholdingBounds(salary: real, status: string, children: int, payments: int, region: string)
    requires children >= 0 && payments != 0
    ensures var b := Calculate(salary, status, children, payments, region).breakdown;
      && (salary <= 0.0 ==> b.withholding == 0.0)
      && (salary > 0.0 ==> b.withholding <= 0.47 * salary)
      && (salary >= 0.0 ==> b.netAnnual >= 0.0)
  {
    BaseBounds(salary);
    if salary >= 0.0 {
      assert BaseWithholding(salary) >= 0.0;
      AdjustWithinBase(BaseWithholding(salary), children, status);
    }
  }

  /** The net salary is not clamped: a negative salary gives a negative net. */
  lemma NegativeSalaryNegativeNet()
    ensures Calculate(-1000.0, "soltero", 0, 12, "nacional").breakdown.withholding == 0.0
    ensures Calculate(-1000.0, "soltero", 0, 12, "nacional").breakdown.netAnnual == -936.5
  {
    BaseBounds(-1000.0);
    assert !IsMarried("soltero");
  }

  /** A single filer with 30000 and no children: 6577.5 withheld, 1905 social
      security, 21517.5 net a year, 1793.125 per payment over 12 payments. */
  lemma SingleSalary30000()
    ensures Calculate(30000.0, "soltero", 0, 12, "nacional")
         == Computed(Breakdown(30000.0, 6577.5, 1905.0, 21517.5, 1793.125))
  {
    Salary30000();
    assert !IsMarried("soltero");
  }

  /** A married filer ("Casado", any case) with 30000 and two children:
      0.9 * (6577.5 - 1200) = 4839.75 withheld. */
  lemma MarriedTwoChildrenSalary30000()
    ensures Calculate(30000.0, "Casado", 2, 12, "madrid")
         == Computed(Breakdown(30000.0, 4839.75, 1905.0, 23255.25, 1937.9375))
  {
    Salary30000();
    IsMarriedIgnoresCase("Casado");
  }

  /** Any non-zero number of payments is accepted; 13 is not rejected. */
  lemma ThirteenPaymentsAccepted(salary: real, status: string, children: int, region: string)
    ensures Calculate(salary, status, children, 13, region).Computed?
    ensures Calculate(salary, status, children, 13, region).breakdown.netMonthly * 13.0
         == Calculate(salary, status, children, 13, region).breakdown.netAnnual
  {
  }
}
