/**
 The fixed 2025 bracket table of the calculator and what the walk makes of
 it. Because every bracket's limit is used as a slice capacity on what is
 left, the slices fill up at the cumulative cut-offs 12450, 32650, 67850,
 127850 and 427850, and everything above 427850 is taxed at 47%.
 */
module Schedule2025 {
  import opened Brackets

  /** The six brackets, in the order the walk visits them. */
  const Table: seq<Bracket> := [
    Bracket(Cap(12450.0), 0.19),
    Bracket(Cap(20200.0), 0.24),
    Bracket(Cap(35200.0), 0.3),
    Bracket(Cap(60000.0), 0.37),
    Bracket(Cap(300000.0), 0.45),
    Bracket(Unbounded, 0.47)
  ]

  /** Withholding before any adjustment, as the walk computes it. */
  function BaseWithholding(salary: real): real {
    Tax(Table, 0, salary)
  }

  /** The part of `s` that lies between `lo` and `hi`. */
  function Portion(s: real, lo: real, hi: real): real {
    Min(Max(s - lo, 0.0), hi - lo)
  }

  /** A reference definition of the walk over `Table`, written as a
      piecewise-linear function of the salary over the cumulative cut-offs. */
  function ClosedForm(s: real): real {
    0.19 * Portion(s, 0.0, 12450.0)
    + 0.24 * Portion(s, 12450.0, 32650.0)
    + 0.3 * Portion(s, 32650.0, 67850.0)
    + 0.37 * Portion(s, 67850.0, 127850.0)
    + 0.45 * Portion(s, 127850.0, 427850.0)
    + 0.47 * Max(s - 427850.0, 0.0)
  }

  lemma TableWellFormed()
    ensures WellFormed(Table)
  {
  }

  /** The walk over `Table` agrees with the closed form for every salary. */
  lemma BaseIsClosedForm(s: real)
    ensures BaseWithholding(s) == ClosedForm(s)
  {
    if s <= 0.0 {
    } else if s <= 12450.0 {
      assert Tax(Table, 1, 0.0) == 0.0;
    } else if s <= 32650.0 {
      assert Tax(Table, 2, 0.0) == 0.0;
    } else if s <= 67850.0 {
      assert Tax(Table, 3, 0.0) == 0.0;
    } else if s <= 127850.0 {
      assert Tax(Table, 4, 0.0) == 0.0;
    } else if s <= 427850.0 {
      assert Tax(Table, 5, 0.0) == 0.0;
    } else {
      assert Tax(Table, 6, 0.0) == 0.0;
    }
  }

  /** For a salary of 30000 the first bracket takes its full 12450 and the
      second takes the remaining 17550 (its capacity is 20200, the limit
      itself), so the withholding before adjustments is 6577.5. */
  lemma Salary30000()
    ensures Slices(Table, 0, 30000.0) == [12450.0, 17550.0]
    ensures BaseWithholding(30000.0) == 6577.5
  {
    assert Slices(Table, 2, 0.0) == [];
    assert Tax(Table, 2, 0.0) == 0.0;
  }

  /** Above the last cumulative cut-off every capped bracket is filled to its
      own limit and the unbounded bracket takes the excess over 427850. */
  lemma SlicesAboveTopCutOff(s: real)
    requires s > 427850.0
    ensures Slices(Table, 0, s) == [12450.0, 20200.0, 35200.0, 60000.0, 300000.0, s - 427850.0]
  {
    assert Slices(Table, 6, 0.0) == [];
  }

  /** No withholding on a salary that is not positive; otherwise the
      withholding lies between 19% and 47% of the salary. */
  lemma BaseBounds(s: real)
    ensures s <= 0.0 ==> BaseWithholding(s) == 0.0
    ensures s > 0.0 ==> 0.19 * s <= BaseWithholding(s) <= 0.47 * s
  {
    if s > 0.0 {
      TaxBetweenRates(Table, 0, s, 0.19, 0.47);
    }
  }

  /** Withholding before adjustments never decreases as the salary grows. */
  lemma BaseMonotone(x: real, y: real)
    requires x <= y
    ensures BaseWithholding(x) <= BaseWithholding(y)
  {
    TaxMonotone(Table, 0, x, y);
  }

  /** For a positive salary the walk over `Table` splits the whole salary
      into positive slices, and the remainder never goes negative. */
  lemma SalaryCovered(s: real)
    requires s > 0.0
    ensures Sum(Slices(Table, 0, s)) == s
    ensures forall k :: 0 <= k < |Slices(Table, 0, s)| ==> Slices(Table, 0, s)[k] > 0.0
    ensures forall k :: 0 <= k <= |Slices(Table, 0, s)| ==> s - Sum(Slices(Table, 0, s)[..k]) >= 0.0
  {
    SlicesCover(Table, 0, s);
    RemainderNeverNegative(Table, s);
  }
}
