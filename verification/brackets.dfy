/**
 The progressive bracket walk of the IRPF withholding calculator: a greedy pass
 over an ordered table of (limit, rate) brackets. At every bracket the walk
 takes the smaller of what is still left and the bracket's limit, taxes that
 slice at the bracket's rate, and stops as soon as nothing positive is left.

 The limit is used as the slice's capacity as it stands in the table (an
 absolute figure), not as the width between it and the previous limit.
 */
module Brackets {

  /** Upper limit of a bracket; the last bracket of a table is `Unbounded`. */
  datatype Limit = Cap(amount: real) | Unbounded

  datatype Bracket = Bracket(limit: Limit, rate: real)

  function Min(a: real, b: real): real { if a <= b then a else b }

  function Max(a: real, b: real): real { if a >= b then a else b }

  /** A table the walk can consume: non-empty, every capped limit positive,
      every rate non-negative, and the last bracket unbounded. */
  predicate WellFormed(b: seq<Bracket>) {
    && |b| > 0
    && b[|b| - 1].limit.Unbounded?
    && (forall k :: 0 <= k < |b| && b[k].limit.Cap? ==> b[k].limit.amount > 0.0)
    && (forall k :: 0 <= k < |b| ==> b[k].rate >= 0.0)
  }

  /** The slice one bracket takes from what is left: the minimum of the
      remainder and the bracket's limit (all of the remainder if unbounded). */
  function Take(limit: Limit, remaining: real): (slice: real)
    ensures slice <= remaining
    ensures limit.Cap? ==> slice <= limit.amount
    ensures slice == remaining || (limit.Cap? && slice == limit.amount)
  {
    match limit
    case Unbounded => remaining
    case Cap(c) => Min(remaining, c)
  }

  /** The slices the walk takes, in order, from bracket `i` on, with
      `remaining` still to place. */
  function Slices(b: seq<Bracket>, i: nat, remaining: real): (s: seq<real>)
    requires i <= |b|
    ensures |s| <= |b| - i
    decreases |b| - i
  {
    if i == |b| || remaining <= 0.0 then []
    else
      var t := Take(b[i].limit, remaining);
      [t] + Slices(b, i + 1, remaining - t)
  }

  /** The withholding the walk accumulates from bracket `i` on. */
  function Tax(b: seq<Bracket>, i: nat, remaining: real): real
    requires i <= |b|
    decreases |b| - i
  {
    if i == |b| || remaining <= 0.0 then 0.0
    else
      var t := Take(b[i].limit, remaining);
      t * b[i].rate + Tax(b, i + 1, remaining - t)
  }

  function Sum(s: seq<real>): real {
    if |s| == 0 then 0.0 else s[0] + Sum(s[1..])
  }

  /** Each slice of `s` weighted by the rate of its bracket, the first slice
      belonging to bracket `i`. */
  function RatedSum(s: seq<real>, b: seq<Bracket>, i: nat): real
    requires i + |s| <= |b|
  {
    if |s| == 0 then 0.0 else s[0] * b[i].rate + RatedSum(s[1..], b, i + 1)
  }

  /** The loop of the source, statement by statement: `restante` starts at the
      salary, each bracket adds `slice * rate` and removes its slice, and the
      loop breaks once `restante` is no longer positive. */
  method Walk(b: seq<Bracket>, salary: real) returns (total: real)
    ensures total == Tax(b, 0, salary)
  {
    total := 0.0;
    var remaining := salary;
    var i := 0;
    while i < |b|
      invariant 0 <= i <= |b|
      invariant total + Tax(b, i, remaining) == Tax(b, 0, salary)
    {
      if remaining <= 0.0 {
        break;
      }
      var slice := Take(b[i].limit, remaining);
      total := total + slice * b[i].rate;
      remaining := remaining - slice;
      i := i + 1;
    }
  }

  /** The accumulated withholding is the rate-weighted sum of the slices taken. */
  lemma {:induction false} TaxIsRatedSlices(b: seq<Bracket>, i: nat, remaining: real)
    requires i <= |b|
    ensures Tax(b, i, remaining) == RatedSum(Slices(b, i, remaining), b, i)
    decreases |b| - i
  {
    if i < |b| && remaining > 0.0 {
      var t := Take(b[i].limit, remaining);
      TaxIsRatedSlices(b, i + 1, remaining - t);
      assert ([t] + Slices(b, i + 1, remaining - t))[1..] == Slices(b, i + 1, remaining - t);
    }
  }

  lemma SumCons(t: real, s: seq<real>)
    ensures Sum([t] + s) == t + Sum(s)
  {
    assert ([t] + s)[1..] == s;
  }

  /** Over a well-formed table a positive amount is split into at least one
      slice, every slice is positive, and the slices sum to exactly the
      amount: the unbounded last bracket absorbs whatever is left. */
  lemma {:induction false} SlicesCover(b: seq<Bracket>, i: nat, remaining: real)
    requires WellFormed(b) && i < |b| && remaining > 0.0
    ensures |Slices(b, i, remaining)| > 0
    ensures Sum(Slices(b, i, remaining)) == remaining
    ensures forall k :: 0 <= k < |Slices(b, i, remaining)| ==> Slices(b, i, remaining)[k] > 0.0
    decreases |b| - i
  {
    var t := Take(b[i].limit, remaining);
    var rest := Slices(b, i + 1, remaining - t);
    assert Slices(b, i, remaining) == [t] + rest;
    assert t > 0.0;
    if remaining - t > 0.0 {
      assert b[i].limit.Cap?;
      SlicesCover(b, i + 1, remaining - t);
    } else {
      assert rest == [];
    }
    SumCons(t, rest);
  }

  /** Every slice of `s` (the first belonging to bracket `i`) is what `Take`
      gives for the remainder before it, the amount minus the slices already
      taken, and that remainder is positive. */
  predicate TakesFromRemainder(b: seq<Bracket>, i: nat, amount: real, s: seq<real>)
    requires i + |s| <= |b|
  {
    forall k :: 0 <= k < |s| ==>
      amount - Sum(s[..k]) > 0.0 && s[k] == Take(b[i + k].limit, amount - Sum(s[..k]))
  }

  /** Each slice of the walk is the minimum of the remainder before it and
      its bracket's limit (`Take`), and that remainder is positive. */
  lemma {:induction false} SlicesTakeFromRemainder(b: seq<Bracket>, i: nat, remaining: real)
    requires i <= |b|
    ensures TakesFromRemainder(b, i, remaining, Slices(b, i, remaining))
    decreases |b| - i
  {
    if i < |b| && remaining > 0.0 {
      var t := Take(b[i].limit, remaining);
      var s := Slices(b, i, remaining);
      var rest := Slices(b, i + 1, remaining - t);
      assert s == [t] + rest;
      SlicesTakeFromRemainder(b, i + 1, remaining - t);
      forall k | 0 <= k < |s|
        ensures remaining - Sum(s[..k]) > 0.0 && s[k] == Take(b[i + k].limit, remaining - Sum(s[..k]))
      {
        if k == 0 {
          assert s[..0] == [];
        } else {
          var j := k - 1;
          assert s[..k] == [t] + rest[..j];
          SumCons(t, rest[..j]);
          assert (remaining - t) - Sum(rest[..j]) > 0.0
              && rest[j] == Take(b[i + 1 + j].limit, (remaining - t) - Sum(rest[..j]));
          assert s[k] == rest[j];
        }
      }
    }
  }

  /** For a positive amount, `restante` never goes negative: after any number
      of steps of the walk, the amount minus the slices taken is at least zero. */
  lemma RemainderNeverNegative(b: seq<Bracket>, remaining: real)
    requires WellFormed(b) && remaining > 0.0
    ensures var s := Slices(b, 0, remaining);
      forall k :: 0 <= k <= |s| ==> remaining - Sum(s[..k]) >= 0.0
  {
    var s := Slices(b, 0, remaining);
    SlicesCover(b, 0, remaining);
    SlicesTakeFromRemainder(b, 0, remaining);
    assert s[..|s|] == s;
  }

  /** Over a well-formed table the walk never yields a negative withholding. */
  lemma {:induction false} TaxNonNegative(b: seq<Bracket>, i: nat, remaining: real)
    requires WellFormed(b) && i <= |b|
    ensures Tax(b, i, remaining) >= 0.0
    decreases |b| - i
  {
    if i < |b| && remaining > 0.0 {
      var t := Take(b[i].limit, remaining);
      assert t > 0.0;
      MulNonNegative(t, b[i].rate);
      TaxNonNegative(b, i + 1, remaining - t);
    }
  }

  lemma MulNonNegative(x: real, y: real)
    requires x >= 0.0 && y >= 0.0
    ensures x * y >= 0.0
  {
  }

  lemma MulMonotone(x: real, y: real, r: real)
    requires x <= y && r >= 0.0
    ensures x * r <= y * r
  {
    assert y * r - x * r == (y - x) * r;
    MulNonNegative(y - x, r);
  }

  /** One step of monotonicity: a larger slice at the same non-negative rate,
      followed by a larger rest, gives a larger total. */
  lemma MonotoneStep(tx: real, ty: real, r: real, restX: real, restY: real)
    requires tx <= ty && r >= 0.0 && restX <= restY
    ensures tx * r + restX <= ty * r + restY
  {
    var levyX, levyY := tx * r, ty * r;
    MulMonotone(tx, ty, r);
    assert levyX <= levyY;
  }

  /** Taking a slice never reverses the order of two amounts: both what a
      bracket takes and what it leaves grow with the amount. */
  lemma TakeMonotone(limit: Limit, x: real, y: real)
    requires x <= y
    ensures Take(limit, x) <= Take(limit, y)
    ensures x - Take(limit, x) <= y - Take(limit, y)
  {
  }

  /** Withholding never decreases when the amount grows. */
  lemma {:induction false} TaxMonotone(b: seq<Bracket>, i: nat, x: real, y: real)
    requires WellFormed(b) && i <= |b| && x <= y
    ensures Tax(b, i, x) <= Tax(b, i, y)
    decreases |b| - i
  {
    if i == |b| {
    } else if x <= 0.0 {
      TaxNonNegative(b, i, y);
    } else {
      var tx := Take(b[i].limit, x);
      var ty := Take(b[i].limit, y);
      var restX := Tax(b, i + 1, x - tx);
      var restY := Tax(b, i + 1, y - ty);
      assert tx <= ty && restX <= restY by {
        TakeMonotone(b[i].limit, x, y);
        TaxMonotone(b, i + 1, x - tx, y - ty);
      }
      MonotoneStep(tx, ty, b[i].rate, restX, restY);
      assert Tax(b, i, x) == tx * b[i].rate + restX;
    }
  }

  /** `v` lies between `lo` and `hi` times `x`. */
  predicate Between(lo: real, hi: real, x: real, v: real) {
    lo * x <= v <= hi * x
  }

  /** One step of the rate bound: a slice `t` taxed at a rate in [lo, hi],
      followed by a rest already bounded for `remaining - t`. */
  lemma StepBetweenRates(t: real, r: real, rest: real, remaining: real, lo: real, hi: real)
    requires t >= 0.0 && lo <= r <= hi
    requires Between(lo, hi, remaining - t, rest)
    ensures Between(lo, hi, remaining, t * r + rest)
  {
    MulMonotone(lo, r, t);
    MulMonotone(r, hi, t);
    assert lo * remaining == lo * t + lo * (remaining - t);
    assert hi * remaining == hi * t + hi * (remaining - t);
  }

  /** A capped bracket of a well-formed table is never its last one. */
  lemma CappedIsNotLast(b: seq<Bracket>, i: nat)
    requires WellFormed(b) && i < |b| && b[i].limit.Cap?
    ensures i + 1 < |b|
  {
  }

  /** When every rate from bracket `i` on lies in [lo, hi], the withholding on a
      positive amount lies between lo and hi times that amount. */
  lemma {:induction false} TaxBetweenRates(b: seq<Bracket>, i: nat, remaining: real, lo: real, hi: real)
    requires WellFormed(b) && i < |b| && remaining > 0.0
    requires forall k :: i <= k < |b| ==> lo <= b[k].rate <= hi
    ensures Between(lo, hi, remaining, Tax(b, i, remaining))
    decreases |b| - i
  {
    var t := Take(b[i].limit, remaining);
    var r := b[i].rate;
    var left := remaining - t;
    var rest := Tax(b, i + 1, left);
    assert Between(lo, hi, left, rest) by {
      if left > 0.0 {
        CappedIsNotLast(b, i);
        TaxBetweenRates(b, i + 1, left, lo, hi);
      } else {
        assert rest == 0.0 && left == 0.0;
      }
    }
    assert t > 0.0 && lo <= r <= hi;
    StepBetweenRates(t, r, rest, remaining, lo, hi);
    assert Tax(b, i, remaining) == t * r + rest;
  }
}
