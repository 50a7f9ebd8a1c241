/** Dated amounts and their sums over half-open ranges of time, as spend reports use them. */
module Spend {
  datatype DailyCost = DailyCost(date: int, cost: real)

  function SumIn(daily: seq<DailyCost>, start: int, end: int): real {
    if daily == [] then 0.0
    else
      var d := daily[|daily| - 1];
      SumIn(daily[..|daily| - 1], start, end) + if start <= d.date < end then d.cost else 0.0
  }

  lemma {:induction false} SumNonNegative(daily: seq<DailyCost>, start: int, end: int)
    requires forall d :: d in daily ==> d.cost >= 0.0
    ensures SumIn(daily, start, end) >= 0.0
  {
    if daily != [] {
      SumNonNegative(daily[..|daily| - 1], start, end);
      assert daily[|daily| - 1] in daily;
    }
  }

  lemma SumSnoc(daily: seq<DailyCost>, d: DailyCost, start: int, end: int)
    ensures SumIn(daily + [d], start, end) == SumIn(daily, start, end) + if start <= d.date < end then d.cost else 0.0
  {
    assert (daily + [d])[..|daily|] == daily;
  }

  /** Adjoining ranges add up. */
  lemma {:induction false} SumSplits(daily: seq<DailyCost>, start: int, mid: int, end: int)
    requires start <= mid <= end
    ensures SumIn(daily, start, end) == SumIn(daily, start, mid) + SumIn(daily, mid, end)
  {
    if daily != [] { SumSplits(daily[..|daily| - 1], start, mid, end); }
  }
}
