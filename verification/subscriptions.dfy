/** The fixed-costs screen: recurring bills sorted into one section per
    period, each section shown only when it has bills, and the average
    monthly cost of all of them. */
module Subscriptions {
  import opened Base
  import opened Model

  /** The four sections of the screen, each in the order of the input list. */
  datatype Buckets = Buckets(
    monthly: seq<Bill>,
    quarterly: seq<Bill>,
    halfYearly: seq<Bill>,
    yearly: seq<Bill>)

  /** The test for one section: the bill's frequency is exactly `period`. */
  function HasPeriod(period: int): Bill -> bool {
    (b: Bill) => b.frequency == period
  }

  /** `distributeBills`: four filters of the list, by frequency 1, 3, 6 and 12. */
  function DistributeBills(bills: seq<Bill>): (r: Buckets)
    ensures forall b :: b in r.monthly <==> b in bills && b.frequency == 1
    ensures forall b :: b in r.quarterly <==> b in bills && b.frequency == 3
    ensures forall b :: b in r.halfYearly <==> b in bills && b.frequency == 6
    ensures forall b :: b in r.yearly <==> b in bills && b.frequency == 12
    ensures forall b :: b in bills && !IsRecurringPeriod(b.frequency) ==>
      b !in r.monthly && b !in r.quarterly && b !in r.halfYearly && b !in r.yearly
    ensures multiset(r.monthly) <= multiset(bills) && multiset(r.quarterly) <= multiset(bills)
    ensures multiset(r.halfYearly) <= multiset(bills) && multiset(r.yearly) <= multiset(bills)
  {
    Buckets(
      Filter(bills, HasPeriod(1)),
      Filter(bills, HasPeriod(3)),
      Filter(bills, HasPeriod(6)),
      Filter(bills, HasPeriod(12)))
  }

  /** The test for "has one of the four periods". */
  function InSomeBucket(): Bill -> bool {
    (b: Bill) => IsRecurringPeriod(b.frequency)
  }

  /** Every bill with one of the four periods lands in exactly one section, so
      the sections together hold as many bills as there are such bills. */
  lemma {:induction false} BucketsPartition(bills: seq<Bill>)
    ensures var r := DistributeBills(bills);
      |r.monthly| + |r.quarterly| + |r.halfYearly| + |r.yearly| == |Filter(bills, InSomeBucket())|
    decreases |bills|
  {
    if |bills| > 0 {
      BucketsPartition(bills[..|bills| - 1]);
      CountLast(bills, HasPeriod(1));
      CountLast(bills, HasPeriod(3));
      CountLast(bills, HasPeriod(6));
      CountLast(bills, HasPeriod(12));
      CountLast(bills, InSomeBucket());
    }
  }

  lemma CountLast(s: seq<Bill>, p: Bill -> bool)
    requires |s| > 0
    ensures |Filter(s, p)| == |Filter(s[..|s| - 1], p)| + if p(s[|s| - 1]) then 1 else 0
  {
  }

  /** Whether a section's header and list are shown. */
  datatype Visibility = Visible | Gone

  /** A section is hidden exactly when it has no bills. */
  function SectionVisibility(bucket: seq<Bill>): (v: Visibility)
    ensures v == Gone <==> bucket == []
  {
    if |bucket| == 0 then Gone else Visible
  }

  /** A section is hidden exactly when no bill has its period. */
  lemma HiddenIffNoBillOfPeriod(bills: seq<Bill>)
    ensures var r := DistributeBills(bills);
      && (SectionVisibility(r.monthly) == Gone <==> forall b :: b in bills ==> b.frequency != 1)
      && (SectionVisibility(r.quarterly) == Gone <==> forall b :: b in bills ==> b.frequency != 3)
      && (SectionVisibility(r.halfYearly) == Gone <==> forall b :: b in bills ==> b.frequency != 6)
      && (SectionVisibility(r.yearly) == Gone <==> forall b :: b in bills ==> b.frequency != 12)
  {
    var r := DistributeBills(bills);
    NonEmptyHasElement(r.monthly);
    NonEmptyHasElement(r.quarterly);
    NonEmptyHasElement(r.halfYearly);
    NonEmptyHasElement(r.yearly);
  }

  lemma NonEmptyHasElement(s: seq<Bill>)
    ensures s != [] ==> s[0] in s
  {
  }

  /** A bill's share of one month: the whole amount for a monthly bill, a
      third, a sixth or a twelfth for the longer periods, nothing for any
      other frequency. */
  function MonthlyCost(b: Bill): (r: real)
    ensures IsRecurringPeriod(b.frequency) ==> r * (b.frequency as real) == b.amount
    ensures !IsRecurringPeriod(b.frequency) ==> r == 0.0
    ensures b.amount >= 0.0 ==> 0.0 <= r <= b.amount
  {
    if b.frequency == 1 then b.amount
    else if b.frequency == 3 then b.amount / 3.0
    else if b.frequency == 6 then b.amount / 6.0
    else if b.frequency == 12 then b.amount / 12.0
    else 0.0
  }

  /** The sum of the monthly costs, accumulated left to right. */
  function TotalMonthlyCost(bills: seq<Bill>): real
    decreases |bills|
  {
    if |bills| == 0 then 0.0
    else TotalMonthlyCost(bills[..|bills| - 1]) + MonthlyCost(bills[|bills| - 1])
  }

  /** `calculateMonthlyAverage`: one pass adding up every bill's monthly cost. */
  method CalculateMonthlyAverage(bills: seq<Bill>) returns (total: real)
    ensures total == TotalMonthlyCost(bills)
    ensures (forall i :: 0 <= i < |bills| ==> bills[i].amount >= 0.0) ==> 0.0 <= total <= SumAmounts(bills)
  {
    total := 0.0;
    var i := 0;
    while i < |bills|
      invariant 0 <= i <= |bills|
      invariant total == TotalMonthlyCost(bills[..i])
    {
      assert bills[..i + 1][..i] == bills[..i];
      total := total + MonthlyCost(bills[i]);
      i := i + 1;
    }
    assert bills[..|bills|] == bills;
    if forall i :: 0 <= i < |bills| ==> bills[i].amount >= 0.0 {
      CostBounded(bills);
    }
  }

  /** With non-negative amounts the monthly average lies between zero and the
      plain sum of the amounts. */
  lemma {:induction false} CostBounded(bills: seq<Bill>)
    requires forall i :: 0 <= i < |bills| ==> bills[i].amount >= 0.0
    ensures 0.0 <= TotalMonthlyCost(bills) <= SumAmounts(bills)
    decreases |bills|
  {
    if |bills| > 0 {
      CostBounded(bills[..|bills| - 1]);
    }
  }

  /** The total of a concatenation is the total of its parts. */
  lemma {:induction false} TotalMonthlyCostConcat(a: seq<Bill>, b: seq<Bill>)
    ensures TotalMonthlyCost(a + b) == TotalMonthlyCost(a) + TotalMonthlyCost(b)
    decreases |b|
  {
    if |b| == 0 {
      assert a + b == a;
    } else {
      assert (a + b)[..|a + b| - 1] == a + b[..|b| - 1];
      TotalMonthlyCostConcat(a, b[..|b| - 1]);
    }
  }

  /** The average is the sum over the four sections: bills of any other
      frequency, one-time bills among them, add nothing. */
  lemma {:induction false} TotalIsSumOfSections(bills: seq<Bill>)
    ensures var r := DistributeBills(bills);
      TotalMonthlyCost(bills)
        == TotalMonthlyCost(r.monthly) + TotalMonthlyCost(r.quarterly)
         + TotalMonthlyCost(r.halfYearly) + TotalMonthlyCost(r.yearly)
    decreases |bills|
  {
    if |bills| > 0 {
      var init, last := bills[..|bills| - 1], bills[|bills| - 1];
      TotalIsSumOfSections(init);
      var r0 := DistributeBills(init);
      if last.frequency == 1 {
        SnocCost(r0.monthly, last);
      } else if last.frequency == 3 {
        SnocCost(r0.quarterly, last);
      } else if last.frequency == 6 {
        SnocCost(r0.halfYearly, last);
      } else if last.frequency == 12 {
        SnocCost(r0.yearly, last);
      }
    }
  }

  lemma SnocCost(s: seq<Bill>, b: Bill)
    ensures TotalMonthlyCost(s + [b]) == TotalMonthlyCost(s) + MonthlyCost(b)
  {
    assert (s + [b])[..|s|] == s;
  }

  /** One-time bills contribute nothing. */
  lemma OneTimeAddsNothing(bills: seq<Bill>, b: Bill)
    requires b.frequency == 0
    ensures TotalMonthlyCost(bills + [b]) == TotalMonthlyCost(bills)
  {
    SnocCost(bills, b);
  }

  /** With no bills the average is zero. */
  lemma EmptyAverage()
    ensures TotalMonthlyCost([]) == 0.0
  {
  }

  /** A yearly bill of 1200 counts as 100 a month. */
  lemma YearlyExample(b: Bill)
    requires b.frequency == 12 && b.amount == 1200.0
    ensures MonthlyCost(b) == 100.0
  {
  }

  /** A yearly 1200, a quarterly 300 and a monthly 50 come to 250 a month. */
  lemma MixedExample(y: Bill, q: Bill, m: Bill, once: Bill)
    requires y.frequency == 12 && y.amount == 1200.0
    requires q.frequency == 3 && q.amount == 300.0
    requires m.frequency == 1 && m.amount == 50.0
    requires once.frequency == 0 && once.amount == 999.0
    ensures TotalMonthlyCost([y, q, m, once]) == 250.0
  {
    SnocCost([], y);
    SnocCost([y], q);
    SnocCost([y, q], m);
    SnocCost([y, q, m], once);
    assert [] + [y] == [y];
    assert [y] + [q] == [y, q];
    assert [y, q] + [m] == [y, q, m];
    assert [y, q, m] + [once] == [y, q, m, once];
  }
}
