/** The view-model's computations: per-category totals of the bills due in
    the current month, the current month's sum and count, and the history
    snapshot taken when a bill is paid.

    Which calendar month an instant falls in depends on the device's time
    zone; it is the parameter `monthOf`, and `now` is the current instant. */
module ViewModel {
  import opened Base
  import opened Model
  import opened BillStore
  import opened Calendar

  /** Due in the same month of the same year as `now`? */
  function InCurrentMonth(now: int, monthOf: int -> YearMonth): Bill -> bool {
    (b: Bill) => monthOf(b.dueDate) == monthOf(now)
  }

  /** The bills due in the current month, in list order. */
  function CurrentMonthBills(bills: seq<Bill>, now: int, monthOf: int -> YearMonth): (r: seq<Bill>)
    ensures forall b :: b in r <==> b in bills && monthOf(b.dueDate) == monthOf(now)
  {
    Filter(bills, InCurrentMonth(now, monthOf))
  }

  /** `categoryStats`: bills of the current month grouped by their category
      text, verbatim, each category once with the sum of its amounts. */
  function CategoryStatsForMonth(bills: seq<Bill>, now: int, monthOf: int -> YearMonth): (r: seq<CategoryStat>)
    ensures DistinctCategories(r)
    ensures forall c :: HasCategory(r, c) <==>
      exists b :: b in bills && monthOf(b.dueDate) == monthOf(now) && b.category == c
    ensures forall c ::
      TotalOf(r, c) == SumAmounts(Filter(CurrentMonthBills(bills, now, monthOf), (b: Bill) => b.category == c))
  {
    var month := CurrentMonthBills(bills, now, monthOf);
    var r := GroupTotals(month);
    assert forall c :: HasCategory(r, c) <==> exists b :: b in month && b.category == c by {
      forall c
        ensures HasCategory(r, c) <==> exists b :: b in month && b.category == c
      {
        if exists b :: b in month && b.category == c {
          var b :| b in month && b.category == c;
          var i :| 0 <= i < |month| && month[i] == b;
        }
      }
    }
    r
  }

  /** The current month's sum of amounts and number of bills, bill by bill:
      the running totals a single pass over the list keeps. */
  function MonthlySummary(bills: seq<Bill>, now: int, monthOf: int -> YearMonth): (real, int)
    decreases |bills|
  {
    if |bills| == 0 then (0.0, 0)
    else
      var (sum, count) := MonthlySummary(bills[..|bills| - 1], now, monthOf);
      var last := bills[|bills| - 1];
      if monthOf(last.dueDate) == monthOf(now) then (sum + last.amount, count + 1) else (sum, count)
  }

  /** The running totals are the sum and the length of the current month's bills. */
  lemma {:induction false} SummaryOfMonthBills(bills: seq<Bill>, now: int, monthOf: int -> YearMonth)
    ensures MonthlySummary(bills, now, monthOf).0 == SumAmounts(CurrentMonthBills(bills, now, monthOf))
    ensures MonthlySummary(bills, now, monthOf).1 == |CurrentMonthBills(bills, now, monthOf)|
    decreases |bills|
  {
    if |bills| > 0 {
      var init, last := bills[..|bills| - 1], bills[|bills| - 1];
      SummaryOfMonthBills(init, now, monthOf);
      var before := CurrentMonthBills(init, now, monthOf);
      if monthOf(last.dueDate) == monthOf(now) {
        assert CurrentMonthBills(bills, now, monthOf) == before + [last];
        SumAmountsSnoc(before, last);
      } else {
        assert CurrentMonthBills(bills, now, monthOf) == before;
      }
    }
  }

  /** `calculateMonthlyStats`: one pass over the bills, adding up the amount
      and the count of every bill due in the current month. */
  method CalculateMonthlyStats(bills: seq<Bill>, now: int, monthOf: int -> YearMonth) returns (sum: real, count: int)
    ensures sum == SumAmounts(CurrentMonthBills(bills, now, monthOf))
    ensures count == |CurrentMonthBills(bills, now, monthOf)|
  {
    var current := monthOf(now);
    sum := 0.0;
    count := 0;
    var i := 0;
    while i < |bills|
      invariant 0 <= i <= |bills|
      invariant (sum, count) == MonthlySummary(bills[..i], now, monthOf)
    {
      assert bills[..i + 1][..i] == bills[..i];
      if monthOf(bills[i].dueDate) == current {
        sum := sum + bills[i].amount;
        count := count + 1;
      }
      i := i + 1;
    }
    assert bills[..|bills|] == bills;
    SummaryOfMonthBills(bills, now, monthOf);
  }

  /** With no bills the summary is zero money over zero bills. */
  lemma EmptySummary(now: int, monthOf: int -> YearMonth)
    ensures MonthlySummary([], now, monthOf) == (0.0, 0)
  {
  }

  /** The chart's category totals add up to the summary line's sum: both
      look at the same bills of the current month. */
  lemma {:induction false} TotalsMatchSummary(bills: seq<Bill>, now: int, monthOf: int -> YearMonth)
    ensures SumTotals(CategoryStatsForMonth(bills, now, monthOf)) == MonthlySummary(bills, now, monthOf).0
  {
    SummaryOfMonthBills(bills, now, monthOf);
  }

  /** With the device's zone, a bill is in the current month exactly when its
      due instant's wall clock reads the same year and month as now's, and
      the chart's totals still add up to the summary's sum. */
  lemma DeviceZoneMonth(z: Zone, bills: seq<Bill>, now: int)
    ensures forall b :: b in CurrentMonthBills(bills, now, t => MonthOf(z, t)) <==>
      b in bills && ToLocal(z, b.dueDate).date.year == ToLocal(z, now).date.year
                 && ToLocal(z, b.dueDate).date.month == ToLocal(z, now).date.month
    ensures SumTotals(CategoryStatsForMonth(bills, now, t => MonthOf(z, t)))
      == MonthlySummary(bills, now, t => MonthOf(z, t)).0
  {
    TotalsMatchSummary(bills, now, t => MonthOf(z, t));
  }

  /** The summary of two lists of bills is the sum of their summaries. */
  lemma SummaryConcat(a: seq<Bill>, b: seq<Bill>, now: int, monthOf: int -> YearMonth)
    ensures MonthlySummary(a + b, now, monthOf).0
      == MonthlySummary(a, now, monthOf).0 + MonthlySummary(b, now, monthOf).0
    ensures MonthlySummary(a + b, now, monthOf).1
      == MonthlySummary(a, now, monthOf).1 + MonthlySummary(b, now, monthOf).1
  {
    SummaryOfMonthBills(a + b, now, monthOf);
    SummaryOfMonthBills(a, now, monthOf);
    SummaryOfMonthBills(b, now, monthOf);
    FilterConcat(a, b, InCurrentMonth(now, monthOf));
    SumAmountsConcat(CurrentMonthBills(a, now, monthOf), CurrentMonthBills(b, now, monthOf));
  }

  /** With positive amounts, the month's sum is positive exactly when some
      bill is due in the current month. */
  lemma MonthSumPositive(bills: seq<Bill>, now: int, monthOf: int -> YearMonth)
    requires forall i :: 0 <= i < |bills| ==> bills[i].amount > 0.0
    ensures MonthlySummary(bills, now, monthOf).0 > 0.0 <==>
      exists b :: b in bills && monthOf(b.dueDate) == monthOf(now)
  {
    SummaryOfMonthBills(bills, now, monthOf);
    var month := CurrentMonthBills(bills, now, monthOf);
    assert forall i :: 0 <= i < |month| ==> month[i].amount > 0.0 by {
      forall i | 0 <= i < |month|
        ensures month[i].amount > 0.0
      {
        assert month[i] in bills;
      }
    }
    SumAmountsPositive(month);
    if exists b :: b in bills && monthOf(b.dueDate) == monthOf(now) {
      var b :| b in bills && monthOf(b.dueDate) == monthOf(now);
      assert b in month;
    }
  }

  /** Grouping is by the raw text: an English and a Polish token of the same
      category give two rows. */
  lemma TokensGroupedSeparately(now: int, monthOf: int -> YearMonth, en: Bill, pl: Bill)
    requires en.category == "Subscriptions" && pl.category == "Subskrypcje"
    requires monthOf(en.dueDate) == monthOf(now) && monthOf(pl.dueDate) == monthOf(now)
    ensures CategoryStatsForMonth([en, pl], now, monthOf)
      == [CategoryStat("Subscriptions", en.amount), CategoryStat("Subskrypcje", pl.amount)]
  {
    BothInMonth(now, monthOf, en, pl);
    assert "Subscriptions"[4] != "Subskrypcje"[4];
    GroupTwo(en, pl);
  }

  /** Two bills of the current month are both kept, in order. */
  lemma BothInMonth(now: int, monthOf: int -> YearMonth, a: Bill, b: Bill)
    requires monthOf(a.dueDate) == monthOf(now) && monthOf(b.dueDate) == monthOf(now)
    ensures CurrentMonthBills([a, b], now, monthOf) == [a, b]
  {
    assert [a, b][..1] == [a];
    assert [a][..0] == [];
  }

  /** Two bills of different categories give two rows, in order. */
  lemma GroupTwo(a: Bill, b: Bill)
    requires a.category != b.category
    ensures GroupTotals([a, b]) == [CategoryStat(a.category, a.amount), CategoryStat(b.category, b.amount)]
  {
    var first := [CategoryStat(a.category, a.amount)];
    assert [a, b][..1] == [a];
    assert [a][..0] == [];
    assert GroupTotals([a]) == first;
    assert first[1..] == [];
    assert GroupTotals([a, b]) == AddTo(first, b);
    assert AddTo(first, b) == first + AddTo([], b);
  }

  /** `addToHistory`: a snapshot of the bill's name, amount and category,
      stamped with the current instant, without an id yet. */
  function AddToHistory(b: Bill, now: int): (h: PaymentHistory)
    ensures h.id == UnsavedId && h.paymentDate == now
    ensures h.billName == b.name && h.amount == b.amount && h.billCategory == b.category
  {
    PaymentHistory(UnsavedId, b.name, b.amount, now, b.category)
  }

  /** The snapshot depends only on the name, amount and category of the bill
      and on the payment instant, not on the bill's id, due date, notes or
      recurrence: it refers to no bill. */
  lemma SnapshotIsCopy(b: Bill, now: int, id: int, dueDate: int, notes: string, frequency: int)
    ensures AddToHistory(b, now) == AddToHistory(b.(id := id, dueDate := dueDate, notes := notes, frequency := frequency), now)
  {
  }
}
