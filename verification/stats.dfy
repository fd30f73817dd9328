/** The statistics screen: the current month's category totals drawn as a pie
    chart, one slice per category with a positive total, each slice with its
    display name and colour, and the sum of the drawn totals. */
module Stats {
  import opened Base
  import opened Model
  import opened Calendar
  import opened Categories
  import opened BillStore
  import opened ViewModel

  /** A chart slice: its value and its label (`name`). */
  datatype PieEntry = PieEntry(value: real, name: Label)

  /** The chart is either cleared or drawn from slices and their colours,
      the colour of slice `i` being `colors[i]`. */
  datatype Chart = Cleared | Drawn(entries: seq<PieEntry>, colors: seq<ColorRes>)

  /** What `loadChartData` produces: the chart and the total shown under it. */
  datatype ChartData = ChartData(chart: Chart, totalSum: real)

  /** The test that keeps a row in the chart. */
  function PositiveStat(): CategoryStat -> bool {
    (s: CategoryStat) => s.totalAmount > 0.0
  }

  /** The slice for one row: its total, labelled with the category's display name. */
  function EntryOf(s: CategoryStat): PieEntry {
    PieEntry(s.totalAmount, LocalizedCategoryName(s.category))
  }

  /** The slices of the kept rows, in order. */
  function SlicesOf(pos: seq<CategoryStat>): seq<PieEntry> {
    seq(|pos|, i requires 0 <= i < |pos| => EntryOf(pos[i]))
  }

  /** The colours of the kept rows, in order. */
  function ColorsOf(pos: seq<CategoryStat>): seq<ColorRes> {
    seq(|pos|, i requires 0 <= i < |pos| => CategoryColor(pos[i].category))
  }

  /** `loadChartData`: one slice and one colour per row with a positive total,
      in row order; the chart is cleared when there is no such row. */
  function LoadChartData(stats: seq<CategoryStat>): (r: ChartData)
    ensures r.chart.Drawn? ==> |r.chart.entries| == |r.chart.colors| > 0
    ensures r.chart.Drawn? ==> forall i :: 0 <= i < |r.chart.entries| ==>
      r.chart.entries[i].value > 0.0
      && exists j :: 0 <= j < |stats| && r.chart.entries[i] == EntryOf(stats[j])
                     && r.chart.colors[i] == CategoryColor(stats[j].category)
    ensures forall j :: 0 <= j < |stats| && stats[j].totalAmount > 0.0 ==>
      r.chart.Drawn? && EntryOf(stats[j]) in r.chart.entries
    ensures r.chart.Cleared? <==> forall j :: 0 <= j < |stats| ==> stats[j].totalAmount <= 0.0
    ensures r.chart.Cleared? <==> r.totalSum == 0.0
    ensures r.totalSum >= 0.0 && r.totalSum >= SumTotals(stats)
    ensures (forall j :: 0 <= j < |stats| ==> stats[j].totalAmount >= 0.0) ==> r.totalSum == SumTotals(stats)
    ensures var pos := Filter(stats, PositiveStat());
      && r.totalSum == SumTotals(pos)
      && (r.chart.Drawn? ==>
            && |r.chart.entries| == |pos|
            && forall i :: 0 <= i < |pos| ==>
                 r.chart.entries[i] == EntryOf(pos[i]) && r.chart.colors[i] == CategoryColor(pos[i].category))
  {
    ChartSlices(stats);
    ChartTotal(stats);
    ChartFor(Filter(stats, PositiveStat()))
  }

  /** The chart drawn from the kept rows, and their sum. */
  function ChartFor(pos: seq<CategoryStat>): ChartData {
    if |pos| > 0 then
      ChartData(Drawn(SlicesOf(pos), ColorsOf(pos)), SumTotals(pos))
    else
      ChartData(Cleared, SumTotals(pos))
  }

  /** The slices and colours of the chart: the positive rows', in row order. */
  lemma ChartSlices(stats: seq<CategoryStat>)
    ensures var pos := Filter(stats, PositiveStat());
      var r := ChartFor(pos);
      && (r.chart.Drawn? ==> |r.chart.entries| == |r.chart.colors| > 0)
      && (r.chart.Drawn? ==> forall i :: 0 <= i < |r.chart.entries| ==>
            r.chart.entries[i].value > 0.0
            && exists j :: 0 <= j < |stats| && r.chart.entries[i] == EntryOf(stats[j])
                           && r.chart.colors[i] == CategoryColor(stats[j].category))
      && (forall j :: 0 <= j < |stats| && stats[j].totalAmount > 0.0 ==>
            r.chart.Drawn? && EntryOf(stats[j]) in r.chart.entries)
      && (r.chart.Cleared? <==> forall j :: 0 <= j < |stats| ==> stats[j].totalAmount <= 0.0)
      && (r.chart.Drawn? ==>
            && |r.chart.entries| == |pos|
            && forall i :: 0 <= i < |pos| ==>
                 r.chart.entries[i] == EntryOf(pos[i]) && r.chart.colors[i] == CategoryColor(pos[i].category))
  {
    SlicesFromRows(stats);
    PositiveRowsDrawn(stats);
    SlicesInRowOrder(Filter(stats, PositiveStat()));
  }

  /** The total under the chart: the sum of the positive rows. */
  lemma ChartTotal(stats: seq<CategoryStat>)
    ensures var pos := Filter(stats, PositiveStat());
      var r := ChartFor(pos);
      && r.totalSum == SumTotals(pos)
      && (r.chart.Cleared? <==> r.totalSum == 0.0)
      && r.totalSum >= 0.0 && r.totalSum >= SumTotals(stats)
      && ((forall j :: 0 <= j < |stats| ==> stats[j].totalAmount >= 0.0) ==> r.totalSum == SumTotals(stats))
  {
    PositiveSum(stats);
    SumTotalsPositive(Filter(stats, PositiveStat()));
  }

  /** Slice `i` and colour `i` belong to kept row `i`. */
  lemma SlicesInRowOrder(pos: seq<CategoryStat>)
    ensures |SlicesOf(pos)| == |ColorsOf(pos)| == |pos|
    ensures forall i :: 0 <= i < |pos| ==>
      SlicesOf(pos)[i] == EntryOf(pos[i]) && ColorsOf(pos)[i] == CategoryColor(pos[i].category)
  {
  }

  /** Every slice is a positive row's slice, with that row's colour. */
  lemma SlicesFromRows(stats: seq<CategoryStat>)
    ensures var pos := Filter(stats, PositiveStat());
      forall i :: 0 <= i < |SlicesOf(pos)| ==>
        SlicesOf(pos)[i].value > 0.0
        && exists j :: 0 <= j < |stats| && SlicesOf(pos)[i] == EntryOf(stats[j])
                       && ColorsOf(pos)[i] == CategoryColor(stats[j].category)
  {
    var pos := Filter(stats, PositiveStat());
    forall i | 0 <= i < |pos|
      ensures exists j :: 0 <= j < |stats| && SlicesOf(pos)[i] == EntryOf(stats[j])
                          && ColorsOf(pos)[i] == CategoryColor(stats[j].category)
    {
      assert pos[i] in stats;
      var j :| 0 <= j < |stats| && stats[j] == pos[i];
      assert SlicesOf(pos)[i] == EntryOf(stats[j]);
    }
  }

  /** Every positive row has its slice, and there are slices exactly when
      some row is positive. */
  lemma PositiveRowsDrawn(stats: seq<CategoryStat>)
    ensures var pos := Filter(stats, PositiveStat());
      && (forall j :: 0 <= j < |stats| && stats[j].totalAmount > 0.0 ==> EntryOf(stats[j]) in SlicesOf(pos))
      && (|pos| == 0 <==> forall j :: 0 <= j < |stats| ==> stats[j].totalAmount <= 0.0)
  {
    var pos := Filter(stats, PositiveStat());
    forall j | 0 <= j < |stats| && stats[j].totalAmount > 0.0
      ensures EntryOf(stats[j]) in SlicesOf(pos)
    {
      assert stats[j] in pos;
      var i :| 0 <= i < |pos| && pos[i] == stats[j];
      assert SlicesOf(pos)[i] == EntryOf(stats[j]);
    }
    if |pos| > 0 {
      assert pos[0] in stats;
    }
  }

  /** When every total is positive, the chart draws every row, in row order,
      and its total is the sum of all totals. */
  lemma AllPositiveDrawsEveryRow(stats: seq<CategoryStat>)
    requires AllPositive(stats) && |stats| > 0
    ensures LoadChartData(stats) == ChartData(Drawn(SlicesOf(stats), ColorsOf(stats)), SumTotals(stats))
  {
    FilterAll(stats, PositiveStat());
  }

  /** A sequence extended by one row adds that row's total. */
  lemma {:induction false} SumTotalsSnoc(s: seq<CategoryStat>, x: CategoryStat)
    ensures SumTotals(s + [x]) == SumTotals(s) + x.totalAmount
    decreases |s|
  {
    if |s| == 0 {
      assert (s + [x])[1..] == [];
    } else {
      assert (s + [x])[1..] == s[1..] + [x];
      SumTotalsSnoc(s[1..], x);
    }
  }

  lemma SumTotalsLast(s: seq<CategoryStat>)
    requires |s| > 0
    ensures SumTotals(s) == SumTotals(s[..|s| - 1]) + s[|s| - 1].totalAmount
  {
    assert s[..|s| - 1] + [s[|s| - 1]] == s;
    SumTotalsSnoc(s[..|s| - 1], s[|s| - 1]);
  }

  /** Positive totals add up to a positive sum unless there are none. */
  lemma {:induction false} SumTotalsPositive(s: seq<CategoryStat>)
    requires forall i :: 0 <= i < |s| ==> s[i].totalAmount > 0.0
    ensures SumTotals(s) >= 0.0
    ensures |s| > 0 ==> SumTotals(s) > 0.0
    decreases |s|
  {
    if |s| > 0 {
      SumTotalsPositive(s[1..]);
    }
  }

  /** Dropping the rows that are not positive can only raise the sum, and
      leaves it as it is when no row is negative. */
  lemma {:induction false} PositiveSum(stats: seq<CategoryStat>)
    ensures SumTotals(Filter(stats, PositiveStat())) >= SumTotals(stats)
    ensures (forall j :: 0 <= j < |stats| ==> stats[j].totalAmount >= 0.0)
        ==> SumTotals(Filter(stats, PositiveStat())) == SumTotals(stats)
    decreases |stats|
  {
    if |stats| > 0 {
      var init, last := stats[..|stats| - 1], stats[|stats| - 1];
      PositiveSum(init);
      SumTotalsLast(stats);
      if last.totalAmount > 0.0 {
        SumTotalsSnoc(Filter(init, PositiveStat()), last);
      }
    }
  }

  /** All totals positive. */
  ghost predicate AllPositive(stats: seq<CategoryStat>) {
    forall i :: 0 <= i < |stats| ==> stats[i].totalAmount > 0.0
  }

  /** Folding a positive amount into positive totals keeps every total positive. */
  lemma {:induction false} AddToPositive(stats: seq<CategoryStat>, b: Bill)
    requires DistinctCategories(stats) && AllPositive(stats) && b.amount > 0.0
    ensures AllPositive(AddTo(stats, b))
    decreases |stats|
  {
    if |stats| > 0 && stats[0].category != b.category {
      assert DistinctCategories(stats[1..]) by {
        forall i, j | 0 <= i < j < |stats[1..]|
          ensures stats[1..][i].category != stats[1..][j].category
        {
          assert stats[1..][i] == stats[i + 1] && stats[1..][j] == stats[j + 1];
        }
      }
      AddToPositive(stats[1..], b);
      var rest := AddTo(stats[1..], b);
      assert AddTo(stats, b) == [stats[0]] + rest;
    }
  }

  /** Grouping bills with positive amounts gives positive totals only. */
  lemma {:induction false} GroupTotalsPositive(bills: seq<Bill>)
    requires forall b :: b in bills ==> b.amount > 0.0
    ensures AllPositive(GroupTotals(bills))
    decreases |bills|
  {
    if |bills| > 0 {
      var init := bills[..|bills| - 1];
      assert forall b :: b in init ==> b in bills;
      GroupTotalsPositive(init);
      AddToPositive(GroupTotals(init), bills[|bills| - 1]);
    }
  }

  /** When every amount is positive, the chart has a slice for every category
      of the current month, it is cleared exactly when the month has no bills,
      and the total under it is the month's sum. */
  lemma ChartCoversMonth(bills: seq<Bill>, now: int, monthOf: int -> YearMonth)
    requires forall b :: b in bills ==> b.amount > 0.0
    ensures var stats := CategoryStatsForMonth(bills, now, monthOf);
      var r := LoadChartData(stats);
      && r.totalSum == MonthlySummary(bills, now, monthOf).0
      && (r.chart.Cleared? <==> MonthlySummary(bills, now, monthOf).1 == 0)
      && forall j :: 0 <= j < |stats| ==> r.chart.Drawn? && EntryOf(stats[j]) in r.chart.entries
  {
    var month := CurrentMonthBills(bills, now, monthOf);
    var stats := CategoryStatsForMonth(bills, now, monthOf);
    assert forall b :: b in month ==> b.amount > 0.0;
    GroupTotalsPositive(month);
    assert AllPositive(stats);
    TotalsMatchSummary(bills, now, monthOf);
    SummaryOfMonthBills(bills, now, monthOf);
    if |month| > 0 {
      assert month[0] in month;
      assert HasCategory(stats, month[0].category);
    }
    if |stats| > 0 {
      assert HasCategory(stats, stats[0].category);
    }
  }
}
