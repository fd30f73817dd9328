/** One row of a bill list: the overdue marking, the category colour, and the
    two comparisons the list uses to tell which rows changed. */
module Adapter {
  import opened Base
  import opened Model
  import opened Calendar
  import opened Categories
  import opened Reminder
  import opened MainScreen

  /** A bill is overdue when its due instant is strictly before `today`. */
  predicate IsOverdue(b: Bill, today: int) {
    b.dueDate < today
  }

  /** What a row shows, apart from formatted text. */
  datatype Row = Row(name: string, amount: real, overdue: bool, color: ColorRes)

  /** `bind`: the bill's name and amount, the overdue marking at `today`, and
      the indicator colour of its category. */
  function Bind(b: Bill, today: int): (r: Row)
    ensures r.name == b.name && r.amount == b.amount
    ensures r.overdue <==> b.dueDate < today
    ensures r.color == CategoryColor(b.category)
    ensures Classify(b.category).None? ==> r.color == BillOther
  {
    Row(b.name, b.amount, IsOverdue(b, today), CategoryColor(b.category))
  }

  /** A bill due exactly now is not overdue; one due a millisecond earlier is. */
  lemma OverdueBoundary(b: Bill, today: int)
    ensures b.dueDate == today ==> !Bind(b, today).overdue
    ensures b.dueDate == today - 1 ==> Bind(b, today).overdue
  {
  }

  /** Every bill a row marks overdue is one the intended selection keeps, and
      one the job as written keeps too unless `dueDate - now` overflows a Long. */
  lemma OverdueIsReminded(bills: seq<Bill>, b: Bill, now: int)
    requires b in bills && Bind(b, now).overdue
    ensures b in SelectDueForNotice(bills, now)
    ensures InLongRange(b.dueDate - now) ==> b in SelectDueForNoticeAsWritten(bills, now)
  {
    if InLongRange(b.dueDate - now) {
      AsWrittenAgrees(b, now);
    }
  }

  /** The two tokens of a category give rows of the same colour. */
  lemma RowColorTokens(b: Bill, c: Canonical, today: int)
    ensures Bind(b.(category := EnglishToken(c)), today).color
         == Bind(b.(category := PolishToken(c)), today).color
         == CanonicalColor(c)
  {
    CategoryColorTokens(c, b.category);
  }

  /** `areItemsTheSame`: the same stored bill, by id. */
  predicate SameItem(a: Bill, b: Bill) {
    a.id == b.id
  }

  /** `areContentsTheSame`: equal in every field. */
  predicate SameContents(a: Bill, b: Bill) {
    a == b
  }

  /** Rows with the same contents are the same item, and two distinct unsaved
      bills are the same item though their contents differ. */
  lemma ContentsImplyItem(a: Bill, b: Bill)
    ensures SameContents(a, b) ==> SameItem(a, b)
    ensures a.id == b.id == UnsavedId && a.name != b.name ==> SameItem(a, b) && !SameContents(a, b)
  {
  }

  /** A renewed bill is the same item with changed contents, so its row is
      redrawn in place. */
  lemma RenewedRowChanges(z: Zone, b: Bill)
    requires IsRecurring(b)
    ensures SameItem(b, RenewBill(z, b))
    ensures !SameContents(b, RenewBill(z, b))
  {
  }
}
