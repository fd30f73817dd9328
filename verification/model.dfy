/** The two persisted records of the bill tracker, a bill and a payment-history
    entry, and the integer encoding of a bill's recurrence.

    Instants are milliseconds since the Unix epoch, amounts are exact reals,
    identifiers are integers; `0` as an identifier means "not yet stored".
    Datatype values are immutable, so a Kotlin `val` field and `copy(...)`
    become a datatype field and a `b.(f := v)` update. */
module Model {
  import opened Base

  /** A bill. `frequency` is the recurrence period in months:
      0 is a one-time bill, 1/3/6/12 are monthly/quarterly/half-yearly/yearly. */
  datatype Bill = Bill(
    id: int,
    name: string,
    amount: real,
    dueDate: int,
    category: string,
    notes: string,
    createdAt: int,
    frequency: int)

  /** A snapshot of a paid bill. It holds copies of the bill's name, amount
      and category, and no bill identifier; `paymentDate` is the moment the
      payment was recorded. */
  datatype PaymentHistory = PaymentHistory(
    id: int,
    billName: string,
    amount: real,
    paymentDate: int,
    billCategory: string)

  /** The identifier a record carries before the store assigns one. */
  const UnsavedId: int := 0

  /** The `Bill(...)` constructor called with the defaulted arguments left
      out: no id yet, empty notes, one-time, created at the current instant
      `now` (which the source reads from the system clock). */
  function NewBill(name: string, amount: real, dueDate: int, category: string, now: int): (b: Bill)
    ensures b.id == UnsavedId && b.notes == "" && b.frequency == 0 && b.createdAt == now
    ensures b.name == name && b.amount == amount && b.dueDate == dueDate && b.category == category
    ensures !IsRecurring(b)
  {
    Bill(UnsavedId, name, amount, dueDate, category, "", now, 0)
  }

  /** The recurrences the application offers. */
  datatype Recurrence = OneTime | Monthly | Quarterly | HalfYearly | Yearly

  /** The number of months a recurrence stands for, as stored in `frequency`. */
  function MonthsOf(r: Recurrence): (m: int)
    ensures 0 <= m <= 12
    ensures m == 0 <==> r == OneTime
  {
    match r
    case OneTime => 0
    case Monthly => 1
    case Quarterly => 3
    case HalfYearly => 6
    case Yearly => 12
  }

  /** Decodes a stored `frequency`; values outside {0,1,3,6,12} have no meaning. */
  function RecurrenceOf(frequency: int): (r: Option<Recurrence>)
    ensures r.Some? ==> MonthsOf(r.value) == frequency
    ensures r.Some? <==> frequency in {0, 1, 3, 6, 12}
  {
    if frequency == 0 then Some(OneTime)
    else if frequency == 1 then Some(Monthly)
    else if frequency == 3 then Some(Quarterly)
    else if frequency == 6 then Some(HalfYearly)
    else if frequency == 12 then Some(Yearly)
    else None
  }

  /** Encoding a recurrence and decoding it gives it back. */
  lemma RecurrenceRoundTrip(r: Recurrence)
    ensures RecurrenceOf(MonthsOf(r)) == Some(r)
  {
  }

  /** The periods a recurring bill may have. */
  predicate IsRecurringPeriod(frequency: int) {
    frequency in {1, 3, 6, 12}
  }

  /** The application treats every positive frequency as recurring. */
  predicate IsRecurring(b: Bill) {
    b.frequency > 0
  }

  /** Sum of the amounts of `bills`, accumulated left to right. */
  function SumAmounts(bills: seq<Bill>): real
    decreases |bills|
  {
    if |bills| == 0 then 0.0
    else SumAmounts(bills[..|bills| - 1]) + bills[|bills| - 1].amount
  }

  /** The sum of a concatenation is the sum of its parts. */
  lemma {:induction false} SumAmountsConcat(a: seq<Bill>, b: seq<Bill>)
    ensures SumAmounts(a + b) == SumAmounts(a) + SumAmounts(b)
    decreases |b|
  {
    if |b| == 0 {
      assert a + b == a;
    } else {
      assert (a + b)[..|a + b| - 1] == a + b[..|b| - 1];
      SumAmountsConcat(a, b[..|b| - 1]);
    }
  }

  lemma SumAmountsSnoc(bills: seq<Bill>, b: Bill)
    ensures SumAmounts(bills + [b]) == SumAmounts(bills) + b.amount
  {
    assert (bills + [b])[..|bills|] == bills;
  }

  /** A sum of positive amounts is positive unless there is nothing to sum. */
  lemma {:induction false} SumAmountsPositive(bills: seq<Bill>)
    requires forall i :: 0 <= i < |bills| ==> bills[i].amount > 0.0
    ensures |bills| > 0 ==> SumAmounts(bills) > 0.0
    ensures SumAmounts(bills) >= 0.0
    decreases |bills|
  {
    if |bills| > 0 {
      SumAmountsPositive(bills[..|bills| - 1]);
    }
  }
}
