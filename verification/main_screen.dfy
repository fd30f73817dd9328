/** The decisions of the main bill list: what becomes of a bill that comes
    back from the edit screen, what a swipe on a bill does, and how a
    recurring bill is renewed.

    Each decision is a list of store commands; `Apply` runs one command
    against the two tables. */
module MainScreen {
  import opened Base
  import opened Model
  import opened Calendar
  import BillStore
  import HistoryStore

  /** `renewBill`: the bill's due date moved forward by `frequency` calendar
      months, exactly once, keeping the time of day; nothing else changes. */
  function RenewBill(z: Zone, b: Bill): (r: Bill)
    ensures r.(dueDate := b.dueDate) == b
    ensures ToLocal(z, r.dueDate).date == AddMonths(ToLocal(z, b.dueDate).date, b.frequency)
    ensures ToLocal(z, r.dueDate).msOfDay == ToLocal(z, b.dueDate).msOfDay
    ensures IsRecurring(b) ==> r.dueDate > b.dueDate
  {
    b.(dueDate := AddMonthsToInstant(z, b.dueDate, b.frequency))
  }

  /** The store requests the screen issues. */
  datatype StoreOp =
    | InsertBill(bill: Bill)
    | UpdateBill(bill: Bill)
    | DeleteBill(bill: Bill)
    | RecordPayment(entry: PaymentHistory)

  datatype Db = Db(bills: BillStore.BillTable, history: HistoryStore.HistoryTable)

  ghost predicate ValidDb(db: Db) {
    BillStore.Valid(db.bills) && HistoryStore.Valid(db.history)
  }

  /** Runs one store request; `None` when the store refuses it. */
  function Apply(db: Db, op: StoreOp): (r: Option<Db>)
    requires ValidDb(db)
    ensures r.Some? ==> ValidDb(r.value)
    ensures !op.RecordPayment? ==> r.Some? && r.value.history == db.history
    ensures op.RecordPayment? ==> r.Some? ==> r.value.bills == db.bills
  {
    match op
    case InsertBill(b) => Some(db.(bills := BillStore.Insert(db.bills, b).0))
    case UpdateBill(b) => Some(db.(bills := BillStore.Update(db.bills, b)))
    case DeleteBill(b) => Some(db.(bills := BillStore.Delete(db.bills, b)))
    case RecordPayment(h) =>
      var t := HistoryStore.Insert(db.history, h);
      if t.Some? then Some(db.(history := t.value)) else None
  }

  /** Runs requests in order, stopping at the first refusal. */
  function ApplyAll(db: Db, ops: seq<StoreOp>): (r: Option<Db>)
    requires ValidDb(db)
    ensures r.Some? ==> ValidDb(r.value)
    decreases |ops|
  {
    if |ops| == 0 then Some(db)
    else
      var next := Apply(db, ops[0]);
      if next.Some? then ApplyAll(next.value, ops[1..]) else None
  }

  /** A bill returned by the edit screen: one without an id yet is inserted,
      one with an id updates the stored bill. */
  function OnEditorResult(b: Bill): (op: StoreOp)
    ensures b.id == UnsavedId <==> op.InsertBill?
    ensures op.InsertBill? || op.UpdateBill?
    ensures op.bill == b
  {
    if b.id == UnsavedId then InsertBill(b) else UpdateBill(b)
  }

  /** A new bill lands under a key no stored bill had; an edited bill replaces
      the stored bill with its id, if that bill is still there. In both cases
      no other bill and no history entry changes. */
  lemma EditorResultEffect(db: Db, b: Bill)
    requires ValidDb(db)
    ensures var r := Apply(db, OnEditorResult(b));
      && r.Some? && r.value.history == db.history
      && (b.id == UnsavedId ==>
            exists key :: key > db.bills.lastId && BillStore.Lookup(db.bills, key).None?
              && BillStore.Lookup(r.value.bills, key) == Some(b.(id := key)))
      && (b.id != UnsavedId && BillStore.Lookup(db.bills, b.id).Some? ==>
            BillStore.Lookup(r.value.bills, b.id) == Some(b))
      && (b.id != UnsavedId ==>
            forall k :: k != b.id ==> BillStore.Lookup(r.value.bills, k) == BillStore.Lookup(db.bills, k))
  {
    if b.id == UnsavedId {
      var key := BillStore.Insert(db.bills, b).1;
      assert BillStore.Lookup(Apply(db, OnEditorResult(b)).value.bills, key) == Some(b.(id := key));
    }
  }

  /** The buttons of the confirmation dialog shown after a swipe. */
  datatype DialogChoice = Positive | Negative | Neutral | Dismissed

  /** A swipe on `b`. For a recurring bill the dialog offers renew (positive),
      delete (negative) and cancel (neutral); for a one-time bill it offers
      delete (positive) and keep (negative). */
  function OnSwipe(z: Zone, b: Bill, choice: DialogChoice): (ops: seq<StoreOp>)
    ensures |ops| <= 1
    ensures forall op :: op in ops ==> !op.RecordPayment? && !op.InsertBill?
    ensures forall op :: op in ops && op.UpdateBill? ==> IsRecurring(b) && op.bill == RenewBill(z, b)
    ensures forall op :: op in ops && op.DeleteBill? ==> op.bill == b
    ensures !IsRecurring(b) ==> ops == [] || ops == [DeleteBill(b)]
    ensures choice.Positive? && IsRecurring(b) <==> ops == [UpdateBill(RenewBill(z, b))]
  {
    if IsRecurring(b) then
      match choice
      case Positive => [UpdateBill(RenewBill(z, b))]
      case Negative => [DeleteBill(b)]
      case _ => []
    else
      match choice
      case Positive => [DeleteBill(b)]
      case _ => []
  }

  /** Renewing a stored recurring bill moves its due date strictly later,
      keeps its id and every other field, leaves every other bill as it was,
      and writes no history entry. */
  lemma RenewEffect(z: Zone, db: Db, b: Bill)
    requires ValidDb(db)
    requires BillStore.Lookup(db.bills, b.id) == Some(b)
    requires IsRecurring(b)
    ensures var r := ApplyAll(db, OnSwipe(z, b, Positive));
      && r.Some?
      && r.value.history == db.history
      && BillStore.Lookup(r.value.bills, b.id) == Some(RenewBill(z, b))
      && RenewBill(z, b).dueDate > b.dueDate
      && RenewBill(z, b).(dueDate := b.dueDate) == b
      && forall k :: k != b.id ==> BillStore.Lookup(r.value.bills, k) == BillStore.Lookup(db.bills, k)
  {
    var ops := OnSwipe(z, b, Positive);
    var next := Apply(db, ops[0]);
    assert ops[1..] == [];
    assert ApplyAll(db, ops) == ApplyAll(next.value, []);
  }

  /** A swipe on a one-time bill either deletes it or changes nothing; it is
      never renewed and never recorded in the history. */
  lemma OneTimeSwipeEffect(z: Zone, db: Db, b: Bill, choice: DialogChoice)
    requires ValidDb(db)
    requires !IsRecurring(b)
    ensures var r := ApplyAll(db, OnSwipe(z, b, choice));
      && r.Some?
      && r.value.history == db.history
      && (r.value == db || (BillStore.Lookup(r.value.bills, b.id).None?
            && forall k :: k != b.id ==> BillStore.Lookup(r.value.bills, k) == BillStore.Lookup(db.bills, k)))
  {
    var ops := OnSwipe(z, b, choice);
    if ops != [] {
      assert ops == [DeleteBill(b)];
      assert ops[1..] == [];
      assert ApplyAll(db, ops) == ApplyAll(Apply(db, ops[0]).value, []);
    }
  }

  /** Renewal adds one period and does not catch up with the present: a
      monthly bill due on 15 January is next due on 15 February, whenever it
      is renewed. */
  lemma RenewalAddsOnePeriod(z: Zone, b: Bill)
    requires ToLocal(z, b.dueDate).date == Date(2024, 1, 15)
    requires b.frequency == 1
    ensures ToLocal(z, RenewBill(z, b).dueDate).date == Date(2024, 2, 15)
  {
  }
}
