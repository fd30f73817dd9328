/** The payment-history table: a plain insert (which aborts on a key
    conflict), the full history newest payment first, and clearing. Keys are
    auto-generated as in the bills table. */
module HistoryStore {
  import opened Base
  import opened Model

  datatype HistoryTable = HistoryTable(rows: seq<PaymentHistory>, lastId: int)

  ghost predicate Valid(t: HistoryTable) {
    && t.lastId >= 0
    && (forall i, j :: 0 <= i < |t.rows| && 0 <= j < |t.rows| && t.rows[i].id == t.rows[j].id ==> i == j)
    && (forall i :: 0 <= i < |t.rows| ==> t.rows[i].id != UnsavedId && t.rows[i].id <= t.lastId)
  }

  predicate HasKey(t: HistoryTable, id: int) {
    exists i :: 0 <= i < |t.rows| && t.rows[i].id == id
  }

  /** `insert` with the default ABORT strategy: an entry whose explicit id is
      already taken is refused (`None`); otherwise the entry is added, with a
      fresh key when its id is 0, and the existing entries stay as they were. */
  function Insert(t: HistoryTable, h: PaymentHistory): (r: Option<HistoryTable>)
    requires Valid(t)
    ensures r.None? <==> h.id != UnsavedId && HasKey(t, h.id)
    ensures r.Some? ==> Valid(r.value)
    ensures r.Some? && h.id == UnsavedId ==> r.value.rows == t.rows + [h.(id := t.lastId + 1)]
    ensures r.Some? && h.id != UnsavedId ==> r.value.rows == t.rows + [h]
  {
    if h.id != UnsavedId && HasKey(t, h.id) then None
    else
      var key := if h.id == UnsavedId then t.lastId + 1 else h.id;
      var rows := t.rows + [h.(id := key)];
      var t' := HistoryTable(rows, if key > t.lastId then key else t.lastId);
      assert Valid(t');
      Some(t')
  }

  /** `getAllHistory`: every entry, the latest `paymentDate` first. */
  function AllHistory(t: HistoryTable): (r: seq<PaymentHistory>)
    ensures multiset(r) == multiset(t.rows)
    ensures forall i, j :: 0 <= i < j < |r| ==> r[i].paymentDate >= r[j].paymentDate
  {
    var sorted := SortBy(t.rows, (h: PaymentHistory) => -h.paymentDate);
    assert SortedBy(sorted, (h: PaymentHistory) => -h.paymentDate);
    sorted
  }

  /** `clearHistory`: every entry is deleted. The key counter is kept, so keys
      handed out before are not reused. */
  function Clear(t: HistoryTable): (r: HistoryTable)
    requires Valid(t)
    ensures Valid(r)
    ensures r.rows == [] && r.lastId == t.lastId
  {
    HistoryTable([], t.lastId)
  }

  /** After an accepted insert the listing holds exactly the old entries and the new one. */
  lemma InsertThenList(t: HistoryTable, h: PaymentHistory)
    requires Valid(t) && h.id == UnsavedId
    ensures Insert(t, h).Some?
    ensures multiset(AllHistory(Insert(t, h).value)) == multiset(AllHistory(t)) + multiset{h.(id := t.lastId + 1)}
  {
    var r := Insert(t, h).value;
    assert r.rows == t.rows + [h.(id := t.lastId + 1)];
    assert multiset(r.rows) == multiset(t.rows) + multiset{h.(id := t.lastId + 1)};
  }

  /** After clearing, the listing is empty. */
  lemma ClearThenList(t: HistoryTable)
    requires Valid(t)
    ensures AllHistory(Clear(t)) == []
  {
  }
}
