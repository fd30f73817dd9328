/** The bills table and its queries, as the data-access interface declares
    them: all bills ordered by due date, bills in an inclusive due-date range,
    per-category sums over all bills, insert-or-replace, update and delete by
    primary key.

    The table is a sequence of rows with distinct, non-zero ids, together with
    the largest id it has ever held. The primary key is auto-generated: a row
    inserted with id 0 receives one more than the largest id ever held, and
    ids are never reused. */
module BillStore {
  import opened Base
  import opened Model

  /** One row of the per-category query: a category and the sum of its amounts. */
  datatype CategoryStat = CategoryStat(category: string, totalAmount: real)

  datatype BillTable = BillTable(rows: seq<Bill>, lastId: int)

  ghost predicate IdsUnique(rows: seq<Bill>) {
    forall i, j :: 0 <= i < |rows| && 0 <= j < |rows| && rows[i].id == rows[j].id ==> i == j
  }

  /** The table invariant: keys are distinct, never the "unsaved" id 0, and
      never above the largest id handed out. */
  ghost predicate Valid(t: BillTable) {
    && t.lastId >= 0
    && IdsUnique(t.rows)
    && (forall i :: 0 <= i < |t.rows| ==> t.rows[i].id != UnsavedId && t.rows[i].id <= t.lastId)
  }

  /** The row with key `id`, if any. */
  function Find(rows: seq<Bill>, id: int): (r: Option<Bill>)
    ensures r.Some? ==> r.value in rows && r.value.id == id
    ensures r.None? ==> forall i :: 0 <= i < |rows| ==> rows[i].id != id
  {
    if |rows| == 0 then None
    else if rows[0].id == id then Some(rows[0])
    else Find(rows[1..], id)
  }

  function Lookup(t: BillTable, id: int): Option<Bill> {
    Find(t.rows, id)
  }

  /** With distinct keys, the row found under `id` is the one row carrying `id`. */
  lemma FindUnique(rows: seq<Bill>, id: int, b: Bill)
    requires IdsUnique(rows)
    ensures Find(rows, id) == Some(b) <==> b in rows && b.id == id
  {
    if b in rows && b.id == id {
      var r := Find(rows, id);
      var i :| 0 <= i < |rows| && rows[i] == b;
      var j :| 0 <= j < |rows| && rows[j] == r.value;
    }
  }

  /** The rows without key `id`, in table order. */
  function Remove(rows: seq<Bill>, id: int): (r: seq<Bill>)
    requires IdsUnique(rows)
    ensures IdsUnique(r)
    ensures forall b :: b in r <==> b in rows && b.id != id
    decreases |rows|
  {
    if |rows| == 0 then []
    else
      TailIdsUnique(rows);
      var rest := Remove(rows[1..], id);
      assert rows == [rows[0]] + rows[1..];
      if rows[0].id == id then rest
      else
        ConsIdsUnique(rows[0], rest);
        [rows[0]] + rest
  }

  /** The tail of a uniquely keyed sequence is uniquely keyed, and none of
      its keys is the head's. */
  lemma TailIdsUnique(rows: seq<Bill>)
    requires |rows| > 0 && IdsUnique(rows)
    ensures IdsUnique(rows[1..])
    ensures forall b :: b in rows[1..] ==> b.id != rows[0].id
  {
    forall i, j | 0 <= i < |rows[1..]| && 0 <= j < |rows[1..]| && rows[1..][i].id == rows[1..][j].id
      ensures i == j
    {
      assert rows[i + 1].id == rows[j + 1].id;
    }
    forall b | b in rows[1..]
      ensures b.id != rows[0].id
    {
      var j :| 0 <= j < |rows[1..]| && rows[1..][j] == b;
      assert rows[j + 1] == b;
    }
  }

  /** Putting a row in front of uniquely keyed rows without its key keeps
      the keys unique. */
  lemma ConsIdsUnique(a: Bill, rest: seq<Bill>)
    requires IdsUnique(rest)
    requires forall b :: b in rest ==> b.id != a.id
    ensures IdsUnique([a] + rest)
  {
    var r := [a] + rest;
    forall i, j | 0 <= i < |r| && 0 <= j < |r| && r[i].id == r[j].id
      ensures i == j
    {
      if i > 0 {
        assert r[i] == rest[i - 1];
        assert r[i] in rest;
      }
      if j > 0 {
        assert r[j] == rest[j - 1];
        assert r[j] in rest;
      }
    }
  }

  /** Every row whose key is `b.id` replaced by `b`, all others kept in place. */
  function Replace(rows: seq<Bill>, b: Bill): (r: seq<Bill>)
    ensures |r| == |rows|
    ensures forall i :: 0 <= i < |r| ==> r[i] == if rows[i].id == b.id then b else rows[i]
    decreases |rows|
  {
    if |rows| == 0 then []
    else [if rows[0].id == b.id then b else rows[0]] + Replace(rows[1..], b)
  }

  /** `insert` with the REPLACE conflict strategy. An id of 0 asks the store for
      a fresh key; any other id is used as given and a row already holding it
      is replaced. Returns the new table and the key the bill was stored under. */
  function Insert(t: BillTable, b: Bill): (r: (BillTable, int))
    requires Valid(t)
    ensures Valid(r.0)
    ensures b.id != UnsavedId ==> r.1 == b.id
    ensures b.id == UnsavedId ==> r.1 > t.lastId && Lookup(t, r.1).None?
    ensures Lookup(r.0, r.1) == Some(b.(id := r.1))
    ensures forall k :: k != r.1 ==> Lookup(r.0, k) == Lookup(t, k)
  {
    var key := if b.id == UnsavedId then t.lastId + 1 else b.id;
    var stored := b.(id := key);
    var rows := Remove(t.rows, key) + [stored];
    InsertedRowsValid(t, stored);
    InsertedRowsLookup(t, stored);
    (BillTable(rows, if key > t.lastId then key else t.lastId), key)
  }

  /** The rows after storing `stored`: every row with its key removed, then
      `stored` appended. They stay validly keyed under the larger of the two
      last ids. */
  lemma InsertedRowsValid(t: BillTable, stored: Bill)
    requires Valid(t) && stored.id != UnsavedId
    ensures var rows := Remove(t.rows, stored.id) + [stored];
      Valid(BillTable(rows, if stored.id > t.lastId then stored.id else t.lastId))
  {
    var kept := Remove(t.rows, stored.id);
    var rows := kept + [stored];
    assert IdsUnique(rows) by {
      forall i, j | 0 <= i < |rows| && 0 <= j < |rows| && rows[i].id == rows[j].id
        ensures i == j
      {
        if i < |kept| {
          assert rows[i] in kept;
        }
        if j < |kept| {
          assert rows[j] in kept;
        }
      }
    }
    forall i | 0 <= i < |rows|
      ensures rows[i].id != UnsavedId && rows[i].id <= if stored.id > t.lastId then stored.id else t.lastId
    {
      if i < |kept| {
        assert rows[i] in kept;
        assert rows[i] in t.rows;
      }
    }
  }

  /** After storing, the key of `stored` finds `stored` and every other key
      finds what it found before. */
  lemma InsertedRowsLookup(t: BillTable, stored: Bill)
    requires Valid(t) && stored.id != UnsavedId
    ensures var rows := Remove(t.rows, stored.id) + [stored];
      && Find(rows, stored.id) == Some(stored)
      && forall k :: k != stored.id ==> Find(rows, k) == Find(t.rows, k)
  {
    var kept := Remove(t.rows, stored.id);
    var rows := kept + [stored];
    InsertedRowsValid(t, stored);
    FindUnique(rows, stored.id, stored);
    forall k | k != stored.id
      ensures Find(rows, k) == Find(t.rows, k)
    {
      var found := Find(t.rows, k);
      if found.Some? {
        FindUnique(t.rows, k, found.value);
        assert found.value in kept;
        FindUnique(rows, k, found.value);
      }
    }
  }

  /** `update`: the row whose key is `b.id`, if there is one, becomes `b`;
      without such a row nothing changes. */
  function Update(t: BillTable, b: Bill): (r: BillTable)
    requires Valid(t)
    ensures Valid(r)
    ensures r.lastId == t.lastId
    ensures Lookup(r, b.id) == if Lookup(t, b.id).Some? then Some(b) else None
    ensures forall k :: k != b.id ==> Lookup(r, k) == Lookup(t, k)
  {
    var rows := Replace(t.rows, b);
    var t' := BillTable(rows, t.lastId);
    assert Valid(t');
    assert forall k :: Lookup(t', k) == if k == b.id && Lookup(t, k).Some? then Some(b) else Lookup(t, k) by {
      forall k
        ensures Lookup(t', k) == if k == b.id && Lookup(t, k).Some? then Some(b) else Lookup(t, k)
      {
        var found := Lookup(t, k);
        if found.Some? {
          FindUnique(t.rows, k, found.value);
          var i :| 0 <= i < |t.rows| && t.rows[i] == found.value;
          assert rows[i] in rows;
          FindUnique(rows, k, rows[i]);
        }
      }
    }
    t'
  }

  /** `delete`: the row whose key is `b.id` goes, every other row stays. */
  function Delete(t: BillTable, b: Bill): (r: BillTable)
    requires Valid(t)
    ensures Valid(r)
    ensures r.lastId == t.lastId
    ensures Lookup(r, b.id).None?
    ensures forall k :: k != b.id ==> Lookup(r, k) == Lookup(t, k)
  {
    var rows := Remove(t.rows, b.id);
    var t' := BillTable(rows, t.lastId);
    assert forall i :: 0 <= i < |rows| ==> rows[i] in t.rows by {
      forall i | 0 <= i < |rows|
        ensures rows[i] in t.rows
      {
        assert rows[i] in rows;
      }
    }
    assert Valid(t');
    assert forall k :: k != b.id ==> Lookup(t', k) == Lookup(t, k) by {
      forall k | k != b.id
        ensures Lookup(t', k) == Lookup(t, k)
      {
        var found := Lookup(t, k);
        if found.Some? {
          FindUnique(t.rows, k, found.value);
          FindUnique(rows, k, found.value);
        } else {
          var found' := Lookup(t', k);
          if found'.Some? {
            FindUnique(rows, k, found'.value);
            assert false;
          }
        }
      }
    }
    t'
  }

  /** `getAllBills`: every stored bill, earliest due date first. */
  function AllBills(t: BillTable): (r: seq<Bill>)
    ensures multiset(r) == multiset(t.rows)
    ensures forall i, j :: 0 <= i < j < |r| ==> r[i].dueDate <= r[j].dueDate
  {
    var sorted := SortBy(t.rows, (b: Bill) => b.dueDate);
    assert SortedBy(sorted, (b: Bill) => b.dueDate);
    sorted
  }

  /** `getBillsInRange`: the stored bills due between `start` and `end`, both included. */
  function BillsInRange(t: BillTable, start: int, end: int): (r: seq<Bill>)
    ensures forall b :: b in r <==> b in t.rows && start <= b.dueDate <= end
    ensures multiset(r) <= multiset(t.rows)
  {
    Filter(t.rows, (b: Bill) => start <= b.dueDate <= end)
  }

  /** Does `stats` hold a row for category `c`? */
  predicate HasCategory(stats: seq<CategoryStat>, c: string)
    decreases |stats|
  {
    |stats| > 0 && (stats[0].category == c || HasCategory(stats[1..], c))
  }

  ghost predicate DistinctCategories(stats: seq<CategoryStat>) {
    forall i, j :: 0 <= i < j < |stats| ==> stats[i].category != stats[j].category
  }

  /** The total in the row for `c`, and 0 when there is no such row. */
  function TotalOf(stats: seq<CategoryStat>, c: string): real
    decreases |stats|
  {
    if |stats| == 0 then 0.0
    else if stats[0].category == c then stats[0].totalAmount
    else TotalOf(stats[1..], c)
  }

  function SumTotals(stats: seq<CategoryStat>): real
    decreases |stats|
  {
    if |stats| == 0 then 0.0 else stats[0].totalAmount + SumTotals(stats[1..])
  }

  lemma {:induction false} HasCategoryIndex(stats: seq<CategoryStat>, c: string)
    ensures HasCategory(stats, c) <==> exists i :: 0 <= i < |stats| && stats[i].category == c
    decreases |stats|
  {
    if |stats| > 0 {
      HasCategoryIndex(stats[1..], c);
      if HasCategory(stats[1..], c) {
        var i :| 0 <= i < |stats[1..]| && stats[1..][i].category == c;
        assert stats[i + 1].category == c;
      }
      if exists i :: 0 <= i < |stats| && stats[i].category == c {
        var i :| 0 <= i < |stats| && stats[i].category == c;
        if i > 0 {
          assert stats[1..][i - 1].category == c;
        }
      }
    }
  }

  /** Folds one bill into per-category totals: its amount is added to the row
      of its category, or a new row is appended for a category not yet seen. */
  function AddTo(stats: seq<CategoryStat>, b: Bill): (r: seq<CategoryStat>)
    requires DistinctCategories(stats)
    ensures DistinctCategories(r)
    ensures forall c :: HasCategory(r, c) <==> HasCategory(stats, c) || c == b.category
    ensures forall c :: TotalOf(r, c) == TotalOf(stats, c) + (if c == b.category then b.amount else 0.0)
    ensures SumTotals(r) == SumTotals(stats) + b.amount
    decreases |stats|
  {
    if |stats| == 0 then [CategoryStat(b.category, b.amount)]
    else if stats[0].category == b.category then
      assert !HasCategory(stats[1..], b.category) by {
        HasCategoryIndex(stats[1..], b.category);
      }
      assert forall c :: c == b.category ==> TotalOf(stats[1..], c) == 0.0 by {
        NoRowNoTotal(stats[1..], b.category);
      }
      var r := [stats[0].(totalAmount := stats[0].totalAmount + b.amount)] + stats[1..];
      assert r[1..] == stats[1..];
      r
    else
      var rest := AddTo(stats[1..], b);
      var r := [stats[0]] + rest;
      assert r[1..] == rest;
      assert DistinctCategories(r) by {
        assert !HasCategory(stats[1..], stats[0].category) by {
          HasCategoryIndex(stats[1..], stats[0].category);
        }
        HasCategoryIndex(rest, stats[0].category);
        forall i, j | 0 <= i < j < |r|
          ensures r[i].category != r[j].category
        {
          if i == 0 {
            assert rest[j - 1].category == r[j].category;
          }
        }
      }
      r
  }

  lemma {:induction false} NoRowNoTotal(stats: seq<CategoryStat>, c: string)
    requires !HasCategory(stats, c)
    ensures TotalOf(stats, c) == 0.0
    decreases |stats|
  {
    if |stats| > 0 {
      NoRowNoTotal(stats[1..], c);
    }
  }

  /** The categories occurring among `bills`. */
  function BillCategories(bills: seq<Bill>): (cs: set<string>)
    ensures forall c :: c in cs <==> exists i :: 0 <= i < |bills| && bills[i].category == c
    decreases |bills|
  {
    if |bills| == 0 then {}
    else
      var init := bills[..|bills| - 1];
      var cs := BillCategories(init);
      assert forall i :: 0 <= i < |init| ==> init[i] == bills[i];
      cs + {bills[|bills| - 1].category}
  }

  /** The sum of the amounts of the bills in category `c`. */
  function CategorySum(bills: seq<Bill>, c: string): (total: real)
    ensures total == SumAmounts(Filter(bills, (b: Bill) => b.category == c))
    decreases |bills|
  {
    if |bills| == 0 then 0.0
    else
      var last := bills[|bills| - 1];
      CategorySum(bills[..|bills| - 1], c) + (if last.category == c then last.amount else 0.0)
  }

  /** Groups `bills` by their category text, verbatim, and sums each group;
      categories appear in the order of their first bill. */
  function GroupTotals(bills: seq<Bill>): (r: seq<CategoryStat>)
    ensures DistinctCategories(r)
    ensures forall c :: HasCategory(r, c) <==> c in BillCategories(bills)
    ensures forall c :: TotalOf(r, c) == CategorySum(bills, c)
    ensures SumTotals(r) == SumAmounts(bills)
    decreases |bills|
  {
    if |bills| == 0 then []
    else AddTo(GroupTotals(bills[..|bills| - 1]), bills[|bills| - 1])
  }

  /** `getCategoryStats`: one row per category among all stored bills, with
      no date filter, holding the sum of that category's amounts. */
  function CategoryStats(t: BillTable): (r: seq<CategoryStat>)
    ensures DistinctCategories(r)
    ensures forall c :: HasCategory(r, c) <==> exists i :: 0 <= i < |t.rows| && t.rows[i].category == c
    ensures forall c :: TotalOf(r, c) == SumAmounts(Filter(t.rows, (b: Bill) => b.category == c))
  {
    GroupTotals(t.rows)
  }
}
