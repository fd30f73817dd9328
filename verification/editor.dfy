/** The edit screen: the frequency spinner's index mapping, loading a bill
    into the form, and the validation that turns the form into a bill.

    The category spinner's entries come from a string resource, so they are
    the parameter `categories`; the text-to-number conversion of the amount
    field is the parameter `parse`; `now` is the current instant. */
module Editor {
  import opened Base
  import opened Model

  /** The frequencies offered, in spinner order. */
  const FrequencyValues: seq<int> := [0, 1, 3, 6, 12]

  /** The first position of `x` in `s`, or -1 when `x` does not occur. */
  function IndexOf<T(==)>(s: seq<T>, x: T): (r: int)
    ensures -1 <= r < |s|
    ensures r == -1 <==> x !in s
    ensures r >= 0 ==> s[r] == x && forall k :: 0 <= k < r ==> s[k] != x
    decreases |s|
  {
    if |s| == 0 then -1
    else if s[0] == x then 0
    else
      var k := IndexOf(s[1..], x);
      if k == -1 then -1 else k + 1
  }

  /** The frequency at spinner position `i`. */
  function FrequencyAt(i: int): (f: int)
    requires 0 <= i < |FrequencyValues|
    ensures RecurrenceOf(f).Some?
    ensures f == 0 <==> i == 0
  {
    FrequencyValues[i]
  }

  /** Looking up the position of the frequency at a position gives that
      position back: the values are distinct. */
  lemma FrequencyIndexRoundTrip(i: int)
    requires 0 <= i < |FrequencyValues|
    ensures IndexOf(FrequencyValues, FrequencyAt(i)) == i
  {
  }

  /** Every frequency with a meaning has a position, and the position maps
      back to it. */
  lemma IndexFrequencyRoundTrip(r: Recurrence)
    ensures var i := IndexOf(FrequencyValues, MonthsOf(r));
      0 <= i < |FrequencyValues| && FrequencyAt(i) == MonthsOf(r)
  {
    assert MonthsOf(r) in FrequencyValues;
  }

  /** Selecting `value` in a spinner showing `options`: its position when it
      is offered, otherwise the current selection stays. */
  function SpinnerAfterLoad<T(==)>(options: seq<T>, current: int, value: T): (sel: int)
    ensures value in options ==> 0 <= sel < |options| && options[sel] == value
    ensures value !in options ==> sel == current
  {
    var i := IndexOf(options, value);
    if i >= 0 then i else current
  }

  /** Kotlin's `Char.isWhitespace`: Java's whitespace characters together
      with the space separators. */
  predicate IsWhitespace(c: char) {
    || ('\U{9}' <= c <= '\U{D}')
    || ('\U{1C}' <= c <= '\U{20}')
    || c == '\U{A0}' || c == '\U{1680}'
    || ('\U{2000}' <= c <= '\U{200A}')
    || c == '\U{2028}' || c == '\U{2029}' || c == '\U{202F}' || c == '\U{205F}' || c == '\U{3000}'
  }

  /** Drops the leading whitespace. */
  function TrimStart(s: string): (r: string)
    ensures |r| <= |s| && r == s[|s| - |r|..]
    ensures forall k :: 0 <= k < |s| - |r| ==> IsWhitespace(s[k])
    ensures |r| > 0 ==> !IsWhitespace(r[0])
    decreases |s|
  {
    if |s| > 0 && IsWhitespace(s[0]) then TrimStart(s[1..]) else s
  }

  /** Drops the trailing whitespace. */
  function TrimEnd(s: string): (r: string)
    ensures |r| <= |s| && r == s[..|r|]
    ensures forall k :: |r| <= k < |s| ==> IsWhitespace(s[k])
    ensures |r| > 0 ==> !IsWhitespace(r[|r| - 1])
    decreases |s|
  {
    if |s| > 0 && IsWhitespace(s[|s| - 1]) then TrimEnd(s[..|s| - 1]) else s
  }

  /** `trim`: the text between the leading and the trailing whitespace. */
  function Trim(s: string): (r: string)
    ensures exists i, j ::
      && 0 <= i <= j <= |s| && r == s[i..j]
      && (forall k :: 0 <= k < i ==> IsWhitespace(s[k]))
      && (forall k :: j <= k < |s| ==> IsWhitespace(s[k]))
    ensures |r| > 0 ==> !IsWhitespace(r[0]) && !IsWhitespace(r[|r| - 1])
  {
    var front := TrimStart(s);
    var r := TrimEnd(front);
    var i := |s| - |front|;
    assert r == s[i..i + |r|];
    assert |r| > 0 ==> r[0] == front[0];
    r
  }

  /** Trimming twice is trimming once. */
  lemma TrimIdempotent(s: string)
    ensures Trim(Trim(s)) == Trim(s)
  {
    var t := Trim(s);
    if |t| > 0 {
      NoEdgeWhitespaceTrimsToSelf(t);
    } else {
      assert Trim(t) == [];
    }
  }

  /** A text that neither starts nor ends with whitespace is its own trim. */
  lemma NoEdgeWhitespaceTrimsToSelf(t: string)
    requires |t| > 0 && !IsWhitespace(t[0]) && !IsWhitespace(t[|t| - 1])
    ensures Trim(t) == t
  {
    assert TrimStart(t) == t;
    assert TrimEnd(t) == t;
  }

  /** The trimmed text is empty exactly when the text is all whitespace. */
  lemma TrimEmptyIffBlank(s: string)
    ensures Trim(s) == [] <==> forall k :: 0 <= k < |s| ==> IsWhitespace(s[k])
  {
    var front := TrimStart(s);
    if Trim(s) == [] {
      assert |front| == 0;
    } else {
      assert |front| > 0 && !IsWhitespace(front[0]);
      assert front[0] == s[|s| - |front|];
    }
  }

  /** The form's state when "save" is pressed. */
  datatype Form = Form(
    editBillId: int,
    nameText: string,
    amountText: string,
    categoryIndex: int,
    notesText: string,
    frequencyIndex: int,
    selectedDate: int)

  /** A fresh form: no bill being edited, both spinners at their first entry,
      the due date preset to `now`. */
  function NewForm(now: int): (f: Form)
    ensures f.editBillId == UnsavedId && f.selectedDate == now
    ensures f.frequencyIndex == 0 && f.categoryIndex == 0
  {
    Form(UnsavedId, "", "", 0, "", 0, now)
  }

  /** The form filled from a bill being edited. The amount is shown with
      `show`; a spinner whose entries do not contain the bill's value keeps its
      selection. */
  function LoadBill(f: Form, b: Bill, categories: seq<string>, show: real -> string): (g: Form)
    ensures g.editBillId == b.id && g.nameText == b.name && g.notesText == b.notes
    ensures g.amountText == show(b.amount) && g.selectedDate == b.dueDate
    ensures g.categoryIndex == SpinnerAfterLoad(categories, f.categoryIndex, b.category)
    ensures g.frequencyIndex == SpinnerAfterLoad(FrequencyValues, f.frequencyIndex, b.frequency)
  {
    Form(b.id, b.name, show(b.amount),
         SpinnerAfterLoad(categories, f.categoryIndex, b.category),
         b.notes,
         SpinnerAfterLoad(FrequencyValues, f.frequencyIndex, b.frequency),
         b.dueDate)
  }

  /** Why a save was refused. */
  datatype SaveError = NameRequired | AmountRequired

  /** What pressing "save" leads to. */
  datatype SaveOutcome = Saved(bill: Bill) | Rejected(error: SaveError)

  /** `saveBill`. The name, amount and notes fields are trimmed; an empty name
      is refused first, then an amount that does not parse or is not
      positive. A saved bill keeps the edited bill's id (0 for a new one) and
      is stamped as created now. */
  function SaveBill(f: Form, categories: seq<string>, parse: string -> Option<real>, now: int): (r: SaveOutcome)
    requires 0 <= f.categoryIndex < |categories|
    requires 0 <= f.frequencyIndex < |FrequencyValues|
    ensures r == Rejected(NameRequired) <==> Trim(f.nameText) == ""
    ensures r == Rejected(AmountRequired) <==>
      Trim(f.nameText) != ""
      && (parse(Trim(f.amountText)).None? || parse(Trim(f.amountText)).value <= 0.0)
    ensures r.Saved? ==>
      && r.bill.id == f.editBillId
      && r.bill.name == Trim(f.nameText) && r.bill.name != ""
      && parse(Trim(f.amountText)) == Some(r.bill.amount) && r.bill.amount > 0.0
      && r.bill.dueDate == f.selectedDate
      && r.bill.category == categories[f.categoryIndex]
      && r.bill.notes == Trim(f.notesText)
      && r.bill.frequency == FrequencyAt(f.frequencyIndex)
      && r.bill.createdAt == now
  {
    var name := Trim(f.nameText);
    var amount := parse(Trim(f.amountText));
    var frequency := FrequencyValues[f.frequencyIndex];
    if name == "" then Rejected(NameRequired)
    else if amount.None? || amount.value <= 0.0 then Rejected(AmountRequired)
    else Saved(Bill(f.editBillId, name, amount.value, f.selectedDate,
                    categories[f.categoryIndex], Trim(f.notesText), now, frequency))
  }

  /** Whitespace around the name does not matter, and a name of blanks only
      is refused even when the amount is valid. */
  lemma BlankNameRefused(f: Form, categories: seq<string>, parse: string -> Option<real>, now: int)
    requires 0 <= f.categoryIndex < |categories|
    requires 0 <= f.frequencyIndex < |FrequencyValues|
    requires forall k :: 0 <= k < |f.nameText| ==> IsWhitespace(f.nameText[k])
    ensures SaveBill(f, categories, parse, now) == Rejected(NameRequired)
  {
    TrimEmptyIffBlank(f.nameText);
  }

  /** Editing a bill and saving without changes gives the bill back, except
      that it is stamped as created now, provided its category and frequency
      are offered, its name and notes carry no surrounding whitespace, and the
      amount survives being shown and parsed. */
  lemma EditRoundTrip(f: Form, b: Bill, categories: seq<string>, show: real -> string,
                      parse: string -> Option<real>, now: int)
    requires b.category in categories
    requires b.frequency in FrequencyValues
    requires Trim(b.name) == b.name != "" && Trim(b.notes) == b.notes
    requires b.amount > 0.0 && parse(Trim(show(b.amount))) == Some(b.amount)
    ensures var g := LoadBill(f, b, categories, show);
      SaveBill(g, categories, parse, now) == Saved(b.(createdAt := now))
  {
  }

  /** A bill whose category is not among the offered entries (a Polish token
      on an English spinner, say) takes the spinner's current entry when it is
      edited and saved; one whose frequency is not offered takes the current
      frequency. */
  lemma UnofferedValuesReplaced(f: Form, b: Bill, categories: seq<string>, show: real -> string,
                                parse: string -> Option<real>, now: int)
    requires 0 <= f.categoryIndex < |categories|
    requires 0 <= f.frequencyIndex < |FrequencyValues|
    requires b.category !in categories
    requires b.frequency !in FrequencyValues
    ensures var r := SaveBill(LoadBill(f, b, categories, show), categories, parse, now);
      r.Saved? ==> (r.bill.category == categories[f.categoryIndex] != b.category
                    && r.bill.frequency == FrequencyAt(f.frequencyIndex) != b.frequency)
  {
  }
}
