/** The periodic reminder job: it is meant to select every bill due within
    three days of the current instant, overdue bills included, and posts one
    notification per selected bill, keyed by the bill's id truncated to 32
    bits. As written it compares a wrapping 64-bit difference, so a bill due
    more than 2^63 ms before now is missed; both selections are modelled. */
module Reminder {
  import opened Base
  import opened Model

  /** Three days in milliseconds. */
  const LookaheadMs: int := 3 * 24 * 60 * 60 * 1000

  lemma LookaheadValue()
    ensures LookaheadMs == 259_200_000
  {
  }

  /** The selection condition as written: the difference of two 64-bit
      instants, which wraps around when it does not fit in 64 bits. */
  predicate IsDueForNoticeAsWritten(b: Bill, now: int) {
    WrapLong(b.dueDate - now) <= LookaheadMs
  }

  /** The intended selection condition: due no later than three days from now. */
  predicate IsDueForNotice(b: Bill, now: int) {
    b.dueDate - now <= LookaheadMs
  }

  /** The job's filter as written, with the wrapping difference. */
  function SelectDueForNoticeAsWritten(bills: seq<Bill>, now: int): (r: seq<Bill>)
    ensures forall b :: b in r <==> b in bills && IsDueForNoticeAsWritten(b, now)
  {
    Filter(bills, DueTestAsWritten(now))
  }

  function DueTestAsWritten(now: int): Bill -> bool {
    (b: Bill) => IsDueForNoticeAsWritten(b, now)
  }

  /** An instant more than 2^63 ms before `now` wraps to a large positive
      difference, so a long-overdue bill is not selected as written. */
  lemma AsWrittenMissesOverdue()
    ensures var b := Bill(1, "rent", 100.0, LongMin, "Rent/Mortgage", "", 0, 1);
      && InLongRange(b.dueDate) && b.dueDate < 1
      && SelectDueForNoticeAsWritten([b], 1) == []
      && SelectDueForNotice([b], 1) == [b]
  {
    var b := Bill(1, "rent", 100.0, LongMin, "Rent/Mortgage", "", 0, 1);
    WrapBelowLongMin();
    assert !IsDueForNoticeAsWritten(b, 1);
    FilterSingleton(b, DueTestAsWritten(1));
    FilterSingleton(b, DueTest(1));
  }

  /** One below the smallest Long wraps to the largest. */
  lemma WrapBelowLongMin()
    ensures WrapLong(LongMin - 1) == LongMax
  {
    assert (LongMin - 1 - LongMin) % TwoTo64 == TwoTo64 - 1;
  }

  /** Whenever the difference of the two instants fits in 64 bits (for
      instants within 292 million years of each other), the written
      condition and the intended one agree. */
  lemma AsWrittenAgrees(b: Bill, now: int)
    requires InLongRange(b.dueDate - now)
    ensures IsDueForNoticeAsWritten(b, now) <==> IsDueForNotice(b, now)
  {
  }

  /** The bills the job selects, in their listed order. */
  function SelectDueForNotice(bills: seq<Bill>, now: int): (r: seq<Bill>)
    ensures forall b :: b in r <==> b in bills && b.dueDate <= now + LookaheadMs
    ensures forall b :: b in bills && b.dueDate < now ==> b in r
    ensures multiset(r) <= multiset(bills)
  {
    Filter(bills, DueTest(now))
  }

  /** The selection condition at `now`, as a test to filter with. */
  function DueTest(now: int): Bill -> bool {
    (b: Bill) => IsDueForNotice(b, now)
  }

  /** The window is closed at its far end: a bill due exactly three days
      ahead is selected, one due a millisecond later is not. */
  lemma WindowBoundary(b: Bill, now: int)
    ensures b.dueDate == now + LookaheadMs ==> SelectDueForNotice([b], now) == [b]
    ensures b.dueDate == now + LookaheadMs + 1 ==> SelectDueForNotice([b], now) == []
  {
    FilterSingleton(b, DueTest(now));
  }

  /** With three days of lookahead, a bill due a day ago and one due in two
      days are selected, one due in ten days is not. */
  lemma ReminderWindowExample(now: int, overdue: Bill, soon: Bill, later: Bill)
    requires overdue.dueDate == now - 86_400_000
    requires soon.dueDate == now + 2 * 86_400_000
    requires later.dueDate == now + 10 * 86_400_000
    ensures SelectDueForNotice([overdue, soon, later], now) == [overdue, soon]
  {
    var p := DueTest(now);
    assert p(overdue) && p(soon) && !p(later);
    FilterSingleton(overdue, p);
    FilterSingleton(soon, p);
    FilterSingleton(later, p);
    var two := [overdue, soon];
    assert [overdue] + [soon] == two;
    assert two + [later] == [overdue, soon, later];
    FilterConcat([overdue], [soon], p);
    assert Filter(two, p) == two;
    FilterConcat(two, [later], p);
  }

  /** Selection looks only at the due date: changing a bill's recurrence or
      category does not change whether it is selected. */
  lemma SelectionIgnoresFrequencyAndCategory(b: Bill, now: int, frequency: int, category: string)
    ensures SelectDueForNotice([b.(frequency := frequency, category := category)], now) != []
        <==> SelectDueForNotice([b], now) != []
  {
    FilterSingleton(b, DueTest(now));
    FilterSingleton(b.(frequency := frequency, category := category), DueTest(now));
  }

  /** A posted notification: its key, the bill's name and amount. */
  datatype Notification = Notification(key: int, name: string, amount: real)

  /** The outcomes a background job can report. */
  datatype JobResult = Success | Failure | Retry

  /** One notification per selected bill, in order. */
  function Notifications(selected: seq<Bill>): (ns: seq<Notification>)
    ensures |ns| == |selected|
    ensures forall i :: 0 <= i < |ns| ==>
      ns[i].key == LongToInt(selected[i].id) && InIntRange(ns[i].key)
      && ns[i].name == selected[i].name && ns[i].amount == selected[i].amount
    decreases |selected|
  {
    if |selected| == 0 then []
    else
      var last := selected[|selected| - 1];
      Notifications(selected[..|selected| - 1]) + [Notification(LongToInt(last.id), last.name, last.amount)]
  }

  /** Bills with distinct ids that fit in 32 bits get distinct notification
      keys, so no reminder overwrites another. */
  lemma DistinctKeys(selected: seq<Bill>)
    requires forall i :: 0 <= i < |selected| ==> InIntRange(selected[i].id)
    requires forall i, j :: 0 <= i < j < |selected| ==> selected[i].id != selected[j].id
    ensures forall i, j :: 0 <= i < j < |selected| ==>
      Notifications(selected)[i].key != Notifications(selected)[j].key
  {
  }

  /** Ids 2^32 apart share a notification key: the later reminder replaces the earlier one. */
  lemma KeyCollision()
    ensures LongToInt(TwoTo32 + 5) == LongToInt(5) == 5
  {
  }

  /** `doWork` as written: select with the wrapping difference, notify once
      per selected bill, and report success whether or not anything was
      selected. */
  function DoWork(bills: seq<Bill>, now: int): (r: (JobResult, seq<Notification>))
    ensures r.0 == Success
    ensures |r.1| == |SelectDueForNoticeAsWritten(bills, now)|
    ensures forall n :: n in r.1 <==> exists b :: b in bills && IsDueForNoticeAsWritten(b, now)
                                                  && n == Notification(LongToInt(b.id), b.name, b.amount)
  {
    var selected := SelectDueForNoticeAsWritten(bills, now);
    NotificationsOf(selected);
    (Success, Notifications(selected))
  }

  /** The job with the intended selection: every bill due no later than three
      days from now, overdue bills included, gets its notification. */
  function DoWorkCorrected(bills: seq<Bill>, now: int): (r: (JobResult, seq<Notification>))
    ensures r.0 == Success
    ensures |r.1| == |SelectDueForNotice(bills, now)|
    ensures forall n :: n in r.1 <==> exists b :: b in bills && b.dueDate <= now + LookaheadMs
                                                  && n == Notification(LongToInt(b.id), b.name, b.amount)
  {
    var selected := SelectDueForNotice(bills, now);
    NotificationsOf(selected);
    (Success, Notifications(selected))
  }

  /** The notifications are exactly one per selected bill. */
  lemma NotificationsOf(selected: seq<Bill>)
    ensures forall n :: n in Notifications(selected) <==>
      exists b :: b in selected && n == Notification(LongToInt(b.id), b.name, b.amount)
  {
  }

  /** When every bill is due within 2^63 ms of now, the job as written posts
      exactly the notifications of the intended job, in the same order. */
  lemma DoWorkAgrees(bills: seq<Bill>, now: int)
    requires forall i :: 0 <= i < |bills| ==> InLongRange(bills[i].dueDate - now)
    ensures DoWork(bills, now) == DoWorkCorrected(bills, now)
  {
    forall i | 0 <= i < |bills|
      ensures DueTestAsWritten(now)(bills[i]) == DueTest(now)(bills[i])
    {
      AsWrittenAgrees(bills[i], now);
    }
    FilterAgree(bills, DueTestAsWritten(now), DueTest(now));
  }

  /** For the long-overdue bill of `AsWrittenMissesOverdue`, the job as written
      posts nothing and the intended job posts its reminder. */
  lemma DoWorkMissesOverdue()
    ensures var b := Bill(1, "rent", 100.0, LongMin, "Rent/Mortgage", "", 0, 1);
      && DoWork([b], 1).1 == []
      && DoWorkCorrected([b], 1).1 == [Notification(1, "rent", 100.0)]
  {
    AsWrittenMissesOverdue();
    var b := Bill(1, "rent", 100.0, LongMin, "Rent/Mortgage", "", 0, 1);
    assert [b][..0] == [];
    assert LongToInt(1) == 1;
  }
}
