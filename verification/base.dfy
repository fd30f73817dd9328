/** Small generic building blocks shared by the bill model: an optional value,
    order-preserving filtering, sorting by an integer key, and the two-complement
    wrap-around of the JVM's 64-bit and 32-bit integers. */
module Base {

  datatype Option<+T> = None | Some(value: T)

  /** Keeps, in their original order, the elements that satisfy `p`
      (Kotlin's `List.filter`, or a SQL `WHERE` over a table scan). */
  function Filter<T(!new)>(s: seq<T>, p: T -> bool): (r: seq<T>)
    ensures |r| <= |s|
    ensures forall x :: x in r <==> x in s && p(x)
    ensures forall i :: 0 <= i < |r| ==> p(r[i])
    ensures multiset(r) <= multiset(s)
  {
    if |s| == 0 then []
    else
      var init := Filter(s[..|s| - 1], p);
      assert s == s[..|s| - 1] + [s[|s| - 1]];
      if p(s[|s| - 1]) then init + [s[|s| - 1]] else init
  }

  /** Filtering distributes over concatenation: the kept elements of `a`
      come first, in order, then those of `b`. */
  lemma {:induction false} FilterConcat<T(!new)>(a: seq<T>, b: seq<T>, p: T -> bool)
    ensures Filter(a + b, p) == Filter(a, p) + Filter(b, p)
    decreases |b|
  {
    if |b| == 0 {
      assert a + b == a;
    } else {
      var b' := b[..|b| - 1];
      assert (a + b)[..|a + b| - 1] == a + b';
      FilterConcat(a, b', p);
    }
  }

  /** A one-element sequence is kept exactly when its element qualifies. */
  lemma FilterSingleton<T(!new)>(x: T, p: T -> bool)
    ensures Filter([x], p) == if p(x) then [x] else []
  {
    assert [x][..0] == [];
  }

  /** Filtering with a predicate every element satisfies changes nothing. */
  lemma {:induction false} FilterAll<T(!new)>(s: seq<T>, p: T -> bool)
    requires forall i :: 0 <= i < |s| ==> p(s[i])
    ensures Filter(s, p) == s
    decreases |s|
  {
    if |s| > 0 {
      FilterAll(s[..|s| - 1], p);
      assert s == s[..|s| - 1] + [s[|s| - 1]];
    }
  }

  /** Two tests that agree on every element keep the same elements. */
  lemma {:induction false} FilterAgree<T(!new)>(s: seq<T>, p: T -> bool, q: T -> bool)
    requires forall i :: 0 <= i < |s| ==> p(s[i]) == q(s[i])
    ensures Filter(s, p) == Filter(s, q)
    decreases |s|
  {
    if |s| > 0 {
      FilterAgree(s[..|s| - 1], p, q);
    }
  }

  ghost predicate SortedBy<T>(s: seq<T>, key: T -> int) {
    forall i, j :: 0 <= i < j < |s| ==> key(s[i]) <= key(s[j])
  }

  /** Inserts `x` into a sequence already sorted by `key`. */
  function InsertSorted<T>(s: seq<T>, x: T, key: T -> int): (r: seq<T>)
    requires SortedBy(s, key)
    ensures SortedBy(r, key)
    ensures multiset(r) == multiset(s) + multiset{x}
    ensures forall k :: 0 <= k < |r| ==> r[k] == x || r[k] in s
    decreases |s|
  {
    if |s| == 0 then [x]
    else if key(x) <= key(s[0]) then
      assert s == [s[0]] + s[1..];
      [x] + s
    else
      var rest := InsertSorted(s[1..], x, key);
      HeadBelowRest(s, x, key, rest);
      SortedCons(s[0], rest, key);
      assert s == [s[0]] + s[1..];
      [s[0]] + rest
  }

  /** When `x` goes after the head of `s`, every element of the insertion
      into the tail has a key at least the head's. */
  lemma HeadBelowRest<T>(s: seq<T>, x: T, key: T -> int, rest: seq<T>)
    requires |s| > 0 && SortedBy(s, key) && key(s[0]) < key(x)
    requires forall k :: 0 <= k < |rest| ==> rest[k] == x || rest[k] in s[1..]
    ensures forall k :: 0 <= k < |rest| ==> key(s[0]) <= key(rest[k])
  {
    forall k | 0 <= k < |rest|
      ensures key(s[0]) <= key(rest[k])
    {
      if rest[k] != x {
        var j :| 0 <= j < |s[1..]| && s[1..][j] == rest[k];
        assert s[j + 1] == rest[k];
      }
    }
  }

  /** A sorted sequence stays sorted behind a head with a key no greater
      than any of its keys. */
  lemma SortedCons<T>(a: T, rest: seq<T>, key: T -> int)
    requires SortedBy(rest, key)
    requires forall k :: 0 <= k < |rest| ==> key(a) <= key(rest[k])
    ensures SortedBy([a] + rest, key)
  {
    var r := [a] + rest;
    forall i, j | 0 <= i < j < |r|
      ensures key(r[i]) <= key(r[j])
    {
      assert r[j] == rest[j - 1];
      if i > 0 {
        assert r[i] == rest[i - 1];
      }
    }
  }

  /** A permutation of `s` in non-decreasing order of `key`
      (the SQL `ORDER BY key ASC`; the order among equal keys is unspecified
      there, and this definition picks one). */
  function SortBy<T>(s: seq<T>, key: T -> int): (r: seq<T>)
    ensures SortedBy(r, key)
    ensures multiset(r) == multiset(s)
    ensures |r| == |s|
    decreases |s|
  {
    if |s| == 0 then []
    else
      assert s == [s[0]] + s[1..];
      InsertSorted(SortBy(s[1..], key), s[0], key)
  }

  const TwoTo32: int := 0x1_0000_0000
  const TwoTo64: int := 0x1_0000_0000_0000_0000
  const IntMin: int := -0x8000_0000
  const IntMax: int := 0x7FFF_FFFF
  const LongMin: int := -0x8000_0000_0000_0000
  const LongMax: int := 0x7FFF_FFFF_FFFF_FFFF

  predicate InIntRange(x: int) { IntMin <= x <= IntMax }
  predicate InLongRange(x: int) { LongMin <= x <= LongMax }

  /** The JVM's 64-bit two-complement wrap-around of an exact integer result. */
  function WrapLong(x: int): (r: int)
    ensures InLongRange(r)
    ensures (r - x) % TwoTo64 == 0
    ensures InLongRange(x) ==> r == x
  {
    (x - LongMin) % TwoTo64 + LongMin
  }

  /** Kotlin's `Long.toInt()`: keeps the low 32 bits, read as two-complement. */
  function LongToInt(x: int): (r: int)
    ensures InIntRange(r)
    ensures (r - x) % TwoTo32 == 0
    ensures InIntRange(x) ==> r == x
  {
    (x - IntMin) % TwoTo32 + IntMin
  }
}
