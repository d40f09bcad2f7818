/** Shared vocabulary of the ledger model: row identifiers, optional values,
    calendar dates and timestamps, and the filter, count, sum and sort folds
    that the ledger's database queries are built from. */
module Common {

  /** A row's identifier: its position in its table. Every delete in the
      ledger is a soft delete, so positions never shift. */
  type Id = nat

  datatype Option<T> = None | Some(value: T)

  /** A `date` column value. */
  datatype Date = Date(year: int, month: int, day: int)

  /** Calendar order on dates. */
  predicate DateLe(a: Date, b: Date) {
    a.year < b.year
    || (a.year == b.year && (a.month < b.month || (a.month == b.month && a.day <= b.day)))
  }

  /** A timestamp such as `now()`: a date and the second within that day. */
  datatype Moment = Moment(date: Date, second: nat)

  /** A date compared with a timestamp stands for midnight of that date, so it
      is at or after the timestamp when it is a later day, or the same day
      and the timestamp is itself midnight. */
  predicate AtOrAfter(d: Date, m: Moment) {
    (DateLe(m.date, d) && d != m.date) || (d == m.date && m.second == 0)
  }

  /** Midnight of `d` is at or before the timestamp `m`. */
  predicate AtOrBefore(d: Date, m: Moment) {
    DateLe(d, m.date)
  }

  function Abs(x: int): (r: int)
    ensures r >= 0 && (r == x || r == -x)
  {
    if x < 0 then -x else x
  }

  // ---------------------------------------------------------------------
  // Folds over query results
  // ---------------------------------------------------------------------

  /** The filter that keeps every row. */
  function Everything<T>(): T -> bool {
    x => true
  }

  /** What one row adds to a filtered sum. */
  function Term<T>(x: T, p: T -> bool, f: T -> int): int {
    if p(x) then f(x) else 0
  }

  /** `SUM(f) WHERE p` over the rows `s`. */
  function SumOf<T>(s: seq<T>, p: T -> bool, f: T -> int): int {
    if |s| == 0 then 0 else Term(s[0], p, f) + SumOf(s[1..], p, f)
  }

  /** `COUNT(*) WHERE p` over the rows `s`. */
  function Count<T>(s: seq<T>, p: T -> bool): (n: nat)
    ensures n <= |s|
  {
    if |s| == 0 then 0 else (if p(s[0]) then 1 else 0) + Count(s[1..], p)
  }

  /** The ids (positions) of the rows of `s` that satisfy `p`, in table order. */
  function Where<T>(s: seq<T>, p: T -> bool): (ids: seq<Id>)
    ensures forall i: nat :: i in ids <==> i < |s| && p(s[i])
    ensures forall j, k :: 0 <= j < k < |ids| ==> ids[j] < ids[k]
  {
    if |s| == 0 then []
    else
      var ids := Where(s[..|s| - 1], p);
      assert forall i: nat :: i < |s| - 1 ==> s[..|s| - 1][i] == s[i];
      forall j | 0 <= j < |ids| ensures ids[j] < |s| - 1 {
        assert ids[j] in ids;
      }
      if p(s[|s| - 1]) then ids + [|s| - 1] else ids
  }

  /** The rows of `s` that satisfy `p`, in order. */
  function Filter<T(==)>(s: seq<T>, p: T -> bool): (r: seq<T>)
    ensures |r| == Count(s, p)
    ensures forall x :: x in r ==> x in s && p(x)
    ensures forall x :: x in s && p(x) ==> x in r
  {
    if |s| == 0 then [] else (if p(s[0]) then [s[0]] else []) + Filter(s[1..], p)
  }

  /** The sequence back to front (an `ORDER BY ... DESC` over rows kept in
      ascending order). */
  function Reversed<T>(s: seq<T>): (r: seq<T>)
    ensures |r| == |s|
    ensures forall i :: 0 <= i < |s| ==> r[i] == s[|s| - 1 - i]
  {
    if s == [] then [] else Reversed(s[1..]) + [s[0]]
  }

  /** No value occurs twice. */
  predicate Distinct<T(==)>(s: seq<T>) {
    forall i, j :: 0 <= i < j < |s| ==> s[i] != s[j]
  }

  predicate SortedBy<T>(s: seq<T>, key: T -> int) {
    forall i, j :: 0 <= i < j < |s| ==> key(s[i]) <= key(s[j])
  }

  /** Places `x` before the first element whose key is at least its own. */
  function Insert<T>(x: T, s: seq<T>, key: T -> int): seq<T> {
    if s == [] || key(x) <= key(s[0]) then [x] + s
    else [s[0]] + Insert(x, s[1..], key)
  }

  /** A stable sort by ascending key (an `ORDER BY key`). */
  function SortBy<T>(s: seq<T>, key: T -> int): (r: seq<T>)
    ensures SortedBy(r, key)
    ensures multiset(r) == multiset(s)
  {
    if s == [] then []
    else
      var sorted := SortBy(s[1..], key);
      InsertKeepsSorted(s[0], sorted, key);
      assert s == [s[0]] + s[1..];
      Insert(s[0], sorted, key)
  }

  // ---------------------------------------------------------------------
  // Lemmas about the folds
  // ---------------------------------------------------------------------

  lemma {:induction false} SumOfAppend<T>(s: seq<T>, x: T, p: T -> bool, f: T -> int)
    ensures SumOf(s + [x], p, f) == SumOf(s, p, f) + Term(x, p, f)
  {
    if |s| > 0 {
      assert (s + [x])[1..] == s[1..] + [x];
      SumOfAppend(s[1..], x, p, f);
    }
  }

  /** Replacing one row changes a sum by the difference of the two rows' terms. */
  lemma {:induction false} SumOfUpdate<T>(s: seq<T>, i: nat, y: T, p: T -> bool, f: T -> int)
    requires i < |s|
    ensures SumOf(s[i := y], p, f) == SumOf(s, p, f) - Term(s[i], p, f) + Term(y, p, f)
  {
    if i == 0 {
      assert s[i := y][1..] == s[1..];
    } else {
      assert s[i := y][1..] == s[1..][i - 1 := y];
      SumOfUpdate(s[1..], i - 1, y, p, f);
    }
  }

  /** A sum over a disjoint union of two filters is the sum of the two sums. */
  lemma {:induction false} SumOfSplit<T>(s: seq<T>, p: T -> bool, q: T -> bool, r: T -> bool, f: T -> int)
    requires forall x :: x in s ==> r(x) == (p(x) || q(x))
    requires forall x :: x in s ==> !(p(x) && q(x))
    ensures SumOf(s, r, f) == SumOf(s, p, f) + SumOf(s, q, f)
  {
    if |s| > 0 {
      assert s[0] in s;
      SumOfSplit(s[1..], p, q, r, f);
    }
  }

  /** Sums that agree row by row are equal. */
  lemma {:induction false} SumOfCongruent<T>(s: seq<T>, p: T -> bool, f: T -> int, q: T -> bool, g: T -> int)
    requires forall x :: x in s ==> Term(x, p, f) == Term(x, q, g)
    ensures SumOf(s, p, f) == SumOf(s, q, g)
  {
    if |s| > 0 {
      assert s[0] in s;
      SumOfCongruent(s[1..], p, f, q, g);
    }
  }

  /** `f` where `p` holds, 0 elsewhere. */
  function Masked<T>(p: T -> bool, f: T -> int): T -> int {
    x => if p(x) then f(x) else 0
  }

  /** Summing `f` over the rows that satisfy `p` is summing, over every row,
      `f` where `p` holds and 0 elsewhere. */
  lemma SumOfMasked<T>(s: seq<T>, p: T -> bool, f: T -> int)
    ensures SumOf(s, p, f) == SumOf(s, Everything(), Masked(p, f))
  {
    SumOfCongruent(s, p, f, Everything(), Masked(p, f));
  }

  lemma {:induction false} SumOfNonNegative<T>(s: seq<T>, p: T -> bool, f: T -> int)
    requires forall x :: x in s && p(x) ==> f(x) >= 0
    ensures SumOf(s, p, f) >= 0
  {
    if |s| > 0 {
      assert s[0] in s;
      SumOfNonNegative(s[1..], p, f);
    }
  }

  lemma {:induction false} SumOfNonPositive<T>(s: seq<T>, p: T -> bool, f: T -> int)
    requires forall x :: x in s && p(x) ==> f(x) <= 0
    ensures SumOf(s, p, f) <= 0
  {
    if |s| > 0 {
      assert s[0] in s;
      SumOfNonPositive(s[1..], p, f);
    }
  }

  lemma {:induction false} CountSplit<T>(s: seq<T>, p: T -> bool, q: T -> bool, r: T -> bool)
    requires forall x :: x in s ==> r(x) == (p(x) || q(x))
    requires forall x :: x in s ==> !(p(x) && q(x))
    ensures Count(s, r) == Count(s, p) + Count(s, q)
  {
    if |s| > 0 {
      assert s[0] in s;
      CountSplit(s[1..], p, q, r);
    }
  }

  lemma {:induction false} CountMonotone<T>(s: seq<T>, p: T -> bool, q: T -> bool)
    requires forall x :: x in s && p(x) ==> q(x)
    ensures Count(s, p) <= Count(s, q)
  {
    if |s| > 0 {
      assert s[0] in s;
      CountMonotone(s[1..], p, q);
    }
  }

  lemma {:induction false} CountAll<T>(s: seq<T>, p: T -> bool)
    requires forall x :: x in s ==> p(x)
    ensures Count(s, p) == |s|
  {
    if |s| > 0 {
      assert s[0] in s;
      CountAll(s[1..], p);
    }
  }

  lemma {:induction false} InsertPermutes<T>(x: T, s: seq<T>, key: T -> int)
    ensures multiset(Insert(x, s, key)) == multiset(s) + multiset{x}
  {
    if s != [] && key(x) > key(s[0]) {
      InsertPermutes(x, s[1..], key);
      assert s == [s[0]] + s[1..];
    }
  }

  /** Inserting a value no smaller than `b` into a sequence whose keys are
      all at least `b` keeps every key at least `b`. */
  lemma {:induction false} InsertLowerBound<T>(x: T, s: seq<T>, key: T -> int, b: int)
    requires b <= key(x)
    requires forall i :: 0 <= i < |s| ==> b <= key(s[i])
    ensures forall i :: 0 <= i < |Insert(x, s, key)| ==> b <= key(Insert(x, s, key)[i])
  {
    if s == [] || key(x) <= key(s[0]) {
      var r := [x] + s;
      assert forall i :: 0 < i < |r| ==> r[i] == s[i - 1];
    } else {
      var rest := Insert(x, s[1..], key);
      InsertLowerBound(x, s[1..], key, b);
      var r := [s[0]] + rest;
      assert forall i :: 0 < i < |r| ==> r[i] == rest[i - 1];
    }
  }

  lemma {:induction false} InsertKeepsSorted<T>(x: T, s: seq<T>, key: T -> int)
    requires SortedBy(s, key)
    ensures SortedBy(Insert(x, s, key), key)
    ensures multiset(Insert(x, s, key)) == multiset(s) + multiset{x}
  {
    InsertPermutes(x, s, key);
    if s == [] || key(x) <= key(s[0]) {
      assert forall j :: 0 < j < |[x] + s| ==> ([x] + s)[j] == s[j - 1];
    } else {
      var rest := Insert(x, s[1..], key);
      InsertKeepsSorted(x, s[1..], key);
      InsertLowerBound(x, s[1..], key, key(s[0]));
      var r := [s[0]] + rest;
      assert forall i :: 0 < i < |r| ==> r[i] == rest[i - 1];
    }
  }

  lemma {:induction false} InsertSum<T>(x: T, s: seq<T>, key: T -> int, p: T -> bool, f: T -> int)
    requires SortedBy(s, key)
    ensures SumOf(Insert(x, s, key), p, f) == Term(x, p, f) + SumOf(s, p, f)
  {
    if s == [] || key(x) <= key(s[0]) {
      assert ([x] + s)[1..] == s;
    } else {
      var rest := Insert(x, s[1..], key);
      assert ([s[0]] + rest)[1..] == rest;
      InsertSum(x, s[1..], key, p, f);
    }
  }

  /** Sorting does not change any filtered sum. */
  lemma {:induction false} SortSum<T>(s: seq<T>, key: T -> int, p: T -> bool, f: T -> int)
    ensures SumOf(SortBy(s, key), p, f) == SumOf(s, p, f)
  {
    if s != [] {
      SortSum(s[1..], key, p, f);
      InsertSum(s[0], SortBy(s[1..], key), key, p, f);
    }
  }

  lemma {:induction false} DistinctMultiplicity<T>(s: seq<T>, x: T)
    requires Distinct(s)
    ensures multiset(s)[x] <= 1
  {
    if |s| > 0 {
      assert s == [s[0]] + s[1..];
      assert forall i, j :: 0 <= i < j < |s[1..]| ==> s[1..][i] == s[i + 1] && s[1..][j] == s[j + 1];
      DistinctMultiplicity(s[1..], x);
      if x == s[0] {
        assert x !in s[1..];
      }
    }
  }

  /** A sequence without repeats has as many elements as its set. */
  lemma {:induction false} DistinctCardinality<T>(s: seq<T>)
    requires Distinct(s)
    ensures |set x | x in s| == |s|
  {
    if s != [] {
      var rest := s[1..];
      assert Distinct(rest) by {
        assert forall i, j :: 0 <= i < j < |rest| ==> rest[i] == s[i + 1] && rest[j] == s[j + 1];
      }
      DistinctCardinality(rest);
      assert s[0] !in rest;
      assert (set x | x in s) == {s[0]} + (set x | x in rest) by {
        assert s == [s[0]] + rest;
      }
    }
  }

  /** When the elements of `all` are split between `a` and `b` with none in
      both, and no sequence repeats an element, the lengths add up. */
  lemma SplitLength<T>(all: seq<T>, a: seq<T>, b: seq<T>)
    requires Distinct(all) && Distinct(a) && Distinct(b)
    requires forall x :: x in all <==> x in a || x in b
    requires forall x :: !(x in a && x in b)
    ensures |a| + |b| == |all|
  {
    var sAll := set x | x in all;
    var sA := set x | x in a;
    var sB := set x | x in b;
    assert sAll == sA + sB;
    assert sA * sB == {};
    DistinctCardinality(all);
    DistinctCardinality(a);
    DistinctCardinality(b);
  }

  /** A rearrangement of a sequence without repeats has no repeats. */
  lemma DistinctPermutation<T>(a: seq<T>, b: seq<T>)
    requires multiset(a) == multiset(b) && Distinct(a)
    ensures Distinct(b)
  {
    forall i, j | 0 <= i < j < |b| ensures b[i] != b[j] {
      DistinctMultiplicity(a, b[i]);
      assert b == b[..j] + b[j..] && b[..j][i] == b[i] && b[j..][0] == b[j];
    }
  }

  /** A row that passes the filter makes the count positive. */
  lemma {:induction false} CountPositive<T>(s: seq<T>, p: T -> bool, x: T)
    requires x in s && p(x)
    ensures Count(s, p) > 0
  {
    if s[0] != x {
      CountPositive(s[1..], p, x);
    }
  }

  /** Summing the filtered rows is summing the rows under the filter. */
  lemma {:induction false} SumOfFilter<T>(s: seq<T>, p: T -> bool, f: T -> int)
    ensures SumOf(Filter(s, p), Everything(), f) == SumOf(s, p, f)
  {
    if |s| > 0 {
      SumOfFilter(s[1..], p, f);
      var rest := Filter(s[1..], p);
      if p(s[0]) {
        assert ([s[0]] + rest)[1..] == rest;
      } else {
        assert [] + rest == rest;
      }
    }
  }
}
