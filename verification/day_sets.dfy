/** Sets of day indices (0 = Sunday .. 6 = Saturday) as the schedule
    components keep them: a JavaScript `Set<number>`, that is a list without
    duplicates in insertion order. Here: its smallest and largest member,
    its members in increasing order, and the runs of days that wrap from
    Saturday to Sunday. */
module DaySets {
  import opened Collections

  /** The members of a list, as a set. */
  function Members(s: seq<int>): (m: set<int>)
    ensures forall x :: x in m <==> x in s
  {
    set x | x in s
  }

  /** Every member is a day index 0..6. */
  predicate InWeek(days: set<int>) {
    forall d :: d in days ==> 0 <= d < 7
  }

  /** `Math.min(...s)` of a non-empty list. */
  function Min(s: seq<int>): (m: int)
    requires |s| > 0
    ensures m in s && forall x :: x in s ==> m <= x
  {
    if |s| == 1 then s[0]
    else
      var m := Min(s[1..]);
      assert forall x :: x in s ==> x == s[0] || x in s[1..];
      if s[0] < m then s[0] else m
  }

  /** `Math.max(...s)` of a non-empty list. */
  function Max(s: seq<int>): (m: int)
    requires |s| > 0
    ensures m in s && forall x :: x in s ==> x <= m
  {
    if |s| == 1 then s[0]
    else
      var m := Max(s[1..]);
      assert forall x :: x in s ==> x == s[0] || x in s[1..];
      if s[0] > m then s[0] else m
  }

  predicate Ascending(a: seq<int>) {
    forall i, j :: 0 <= i < j < |a| ==> a[i] <= a[j]
  }

  predicate Increasing(a: seq<int>) {
    forall i, j :: 0 <= i < j < |a| ==> a[i] < a[j]
  }

  /** `x` placed before the first element not smaller than it. */
  function InsertAsc(x: int, s: seq<int>): (r: seq<int>)
    ensures multiset(r) == multiset(s) + multiset{x}
    ensures forall y :: y in r <==> y == x || y in s
    ensures |r| == |s| + 1
  {
    if |s| == 0 then [x]
    else if x <= s[0] then [x] + s
    else
      assert s == [s[0]] + s[1..];
      [s[0]] + InsertAsc(x, s[1..])
  }

  lemma {:induction false} InsertAscending(x: int, s: seq<int>)
    requires Ascending(s)
    ensures Ascending(InsertAsc(x, s))
    decreases |s|
  {
    if |s| > 0 && x > s[0] {
      var t := InsertAsc(x, s[1..]);
      assert Ascending(s[1..]);
      InsertAscending(x, s[1..]);
      HeadAscending(s[0], t);
    }
  }

  /** A list stays ascending under a head no larger than any element. */
  lemma HeadAscending(h: int, t: seq<int>)
    requires Ascending(t) && forall y :: y in t ==> h <= y
    ensures Ascending([h] + t)
  {
    var r := [h] + t;
    forall i, j | 0 <= i < j < |r|
      ensures r[i] <= r[j]
    {
      assert r[j] == t[j - 1] && t[j - 1] in t;
      if i > 0 {
        assert r[i] == t[i - 1];
      }
    }
  }

  /** `s.sort((a, b) => a - b)` */
  function SortAsc(s: seq<int>): (r: seq<int>)
    ensures multiset(r) == multiset(s)
    ensures Ascending(r)
  {
    if |s| == 0 then []
    else
      assert s == [s[0]] + s[1..];
      InsertAscending(s[0], SortAsc(s[1..]));
      InsertAsc(s[0], SortAsc(s[1..]))
  }

  /** Two arrangements of the same multiset have the same length and the
      same elements. */
  lemma SameElements(a: seq<int>, b: seq<int>)
    requires multiset(a) == multiset(b)
    ensures |a| == |b|
    ensures forall x :: x in a <==> x in b
  {
    assert |a| == |multiset(a)|;
    forall x
      ensures x in a <==> x in b
    {
      assert x in a <==> x in multiset(a);
      assert x in b <==> x in multiset(b);
    }
  }

  /** Sorting a list without duplicates leaves it strictly increasing with
      the same members. */
  lemma SortAscOfSet(s: seq<int>)
    requires NoDup(s)
    ensures Increasing(SortAsc(s)) && NoDup(SortAsc(s))
    ensures Members(SortAsc(s)) == Members(s) && |SortAsc(s)| == |s|
  {
    var r := SortAsc(s);
    assert forall x :: x in r <==> x in multiset(r);
    assert forall x :: x in s <==> x in multiset(s);
    forall i, j | 0 <= i < j < |r|
      ensures r[i] < r[j]
    {
      if r[i] == r[j] {
        DuplicateCount(r, i, j);
        NoDupCount(s, r[i]);
      }
    }
    assert |r| == |multiset(r)| == |multiset(s)| == |s|;
  }

  /** Two equal elements at distinct positions occur at least twice. */
  lemma DuplicateCount(r: seq<int>, i: int, j: int)
    requires 0 <= i < j < |r| && r[i] == r[j]
    ensures multiset(r)[r[i]] >= 2
  {
    assert r == r[..i] + [r[i]] + r[i + 1..j] + [r[j]] + r[j + 1..];
  }

  /** In a list without duplicates every element occurs at most once. */
  lemma {:induction false} NoDupCount(s: seq<int>, x: int)
    requires NoDup(s)
    ensures multiset(s)[x] <= 1
  {
    if |s| > 0 {
      assert s == [s[0]] + s[1..];
      assert NoDup(s[1..]);
      NoDupCount(s[1..], x);
      assert s[0] !in s[1..];
    }
  }

  lemma IncreasingFirst(a: seq<int>, x: int)
    requires Increasing(a) && x in a
    ensures a[0] <= x
  {
  }

  /** An increasing list is determined by its members. */
  lemma {:induction false} IncreasingUnique(a: seq<int>, b: seq<int>)
    requires Increasing(a) && Increasing(b)
    requires Members(a) == Members(b)
    ensures a == b
    decreases |a|
  {
    assert |a| > 0 ==> a[0] in a && a[0] in Members(a) && a[0] in b;
    assert |b| > 0 ==> b[0] in b && b[0] in Members(b) && b[0] in a;
    if |a| > 0 {
      IncreasingFirst(a, b[0]);
      IncreasingFirst(b, a[0]);
      assert a[0] == b[0];
      assert Members(a[1..]) == Members(a) - {a[0]} by {
        assert a == [a[0]] + a[1..];
      }
      assert Members(b[1..]) == Members(b) - {b[0]} by {
        assert b == [b[0]] + b[1..];
      }
      IncreasingUnique(a[1..], b[1..]);
      assert a == [a[0]] + a[1..] && b == [b[0]] + b[1..];
    }
  }

  /** `[lo, lo + 1, ..., hi - 1]` */
  function Range(lo: int, hi: int): (r: seq<int>)
    ensures |r| == if lo <= hi then hi - lo else 0
    ensures forall i :: 0 <= i < |r| ==> r[i] == lo + i
    decreases hi - lo
  {
    if lo >= hi then [] else [lo] + Range(lo + 1, hi)
  }

  /** The day `i` days after day `s`. */
  function Shift(s: int, i: int): int {
    (s + i) % 7
  }

  /** The `n` days that follow one another from day `s`, wrapping from
      Saturday to Sunday. */
  function Arc(s: int, n: int): set<int> {
    set i | 0 <= i < n :: Shift(s, i)
  }

  /** An arc of at most seven days has as many members as its length, and
      they are days of the week. */
  lemma {:induction false} ArcSize(s: int, n: int)
    requires 0 <= n <= 7
    ensures |Arc(s, n)| == n
    ensures InWeek(Arc(s, n))
  {
    if n > 0 {
      ArcSize(s, n - 1);
      var x := Shift(s, n - 1);
      assert Arc(s, n) == Arc(s, n - 1) + {x};
      forall i | 0 <= i < n - 1
        ensures Shift(s, i) != x
      {
        ShiftDistinct(s, i, n - 1);
      }
      assert x !in Arc(s, n - 1);
    }
  }

  /** Fewer than seven days apart, two days of the week differ. */
  lemma ShiftDistinct(s: int, i: int, j: int)
    requires 0 <= i < j < 7
    ensures Shift(s, i) != Shift(s, j)
  {
    var r := (s + i) % 7;
    var q := (s + i) / 7;
    assert s + i == 7 * q + r;
    var d := j - i;
    if r + d < 7 {
      assert s + j == 7 * q + (r + d);
      assert (s + j) % 7 == r + d;
    } else {
      assert s + j == 7 * (q + 1) + (r + d - 7);
      assert (s + j) % 7 == r + d - 7;
    }
  }
}
