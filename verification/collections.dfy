/** Arrays used as JavaScript `Set`s: `Array.from(new Set(xs))` keeps the
    first occurrence of each value in order, `add` appends a new value at the
    end and `delete` removes it. */
module Collections {

  predicate NoDup<T(==,!new)>(s: seq<T>) {
    forall i, j :: 0 <= i < j < |s| ==> s[i] != s[j]
  }

  /** A value missing from a duplicate-free array can go in front of it. */
  lemma ConsNoDup<T(!new)>(x: T, t: seq<T>)
    requires NoDup(t) && x !in t
    ensures NoDup([x] + t)
  {
    var r := [x] + t;
    forall i, j | 0 <= i < j < |r|
      ensures r[i] != r[j]
    {
      assert r[j] == t[j - 1];
      if i > 0 {
        assert r[i] == t[i - 1];
      }
    }
  }

  /** `Array.from(new Set(s))` */
  function Dedup<T(==,!new)>(s: seq<T>): (r: seq<T>)
    ensures NoDup(r)
    ensures forall x :: x in r <==> x in s
    ensures |r| <= |s|
    decreases |s|
  {
    if |s| == 0 then []
    else
      var p := Dedup(s[..|s| - 1]);
      var x := s[|s| - 1];
      assert forall y :: y in s <==> y in s[..|s| - 1] || y == x;
      if x in p then p else p + [x]
  }

  /** The position of the first occurrence of `x` in `s`. */
  function FirstIndex<T(==)>(s: seq<T>, x: T): (r: nat)
    requires x in s
    ensures r < |s| && s[r] == x
    ensures forall k :: 0 <= k < r ==> s[k] != x
  {
    if s[0] == x then 0 else 1 + FirstIndex(s[1..], x)
  }

  /** Appending to a list does not move the first occurrence of an element
      it already holds. */
  lemma FirstIndexAppend<T>(s: seq<T>, y: T, x: T)
    requires x in s
    ensures x in s + [y] && FirstIndex(s + [y], x) == FirstIndex(s, x)
  {
    var i := FirstIndex(s, x);
    var j := FirstIndex(s + [y], x);
    assert (s + [y])[i] == x;
    assert j <= i;
    assert s[j] == x;
  }

  /** A Set iterates in the order of first insertion: the elements of
      `Dedup(s)` appear in the order of their first occurrences in `s`. */
  lemma {:induction false} DedupOrder<T(!new)>(s: seq<T>)
    ensures forall i, j :: 0 <= i < j < |Dedup(s)| ==>
      FirstIndex(s, Dedup(s)[i]) < FirstIndex(s, Dedup(s)[j])
    decreases |s|
  {
    if |s| > 0 {
      var init := s[..|s| - 1];
      var x := s[|s| - 1];
      var p := Dedup(init);
      var r := Dedup(s);
      DedupOrder(init);
      assert init + [x] == s;
      forall i, j | 0 <= i < j < |r|
        ensures FirstIndex(s, r[i]) < FirstIndex(s, r[j])
      {
        assert r[i] in init by { assert r[i] == p[i]; }
        FirstIndexAppend(init, x, r[i]);
        if j < |p| {
          assert r[j] == p[j];
          FirstIndexAppend(init, x, r[j]);
        } else {
          assert r[j] == x && x !in init;
          assert FirstIndex(s, r[j]) == |s| - 1;
        }
      }
    }
  }

  /** A duplicate-free array is its own set. */
  lemma {:induction false} DedupNoDup<T(!new)>(s: seq<T>)
    requires NoDup(s)
    ensures Dedup(s) == s
    decreases |s|
  {
    if |s| > 0 {
      var p := s[..|s| - 1];
      DedupNoDup(p);
      assert s[|s| - 1] !in p;
      assert p + [s[|s| - 1]] == s;
    }
  }

  /** `set.delete(x)` */
  function Remove<T(==,!new)>(s: seq<T>, x: T): (r: seq<T>)
    ensures forall y :: y in r <==> y in s && y != x
    ensures NoDup(s) ==> NoDup(r)
    ensures |r| <= |s|
  {
    if |s| == 0 then []
    else if s[0] == x then Remove(s[1..], x)
    else
      assert forall y :: y in s <==> y == s[0] || y in s[1..];
      assert NoDup(s) ==> s[0] !in s[1..];
      [s[0]] + Remove(s[1..], x)
  }

  /** `set.add(x)` */
  function Add<T(==,!new)>(s: seq<T>, x: T): (r: seq<T>)
    ensures forall y :: y in r <==> y in s || y == x
    ensures NoDup(s) ==> NoDup(r)
  {
    if x in s then s else s + [x]
  }

  /** `set.has(x) ? set.delete(x) : set.add(x)` */
  function Toggle<T(==,!new)>(s: seq<T>, x: T): (r: seq<T>)
    ensures x in r <==> x !in s
    ensures forall y :: y != x ==> (y in r <==> y in s)
    ensures NoDup(s) ==> NoDup(r)
  {
    if x in s then Remove(s, x) else Add(s, x)
  }

  /** `xs.map(f)` */
  function Map<T, U>(f: T -> U, s: seq<T>): (r: seq<U>)
    ensures |r| == |s|
    ensures forall i :: 0 <= i < |s| ==> r[i] == f(s[i])
  {
    if |s| == 0 then [] else [f(s[0])] + Map(f, s[1..])
  }
}
