// Third stage of the allocation engine: `potential.sort((a, b) => b.total
// - a.total)` (backend/routes/admin.js:247). Array.prototype.sort is
// stable, so the result is the candidates by non-increasing total with
// ties left in construction order. `SortDesc` specifies it; the lemmas show
// that it is sorted, a permutation, stable, and the only sequence that is
// all three, so any stable sort yields it; `SortByTotal` sorts an array in
// place by insertion and is proved to yield the same.

module EngineSort {
  import opened Common
  import opened EngineScoring

  predicate SortedDesc(s: seq<Scored>) {
    forall i, j :: 0 <= i < j < |s| ==> s[i].total >= s[j].total
  }

  /** Places `x`, which comes after all of `s`, behind every element whose
      total is at least its own. */
  function Insert(x: Scored, s: seq<Scored>): seq<Scored>
    decreases |s|
  {
    if s == [] || s[|s| - 1].total >= x.total then s + [x]
    else Insert(x, s[..|s| - 1]) + [s[|s| - 1]]
  }

  function SortDesc(s: seq<Scored>): seq<Scored>
    decreases |s|
  {
    if s == [] then [] else Insert(s[|s| - 1], SortDesc(s[..|s| - 1]))
  }

  /** The elements of `s` whose total is `v`, in order. */
  function WithTotal(s: seq<Scored>, v: int): seq<Scored> {
    Filter(s, (e: Scored) => e.total == v)
  }

  // ---------------------------------------------------------------------
  // Insert
  // ---------------------------------------------------------------------

  lemma {:induction false} InsertMultiset(x: Scored, s: seq<Scored>)
    ensures multiset(Insert(x, s)) == multiset(s) + multiset{x}
    decreases |s|
  {
    if s != [] && s[|s| - 1].total < x.total {
      InsertMultiset(x, s[..|s| - 1]);
      assert s == s[..|s| - 1] + [s[|s| - 1]];
    }
  }

  lemma {:induction false} InsertSorted(x: Scored, s: seq<Scored>)
    requires SortedDesc(s)
    ensures SortedDesc(Insert(x, s))
    decreases |s|
  {
    if s != [] && s[|s| - 1].total < x.total {
      var init, last := s[..|s| - 1], s[|s| - 1];
      InsertSorted(x, init);
      InsertMultiset(x, init);
      var r := Insert(x, init);
      forall k | 0 <= k < |r|
        ensures r[k].total >= last.total
      {
        assert r[k] in multiset(r);
        if r[k] != x {
          assert r[k] in multiset(init);
          var m :| 0 <= m < |init| && init[m] == r[k];
          assert s[m] == init[m];
        }
      }
    }
  }

  /** Where `x` lands: after the first `j` elements when those all have a
      total at least its own and the rest all have a smaller one. */
  lemma {:induction false} InsertAt(x: Scored, s: seq<Scored>, j: nat)
    requires j <= |s|
    requires j == 0 || s[j - 1].total >= x.total
    requires forall k :: j <= k < |s| ==> s[k].total < x.total
    ensures Insert(x, s) == s[..j] + [x] + s[j..]
    decreases |s|
  {
    if j < |s| {
      var init := s[..|s| - 1];
      InsertAt(x, init, j);
      assert init[..j] == s[..j];
      assert init[j..] + [s[|s| - 1]] == s[j..];
    }
  }

  lemma {:induction false} InsertWithTotal(x: Scored, s: seq<Scored>, v: int)
    requires SortedDesc(s)
    ensures WithTotal(Insert(x, s), v) == WithTotal(s, v) + (if x.total == v then [x] else [])
    decreases |s|
  {
    var p := (e: Scored) => e.total == v;
    if s == [] || s[|s| - 1].total >= x.total {
      FilterAppend(s, [x], p);
    } else {
      var init, last := s[..|s| - 1], s[|s| - 1];
      InsertWithTotal(x, init, v);
      FilterAppend(Insert(x, init), [last], p);
      FilterAppend(init, [last], p);
      assert s == init + [last];
      if x.total == v {
        assert Filter([last], p) == [];
      }
    }
  }

  // ---------------------------------------------------------------------
  // SortDesc: sorted, a permutation, stable, unique
  // ---------------------------------------------------------------------

  lemma {:induction false} SortDescSorted(s: seq<Scored>)
    ensures SortedDesc(SortDesc(s))
    decreases |s|
  {
    if s != [] {
      SortDescSorted(s[..|s| - 1]);
      InsertSorted(s[|s| - 1], SortDesc(s[..|s| - 1]));
    }
  }

  lemma {:induction false} SortDescPermutation(s: seq<Scored>)
    ensures multiset(SortDesc(s)) == multiset(s)
    decreases |s|
  {
    if s != [] {
      SortDescPermutation(s[..|s| - 1]);
      InsertMultiset(s[|s| - 1], SortDesc(s[..|s| - 1]));
      assert s == s[..|s| - 1] + [s[|s| - 1]];
    }
  }

  /** Candidates with equal totals keep their relative order. */
  lemma {:induction false} SortDescStable(s: seq<Scored>, v: int)
    ensures WithTotal(SortDesc(s), v) == WithTotal(s, v)
    decreases |s|
  {
    if s != [] {
      var init, last := s[..|s| - 1], s[|s| - 1];
      SortDescStable(init, v);
      SortDescSorted(init);
      InsertWithTotal(last, SortDesc(init), v);
      FilterAppend(init, [last], (e: Scored) => e.total == v);
      assert s == init + [last];
    }
  }

  lemma {:induction false} WithTotalHead(s: seq<Scored>, v: int)
    requires s != []
    ensures WithTotal(s, v) == (if s[0].total == v then [s[0]] else []) + WithTotal(s[1..], v)
  {
  }

  /** A sorted sequence has nothing above its first total. */
  lemma WithTotalAboveHead(s: seq<Scored>, v: int)
    requires SortedDesc(s) && s != [] && v > s[0].total
    ensures WithTotal(s, v) == []
  {
    FilterNone(s, (e: Scored) => e.total == v);
  }

  /** Two sorted sequences with the same elements of every total, in the
      same order, are equal: the stable descending sort is unique. */
  lemma {:induction false} SortedStableUnique(r1: seq<Scored>, r2: seq<Scored>)
    requires SortedDesc(r1) && SortedDesc(r2)
    requires forall v :: WithTotal(r1, v) == WithTotal(r2, v)
    ensures r1 == r2
    decreases |r1|
  {
    if r1 == [] || r2 == [] {
      if r1 != [] {
        WithTotalHead(r1, r1[0].total);
        assert false;
      } else if r2 != [] {
        WithTotalHead(r2, r2[0].total);
        assert false;
      }
    } else {
      var m1, m2 := r1[0].total, r2[0].total;
      WithTotalHead(r1, m1);
      WithTotalHead(r2, m2);
      if m1 > m2 {
        WithTotalAboveHead(r2, m1);
        assert false;
      } else if m2 > m1 {
        WithTotalAboveHead(r1, m2);
        assert false;
      }
      assert m1 == m2;
      assert WithTotal(r1, m1)[0] == r2[0];
      assert r1[0] == r2[0];
      forall v
        ensures WithTotal(r1[1..], v) == WithTotal(r2[1..], v)
      {
        WithTotalHead(r1, v);
        WithTotalHead(r2, v);
        var h := if r1[0].total == v then [r1[0]] else [];
        var x1, x2 := WithTotal(r1[1..], v), WithTotal(r2[1..], v);
        assert h + x1 == h + x2;
        assert (h + x1)[|h|..] == x1;
        assert (h + x2)[|h|..] == x2;
      }
      SortedStableUnique(r1[1..], r2[1..]);
      assert r1 == [r1[0]] + r1[1..];
      assert r2 == [r2[0]] + r2[1..];
    }
  }

  /** Whatever stable sort the runtime uses, its result is `SortDesc`. */
  lemma AnyStableSortIsSortDesc(s: seq<Scored>, r: seq<Scored>)
    requires SortedDesc(r)
    requires forall v :: WithTotal(r, v) == WithTotal(s, v)
    ensures r == SortDesc(s)
  {
    SortDescSorted(s);
    forall v
      ensures WithTotal(r, v) == WithTotal(SortDesc(s), v)
    {
      SortDescStable(s, v);
    }
    SortedStableUnique(r, SortDesc(s));
  }

  // ---------------------------------------------------------------------
  // In place
  // ---------------------------------------------------------------------

  /** One pass of insertion sort: moves `a[i]` left past the elements of
      the sorted prefix `a[..i]` whose total is smaller. */
  method InsertLast(a: array<Scored>, i: nat)
    requires i < a.Length
    modifies a
    ensures a[..i + 1] == Insert(old(a[i]), old(a[..i]))
    ensures a[i + 1..] == old(a[i + 1..])
  {
    var x := a[i];
    ghost var sorted := a[..i];
    var j := i;
    while j > 0 && a[j - 1].total < x.total
      invariant 0 <= j <= i
      invariant forall k :: 0 <= k < j ==> a[k] == sorted[k]
      invariant forall k :: j < k <= i ==> a[k] == sorted[k - 1]
      invariant forall k :: i < k < a.Length ==> a[k] == old(a[k])
      invariant forall k :: j <= k < i ==> sorted[k].total < x.total
    {
      a[j] := a[j - 1];
      j := j - 1;
    }
    a[j] := x;
    InsertAt(x, sorted, j);
    ghost var r := sorted[..j] + [x] + sorted[j..];
    assert forall k :: 0 <= k <= i ==> a[k] == r[k];
    assert a[..i + 1] == r;
  }

  /** Stable insertion sort of the array by non-increasing total. */
  method SortByTotal(a: array<Scored>)
    modifies a
    ensures a[..] == SortDesc(old(a[..]))
  {
    ghost var orig := a[..];
    var i := 0;
    while i < a.Length
      invariant 0 <= i <= a.Length
      invariant a[..i] == SortDesc(orig[..i])
      invariant a[i..] == orig[i..]
    {
      InsertLast(a, i);
      assert orig[..i + 1][..i] == orig[..i];
      i := i + 1;
    }
    assert orig[..a.Length] == orig;
  }
}
