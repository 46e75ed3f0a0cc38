/** Rust's `slice::sort_by` and `slice::reverse`, the two in-place steps of
    `semver sort`. `sort_by` is a stable sort: it is modelled by insertion
    sort, which produces the same output as any other stable sort under a
    total preorder. */
module StableSort {
  import opened Orders

  /** Every element is `le` every element after it. */
  ghost predicate SortedBy<T>(s: seq<T>, le: (T, T) -> bool)
  {
    forall i, j :: 0 <= i < j < |s| ==> le(s[i], s[j])
  }

  /** `x` goes in after the last element of `s` that is `le` it, scanning
      from the right, as the inner loop of insertion sort moves it. */
  function Insert<T>(x: T, s: seq<T>, le: (T, T) -> bool): (r: seq<T>)
    ensures |r| == |s| + 1
  {
    if s == [] || le(s[|s| - 1], x) then s + [x]
    else Insert(x, s[..|s| - 1], le) + [s[|s| - 1]]
  }

  /** Insertion sort: the sorted prefix grows one element at a time. */
  function SortBy<T>(s: seq<T>, le: (T, T) -> bool): (r: seq<T>)
    ensures |r| == |s|
  {
    if s == [] then []
    else Insert(s[|s| - 1], SortBy(s[..|s| - 1], le), le)
  }

  /** Inserting adds `x` and keeps every other element. */
  lemma {:induction false} InsertPermutes<T>(x: T, s: seq<T>, le: (T, T) -> bool)
    ensures multiset(Insert(x, s, le)) == multiset(s) + multiset{x}
  {
    if s != [] && !le(s[|s| - 1], x) {
      var init, last := s[..|s| - 1], s[|s| - 1];
      assert s == init + [last];
      InsertPermutes(x, init, le);
    }
  }

  /** `sort_by` returns a permutation of its input. */
  lemma {:induction false} SortByPermutes<T>(s: seq<T>, le: (T, T) -> bool)
    ensures multiset(SortBy(s, le)) == multiset(s)
  {
    if s != [] {
      var init, last := s[..|s| - 1], s[|s| - 1];
      assert s == init + [last];
      SortByPermutes(init, le);
      InsertPermutes(last, SortBy(init, le), le);
    }
  }

  /** Inserting into a sorted sequence keeps it sorted. */
  lemma {:induction false} InsertSorted<T(!new)>(x: T, s: seq<T>, le: (T, T) -> bool)
    requires TotalPreorder(le) && SortedBy(s, le)
    ensures SortedBy(Insert(x, s, le), le)
  {
    if s == [] || le(s[|s| - 1], x) {
    } else {
      var init, last := s[..|s| - 1], s[|s| - 1];
      InsertSorted(x, init, le);
      InsertPermutes(x, init, le);
      var r := Insert(x, init, le);
      forall i | 0 <= i < |r|
        ensures le(r[i], last)
      {
        assert r[i] in multiset(r);
        assert r[i] == x || r[i] in multiset(init);
        if r[i] != x {
          var k :| 0 <= k < |init| && init[k] == r[i];
          assert s[k] == init[k];
        }
      }
    }
  }

  /** `sort_by` returns an ascending sequence. */
  lemma {:induction false} SortBySorted<T(!new)>(s: seq<T>, le: (T, T) -> bool)
    requires TotalPreorder(le)
    ensures SortedBy(SortBy(s, le), le)
  {
    if s != [] {
      SortBySorted(s[..|s| - 1], le);
      InsertSorted(s[|s| - 1], SortBy(s[..|s| - 1], le), le);
    }
  }

  /** The two elements compare equal: neither is above the other. */
  predicate Tied<T>(a: T, b: T, le: (T, T) -> bool)
  {
    le(a, b) && le(b, a)
  }

  /** The elements of `s` tied with `x`, in their order in `s`. */
  function Equivalents<T>(s: seq<T>, x: T, le: (T, T) -> bool): seq<T>
  {
    if s == [] then []
    else Equivalents(s[..|s| - 1], x, le) + (if Tied(s[|s| - 1], x, le) then [s[|s| - 1]] else [])
  }

  /** The elements tied with `x` in `s + [e]`. */
  lemma EquivalentsSnoc<T>(s: seq<T>, e: T, x: T, le: (T, T) -> bool)
    ensures Equivalents(s + [e], x, le) == Equivalents(s, x, le) + (if Tied(e, x, le) then [e] else [])
  {
    assert (s + [e])[..|s|] == s;
  }

  /** Inserting `y` puts it after every element tied with it, so among the
      elements tied with `x` it comes last. */
  lemma {:induction false} InsertStable<T(!new)>(y: T, s: seq<T>, x: T, le: (T, T) -> bool)
    requires TotalPreorder(le)
    ensures Equivalents(Insert(y, s, le), x, le) == Equivalents(s, x, le) + (if Tied(y, x, le) then [y] else [])
  {
    if s == [] || le(s[|s| - 1], y) {
      EquivalentsSnoc(s, y, x, le);
    } else {
      var init, last := s[..|s| - 1], s[|s| - 1];
      assert s == init + [last];
      InsertStable(y, init, x, le);
      EquivalentsSnoc(Insert(y, init, le), last, x, le);
      EquivalentsSnoc(init, last, x, le);
      if Tied(y, x, le) {
        assert !Tied(last, x, le);
      }
    }
  }

  /** `sort_by` is stable: the elements tied with any `x` keep their order. */
  lemma {:induction false} SortByStable<T(!new)>(s: seq<T>, x: T, le: (T, T) -> bool)
    requires TotalPreorder(le)
    ensures Equivalents(SortBy(s, le), x, le) == Equivalents(s, x, le)
  {
    if s != [] {
      var init, last := s[..|s| - 1], s[|s| - 1];
      SortByStable(init, x, le);
      InsertStable(last, SortBy(init, le), x, le);
    }
  }

  /** The sequence back to front. */
  function Reversed<T>(s: seq<T>): (r: seq<T>)
    ensures |r| == |s|
    ensures forall i :: 0 <= i < |s| ==> r[i] == s[|s| - 1 - i]
  {
    if s == [] then [] else [s[|s| - 1]] + Reversed(s[..|s| - 1])
  }

  /** Reversing keeps the elements. */
  lemma {:induction false} ReversedPermutes<T>(s: seq<T>)
    ensures multiset(Reversed(s)) == multiset(s)
  {
    if s != [] {
      var init := s[..|s| - 1];
      ReversedPermutes(init);
      assert s == init + [s[|s| - 1]];
    }
  }

  /** An ascending sequence reversed is descending. */
  lemma ReversedDescending<T>(s: seq<T>, le: (T, T) -> bool)
    requires SortedBy(s, le)
    ensures forall i, j :: 0 <= i < j < |s| ==> le(Reversed(s)[j], Reversed(s)[i])
  {
    var r := Reversed(s);
    forall i, j | 0 <= i < j < |s|
      ensures le(r[j], r[i])
    {
      assert r[j] == s[|s| - 1 - j] && r[i] == s[|s| - 1 - i];
    }
  }

  /** Reversing twice gives the sequence back. */
  lemma ReversedTwice<T>(s: seq<T>)
    ensures Reversed(Reversed(s)) == s
  {
  }

  /** `x` goes in at `j` when the elements from `j` on are all above it and
      the one before `j`, if any, is not. */
  lemma {:induction false} InsertAt<T>(x: T, s: seq<T>, j: nat, le: (T, T) -> bool)
    requires j <= |s| && (j == 0 || le(s[j - 1], x))
    requires forall k :: j <= k < |s| ==> !le(s[k], x)
    ensures Insert(x, s, le) == s[..j] + [x] + s[j..]
  {
    if j < |s| {
      var init, last := s[..|s| - 1], s[|s| - 1];
      assert !le(last, x);
      assert Insert(x, s, le) == Insert(x, init, le) + [last];
      assert init[..j] == s[..j];
      InsertAt(x, init, j, le);
      assert s[j..] == init[j..] + [last];
    }
  }

  /** One step of insertion sort: `a[i]` moves left into the sorted prefix
      `a[..i]`, past the elements above it, and `a[i + 1..]` is untouched. */
  method InsertInPlace<T>(a: array<T>, i: nat, le: (T, T) -> bool)
    requires i < a.Length
    modifies a
    ensures a[..i + 1] == Insert(old(a[i]), old(a[..i]), le)
    ensures forall k :: i < k < a.Length ==> a[k] == old(a[k])
  {
    ghost var sorted := a[..i];
    var x := a[i];
    var j := i;
    while j > 0 && !le(a[j - 1], x)
      invariant 0 <= j <= i
      invariant forall k :: 0 <= k < j ==> a[k] == sorted[k]
      invariant forall k :: j < k <= i ==> a[k] == sorted[k - 1]
      invariant forall k :: i < k < a.Length ==> a[k] == old(a[k])
      invariant forall k :: j <= k < i ==> !le(sorted[k], x)
    {
      a[j] := a[j - 1];
      j := j - 1;
    }
    a[j] := x;
    InsertAt(x, sorted, j, le);
    assert a[..i + 1] == sorted[..j] + [x] + sorted[j..];
  }

  /** The sort of a longer prefix inserts its last element into the sort of
      the shorter one. */
  lemma SortByPrefix<T>(s: seq<T>, i: nat, le: (T, T) -> bool)
    requires i < |s|
    ensures SortBy(s[..i + 1], le) == Insert(s[i], SortBy(s[..i], le), le)
  {
    assert s[..i + 1][..i] == s[..i];
  }

  /** `sort_by` in place, as insertion sort: each element in turn is moved
      into the sorted prefix before it. */
  method SortInPlace<T>(a: array<T>, le: (T, T) -> bool)
    modifies a
    ensures a[..] == SortBy(old(a[..]), le)
  {
    ghost var orig := a[..];
    var i := 0;
    while i < a.Length
      invariant 0 <= i <= a.Length
      invariant a[..i] == SortBy(orig[..i], le)
      invariant forall k :: i <= k < a.Length ==> a[k] == orig[k]
    {
      ghost var prefix := a[..i];
      assert a[i] == orig[i];
      InsertInPlace(a, i, le);
      SortByPrefix(orig, i, le);
      i := i + 1;
    }
    assert orig[..a.Length] == orig;
  }

  /** `reverse` in place: swaps the two ends, moving inwards. */
  method ReverseInPlace<T>(a: array<T>)
    modifies a
    ensures a[..] == Reversed(old(a[..]))
  {
    ghost var orig := a[..];
    var n := a.Length;
    var i := 0;
    while i < n / 2
      invariant 0 <= i <= n / 2
      invariant forall k :: 0 <= k < i ==> a[k] == orig[n - 1 - k] && a[n - 1 - k] == orig[k]
      invariant forall k :: i <= k < n - i ==> a[k] == orig[k]
    {
      a[i], a[n - 1 - i] := a[n - 1 - i], a[i];
      i := i + 1;
    }
  }
}
