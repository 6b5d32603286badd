/** Order-preserving list operations used by the services: filtering, first
    occurrences, and the stable sort behind `sorted` and `list.sort`. */
module Collections {

  datatype Option<+T> = None | Some(value: T)

  function Filter<T>(xs: seq<T>, p: T -> bool): (r: seq<T>)
    ensures |r| <= |xs|
  {
    if xs == [] then []
    else Filter(xs[..|xs| - 1], p) + if p(xs[|xs| - 1]) then [xs[|xs| - 1]] else []
  }

  lemma {:induction false} FilterIn<T>(xs: seq<T>, p: T -> bool, x: T)
    ensures x in Filter(xs, p) <==> x in xs && p(x)
  {
    if xs == [] {
    } else {
      FilterIn(xs[..|xs| - 1], p, x);
      assert xs == xs[..|xs| - 1] + [xs[|xs| - 1]];
    }
  }

  lemma {:induction false} FilterConcat<T>(xs: seq<T>, ys: seq<T>, p: T -> bool)
    ensures Filter(xs + ys, p) == Filter(xs, p) + Filter(ys, p)
  {
    if ys == [] {
      assert xs + ys == xs;
    } else {
      FilterConcat(xs, ys[..|ys| - 1], p);
      assert (xs + ys)[..|xs + ys| - 1] == xs + ys[..|ys| - 1];
    }
  }

  lemma FilterSnoc<T>(xs: seq<T>, i: nat, p: T -> bool)
    requires i < |xs|
    ensures Filter(xs[..i + 1], p) == Filter(xs[..i], p) + if p(xs[i]) then [xs[i]] else []
  {
    assert xs[..i + 1][..i] == xs[..i];
  }

  lemma {:induction false} FilterAll<T>(xs: seq<T>, p: T -> bool)
    requires forall i | 0 <= i < |xs| :: p(xs[i])
    ensures Filter(xs, p) == xs
  {
    if xs == [] {
    } else {
      FilterAll(xs[..|xs| - 1], p);
      assert xs == xs[..|xs| - 1] + [xs[|xs| - 1]];
    }
  }

  lemma {:induction false} FilterNone<T>(xs: seq<T>, p: T -> bool)
    requires forall i | 0 <= i < |xs| :: !p(xs[i])
    ensures Filter(xs, p) == []
  {
    if xs == [] {
    } else {
      FilterNone(xs[..|xs| - 1], p);
    }
  }

  /** The positions of the elements that satisfy `p`. */
  ghost function Positions<T>(xs: seq<T>, p: T -> bool): set<nat> {
    set i: nat | i < |xs| && p(xs[i])
  }

  lemma PositionsSnoc<T>(xs: seq<T>, x: T, p: T -> bool)
    ensures Positions(xs + [x], p) == Positions(xs, p) + if p(x) then {|xs|} else {}
  {
  }

  lemma NoPositions<T>(p: T -> bool)
    ensures Positions([], p) == {}
  {
  }

  lemma PositionsBelow<T>(xs: seq<T>, p: T -> bool)
    ensures forall i | i in Positions(xs, p) :: i < |xs|
  {
  }

  lemma {:induction false} FilterPositions<T>(xs: seq<T>, p: T -> bool)
    ensures |Filter(xs, p)| == |Positions(xs, p)|
  {
    hide Positions;
    if xs == [] {
      assert Positions(xs, p) == {} by {
        NoPositions(p);
      }
    } else {
      var n := |xs| - 1;
      FilterPositions(xs[..n], p);
      PositionsSnoc(xs[..n], xs[n], p);
      assert xs == xs[..n] + [xs[n]];
      assert n !in Positions(xs[..n], p) by {
        PositionsBelow(xs[..n], p);
      }
    }
  }

  lemma {:induction false} FilterSame<T>(xs: seq<T>, p: T -> bool, q: T -> bool)
    requires forall i | 0 <= i < |xs| :: p(xs[i]) == q(xs[i])
    ensures Filter(xs, p) == Filter(xs, q)
  {
    if xs == [] {
    } else {
      FilterSame(xs[..|xs| - 1], p, q);
    }
  }

  lemma {:induction false} FilterTwice<T(!new)>(xs: seq<T>, p: T -> bool, q: T -> bool)
    requires forall x :: q(x) ==> p(x)
    ensures Filter(Filter(xs, p), q) == Filter(xs, q)
  {
    if xs == [] {
    } else {
      var n := |xs| - 1;
      FilterTwice(xs[..n], p, q);
      FilterConcat(Filter(xs[..n], p), if p(xs[n]) then [xs[n]] else [], q);
      assert Filter(xs, p) == Filter(xs[..n], p) + if p(xs[n]) then [xs[n]] else [];
    }
  }

  lemma {:induction false} FilterBoth<T>(xs: seq<T>, p: T -> bool, q: T -> bool, r: T -> bool)
    requires forall i | 0 <= i < |xs| :: r(xs[i]) <==> p(xs[i]) && q(xs[i])
    ensures Filter(Filter(xs, p), q) == Filter(xs, r)
  {
    if xs == [] {
    } else {
      var n := |xs| - 1;
      FilterBoth(xs[..n], p, q, r);
      FilterConcat(Filter(xs[..n], p), if p(xs[n]) then [xs[n]] else [], q);
      assert Filter(xs, p) == Filter(xs[..n], p) + if p(xs[n]) then [xs[n]] else [];
    }
  }

  /** Filtering leaves out an element that fails the test. */
  lemma {:induction false} FilterLess<T>(xs: seq<T>, p: T -> bool, i: nat)
    requires i < |xs| && !p(xs[i])
    ensures |Filter(xs, p)| < |xs|
  {
    if i == |xs| - 1 {
    } else {
      FilterLess(xs[..|xs| - 1], p, i);
    }
  }

  lemma {:induction false} FilterCount<T>(xs: seq<T>, p: T -> bool, x: T)
    ensures multiset(Filter(xs, p))[x] == if p(x) then multiset(xs)[x] else 0
  {
    if xs == [] {
    } else {
      assert xs == xs[..|xs| - 1] + [xs[|xs| - 1]];
      FilterCount(xs[..|xs| - 1], p, x);
    }
  }

  /** Filtering a permutation keeps the same elements. */
  lemma FilterPermuted<T(!new)>(xs: seq<T>, ys: seq<T>, p: T -> bool)
    requires multiset(xs) == multiset(ys)
    ensures multiset(Filter(xs, p)) == multiset(Filter(ys, p))
  {
    forall x
      ensures multiset(Filter(xs, p))[x] == multiset(Filter(ys, p))[x]
    {
      FilterCount(xs, p, x);
      FilterCount(ys, p, x);
    }
  }

  ghost predicate Distinct<T>(xs: seq<T>) {
    forall i, j | 0 <= i < j < |xs| :: xs[i] != xs[j]
  }

  /** First occurrences, in order: `dict.fromkeys(xs)`. */
  function Dedup<T(!new,==)>(xs: seq<T>): (r: seq<T>)
    ensures Distinct(r)
    ensures forall x :: x in r <==> x in xs
  {
    if xs == [] then []
    else
      assert xs == xs[..|xs| - 1] + [xs[|xs| - 1]];
      var d := Dedup(xs[..|xs| - 1]);
      if xs[|xs| - 1] in d then d else d + [xs[|xs| - 1]]
  }

  lemma DedupSnoc<T(!new)>(xs: seq<T>, x: T)
    ensures Dedup(xs + [x]) == if x in Dedup(xs) then Dedup(xs) else Dedup(xs) + [x]
  {
    assert (xs + [x])[..|xs|] == xs;
  }

  // ── Stable insertion sort ────────────────────────────────────────────────

  ghost predicate TotalPreorder<T(!new)>(le: (T, T) -> bool) {
    && (forall a, b :: le(a, b) || le(b, a))
    && (forall a, b, c :: le(a, b) && le(b, c) ==> le(a, c))
  }

  ghost predicate Sorted<T>(xs: seq<T>, le: (T, T) -> bool) {
    forall i, j | 0 <= i < j < |xs| :: le(xs[i], xs[j])
  }

  function Insert<T>(x: T, ys: seq<T>, le: (T, T) -> bool): seq<T> {
    if ys == [] || le(x, ys[0]) then [x] + ys else [ys[0]] + Insert(x, ys[1..], le)
  }

  function Sort<T>(xs: seq<T>, le: (T, T) -> bool): seq<T> {
    if xs == [] then [] else Insert(xs[0], Sort(xs[1..], le), le)
  }

  lemma {:induction false} InsertContents<T>(x: T, ys: seq<T>, le: (T, T) -> bool)
    ensures multiset(Insert(x, ys, le)) == multiset{x} + multiset(ys)
  {
    if ys == [] || le(x, ys[0]) {
    } else {
      InsertContents(x, ys[1..], le);
      assert ys == [ys[0]] + ys[1..];
    }
  }

  lemma {:induction false} InsertSorted<T(!new)>(x: T, ys: seq<T>, le: (T, T) -> bool)
    requires TotalPreorder(le) && Sorted(ys, le)
    ensures Sorted(Insert(x, ys, le), le)
  {
    if ys == [] || le(x, ys[0]) {
      forall k | 0 <= k < |ys|
        ensures le(x, ys[k])
      {
        if k > 0 {
          assert le(ys[0], ys[k]);
        }
      }
    } else {
      var rest := Insert(x, ys[1..], le);
      InsertSorted(x, ys[1..], le);
      InsertContents(x, ys[1..], le);
      forall k | 0 <= k < |rest|
        ensures le(ys[0], rest[k])
      {
        assert rest[k] in multiset(rest);
        assert rest[k] == x || rest[k] in ys[1..];
      }
    }
  }

  /** Sorting gives a permutation in order. */
  lemma {:induction false} SortCorrect<T(!new)>(xs: seq<T>, le: (T, T) -> bool)
    requires TotalPreorder(le)
    ensures Sorted(Sort(xs, le), le)
    ensures multiset(Sort(xs, le)) == multiset(xs)
    ensures |Sort(xs, le)| == |xs|
  {
    if xs == [] {
    } else {
      SortCorrect(xs[1..], le);
      InsertSorted(xs[0], Sort(xs[1..], le), le);
      InsertContents(xs[0], Sort(xs[1..], le), le);
      assert xs == [xs[0]] + xs[1..];
    }
    assert |multiset(Sort(xs, le))| == |multiset(xs)|;
  }

  lemma SortIn<T(!new)>(xs: seq<T>, le: (T, T) -> bool, x: T)
    requires TotalPreorder(le)
    ensures x in Sort(xs, le) <==> x in xs
  {
    SortCorrect(xs, le);
    assert x in xs <==> x in multiset(xs);
    assert x in Sort(xs, le) <==> x in multiset(Sort(xs, le));
  }

  lemma FilterCons<T>(x: T, ys: seq<T>, p: T -> bool)
    ensures Filter([x] + ys, p) == if p(x) then [x] + Filter(ys, p) else Filter(ys, p)
  {
    FilterConcat([x], ys, p);
    assert [x][..0] == [] && Filter([x][..0], p) == [];
    assert [] + Filter(ys, p) == Filter(ys, p);
  }

  /** An element that comes before a whole ordered list goes to its front. */
  lemma InsertFront<T(!new)>(x: T, ys: seq<T>, le: (T, T) -> bool, p: T -> bool)
    requires TotalPreorder(le) && Sorted(ys, le) && (ys == [] || le(x, ys[0]))
    ensures Insert(x, Filter(ys, p), le) == [x] + Filter(ys, p)
  {
    var f := Filter(ys, p);
    if f != [] {
      FilterIn(ys, p, f[0]);
      var k :| 0 <= k < |ys| && ys[k] == f[0];
      assert k > 0 ==> le(ys[0], ys[k]);
    }
  }

  lemma {:induction false} InsertFilter<T(!new)>(x: T, ys: seq<T>, le: (T, T) -> bool, p: T -> bool)
    requires TotalPreorder(le) && Sorted(ys, le)
    ensures Filter(Insert(x, ys, le), p) == if p(x) then Insert(x, Filter(ys, p), le) else Filter(ys, p)
  {
    hide Filter;
    if ys == [] || le(x, ys[0]) {
      FilterCons(x, ys, p);
      InsertFront(x, ys, le, p);
    } else {
      var rest := ys[1..];
      assert ys == [ys[0]] + rest;
      InsertFilter(x, rest, le, p);
      FilterCons(ys[0], rest, p);
      FilterCons(ys[0], Insert(x, rest, le), p);
      assert ([ys[0]] + Filter(rest, p))[1..] == Filter(rest, p);
    }
  }

  /** Filtering and stable sorting commute. */
  lemma {:induction false} SortFilter<T(!new)>(xs: seq<T>, le: (T, T) -> bool, p: T -> bool)
    requires TotalPreorder(le)
    ensures Sort(Filter(xs, p), le) == Filter(Sort(xs, le), p)
  {
    if xs == [] {
    } else {
      assert xs == [xs[0]] + xs[1..];
      SortFilter(xs[1..], le, p);
      SortCorrect(xs[1..], le);
      InsertFilter(xs[0], Sort(xs[1..], le), le, p);
      FilterCons(xs[0], xs[1..], p);
      assert ([xs[0]] + Filter(xs[1..], p))[1..] == Filter(xs[1..], p);
    }
  }

  /** Sorting an ordered list changes nothing: the sort is stable. */
  lemma {:induction false} SortOfSorted<T>(xs: seq<T>, le: (T, T) -> bool)
    requires Sorted(xs, le)
    ensures Sort(xs, le) == xs
  {
    if xs == [] {
    } else {
      SortOfSorted(xs[1..], le);
      assert xs == [xs[0]] + xs[1..];
    }
  }

  // ── Lists without repeated keys ──────────────────────────────────────────

  ghost predicate DistinctBy<T, K>(xs: seq<T>, key: T -> K) {
    forall i, j | 0 <= i < j < |xs| :: key(xs[i]) != key(xs[j])
  }

  lemma {:induction false} FilterDistinct<T, K>(xs: seq<T>, p: T -> bool, key: T -> K)
    requires DistinctBy(xs, key)
    ensures DistinctBy(Filter(xs, p), key)
  {
    if xs == [] {
    } else {
      var n := |xs| - 1;
      FilterDistinct(xs[..n], p, key);
      forall x | x in Filter(xs[..n], p)
        ensures key(x) != key(xs[n])
      {
        FilterIn(xs[..n], p, x);
      }
    }
  }

  lemma OnceOnly<T, K>(xs: seq<T>, x: T, key: T -> K)
    requires DistinctBy(xs, key) && x in xs
    ensures multiset(xs)[x] == 1
  {
    var k :| 0 <= k < |xs| && xs[k] == x;
    assert xs == xs[..k] + [xs[k]] + xs[k + 1..];
    assert x !in xs[..k] && x !in xs[k + 1..];
  }

  lemma PermutedDistinct<T, K>(xs: seq<T>, ys: seq<T>, key: T -> K)
    requires DistinctBy(xs, key) && multiset(xs) == multiset(ys)
    ensures DistinctBy(ys, key)
  {
    forall i, j | 0 <= i < j < |ys|
      ensures key(ys[i]) != key(ys[j])
    {
      assert ys[i] in multiset(ys) && ys[j] in multiset(ys);
      assert ys[i] in xs && ys[j] in xs;
      if key(ys[i]) == key(ys[j]) {
        assert ys[i] == ys[j];
        assert ys == ys[..j] + ys[j..] && ys[i] in ys[..j] && ys[j] in ys[j..];
        OnceOnly(xs, ys[i], key);
        assert false;
      }
    }
  }

  // ── Leaving elements out ─────────────────────────────────────────────────

  /** `xs` are the elements of `ys` at the strictly increasing positions `at`. */
  ghost predicate IsSelection<T>(xs: seq<T>, ys: seq<T>, at: seq<nat>) {
    && |at| == |xs|
    && (forall i | 0 <= i < |at| :: at[i] < |ys| && ys[at[i]] == xs[i])
    && (forall i, j | 0 <= i < j < |at| :: at[i] < at[j])
  }

  lemma SelectNothing<T>(ys: seq<T>)
    ensures IsSelection([], ys, [])
  {
  }

  lemma SelectionSnoc<T>(xs: seq<T>, ys: seq<T>, at: seq<nat>, y: T)
    requires IsSelection(xs, ys, at)
    ensures IsSelection(xs, ys + [y], at) && IsSelection(xs + [y], ys + [y], at + [|ys|])
    ensures xs + [] == xs
  {
  }

  /** `xs` can be obtained from `ys` by leaving elements out. */
  ghost predicate Subsequence<T(!new)>(xs: seq<T>, ys: seq<T>) {
    exists at :: IsSelection(xs, ys, at)
  }

  /** The same, read from the front. */
  ghost predicate Sub<T>(xs: seq<T>, ys: seq<T>)
    decreases |ys|
  {
    if ys == [] then xs == []
    else Sub(xs, ys[1..]) || (xs != [] && xs[0] == ys[0] && Sub(xs[1..], ys[1..]))
  }

  lemma {:induction false} SubIsSelection<T>(xs: seq<T>, ys: seq<T>) returns (at: seq<nat>)
    requires Sub(xs, ys)
    ensures IsSelection(xs, ys, at)
    decreases |ys|
  {
    if ys == [] {
      at := [];
    } else if Sub(xs, ys[1..]) {
      var rest := SubIsSelection(xs, ys[1..]);
      at := seq(|rest|, i requires 0 <= i < |rest| => rest[i] + 1);
    } else {
      var rest := SubIsSelection(xs[1..], ys[1..]);
      at := [0] + seq(|rest|, i requires 0 <= i < |rest| => rest[i] + 1);
    }
  }

  lemma {:induction false} SelectionIsSub<T>(xs: seq<T>, ys: seq<T>, at: seq<nat>)
    requires IsSelection(xs, ys, at)
    ensures Sub(xs, ys)
    decreases |ys|
  {
    if ys == [] {
      assert xs == [];
    } else if xs != [] && at[0] == 0 {
      var rest := seq(|at| - 1, i requires 0 <= i < |at| - 1 => at[i + 1] - 1);
      SelectionIsSub(xs[1..], ys[1..], rest);
    } else {
      assert forall i | 0 <= i < |at| :: at[i] > 0;
      var rest := seq(|at|, i requires 0 <= i < |at| => at[i] - 1);
      SelectionIsSub(xs, ys[1..], rest);
    }
  }

  lemma {:induction false} SubInsert<T>(x: T, xs: seq<T>, ys: seq<T>, le: (T, T) -> bool)
    requires Sub(xs, ys)
    ensures Sub(xs, Insert(x, ys, le))
    decreases |ys|
  {
    var more := Insert(x, ys, le);
    if ys == [] || le(x, ys[0]) {
      assert more[1..] == ys;
    } else {
      assert more[1..] == Insert(x, ys[1..], le);
      if Sub(xs, ys[1..]) {
        SubInsert(x, xs, ys[1..], le);
      } else {
        SubInsert(x, xs[1..], ys[1..], le);
      }
    }
  }

  lemma {:induction false} SubFirst<T(!new)>(xs: seq<T>, ys: seq<T>, le: (T, T) -> bool)
    requires TotalPreorder(le) && Sorted(ys, le) && Sub(xs, ys) && xs != []
    ensures ys != [] && le(ys[0], xs[0])
    decreases |ys|
  {
    if !Sub(xs, ys[1..]) {
    } else {
      SubFirst(xs, ys[1..], le);
      assert le(ys[0], ys[1]);
    }
  }

  /** Whatever is left of an ordered list, an insertion goes to the same place. */
  lemma {:induction false} SubInsertBoth<T(!new)>(x: T, xs: seq<T>, ys: seq<T>, le: (T, T) -> bool)
    requires TotalPreorder(le) && Sorted(ys, le) && Sub(xs, ys)
    ensures Sub(Insert(x, xs, le), Insert(x, ys, le))
    decreases |ys|
  {
    var more := Insert(x, ys, le);
    if ys == [] || le(x, ys[0]) {
      assert more[1..] == ys && more[0] == x;
      var fewer := Insert(x, xs, le);
      if xs == [] || le(x, xs[0]) {
        assert fewer[1..] == xs;
      } else {
        assert false by {
          SubFirst(xs, ys, le);
        }
      }
    } else {
      assert more[1..] == Insert(x, ys[1..], le);
      if Sub(xs, ys[1..]) {
        SubInsertBoth(x, xs, ys[1..], le);
      } else {
        SubInsertBoth(x, xs[1..], ys[1..], le);
        var fewer := Insert(x, xs, le);
        assert fewer[1..] == Insert(x, xs[1..], le) && fewer[0] == ys[0];
      }
    }
  }

  /** Sorting keeps what was left out left out. */
  lemma {:induction false} SubSort<T(!new)>(xs: seq<T>, ys: seq<T>, le: (T, T) -> bool)
    requires TotalPreorder(le) && Sub(xs, ys)
    ensures Sub(Sort(xs, le), Sort(ys, le))
    decreases |ys|
  {
    if ys == [] {
    } else {
      SortCorrect(ys[1..], le);
      if Sub(xs, ys[1..]) {
        SubSort(xs, ys[1..], le);
        SubInsert(ys[0], Sort(xs, le), Sort(ys[1..], le), le);
      } else {
        SubSort(xs[1..], ys[1..], le);
        SubInsertBoth(ys[0], Sort(xs[1..], le), Sort(ys[1..], le), le);
      }
    }
  }
}
