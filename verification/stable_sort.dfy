/** A stable sort by a number, as `Array.prototype.sort` of ECMAScript is, and its laws. */
module StableSort {
  datatype Stamped<+T> = Stamped(at: int, value: T)

  /** `a` may stand before `b`: `down` sorts the largest first. */
  predicate InOrder(a: int, b: int, down: bool) {
    if down then a >= b else a <= b
  }

  predicate Ordered<T>(xs: seq<Stamped<T>>, down: bool) {
    forall i, j :: 0 <= i < j < |xs| ==> InOrder(xs[i].at, xs[j].at, down)
  }

  /** Puts `x` as far back as it goes: behind everything it may follow. */
  function Inserted<T>(xs: seq<Stamped<T>>, x: Stamped<T>, down: bool): seq<Stamped<T>> {
    if xs == [] || InOrder(xs[|xs| - 1].at, x.at, down) then xs + [x]
    else Inserted(xs[..|xs| - 1], x, down) + [xs[|xs| - 1]]
  }

  function Sorted<T>(xs: seq<Stamped<T>>, down: bool): seq<Stamped<T>> {
    if xs == [] then [] else Inserted(Sorted(xs[..|xs| - 1], down), xs[|xs| - 1], down)
  }

  function Kept<T>(xs: seq<Stamped<T>>, keep: Stamped<T> -> bool): seq<Stamped<T>> {
    if xs == [] then []
    else if keep(xs[|xs| - 1]) then Kept(xs[..|xs| - 1], keep) + [xs[|xs| - 1]]
    else Kept(xs[..|xs| - 1], keep)
  }

  lemma KeptSnoc<T>(xs: seq<Stamped<T>>, x: Stamped<T>, keep: Stamped<T> -> bool)
    ensures Kept(xs + [x], keep) == if keep(x) then Kept(xs, keep) + [x] else Kept(xs, keep)
  {
    assert (xs + [x])[..|xs|] == xs;
  }

  lemma {:induction false} KeptSum<T>(xs: seq<Stamped<T>>, ys: seq<Stamped<T>>, keep: Stamped<T> -> bool)
    ensures Kept(xs + ys, keep) == Kept(xs, keep) + Kept(ys, keep)
  {
    if ys == [] {
      assert xs + ys == xs;
    } else {
      assert (xs + ys)[..|xs + ys| - 1] == xs + ys[..|ys| - 1];
      KeptSum(xs, ys[..|ys| - 1], keep);
    }
  }

  lemma {:induction false} KeptMember<T>(xs: seq<Stamped<T>>, keep: Stamped<T> -> bool, x: Stamped<T>)
    ensures x in Kept(xs, keep) <==> x in xs && keep(x)
  {
    if xs != [] {
      KeptMember(xs[..|xs| - 1], keep, x);
      assert xs == xs[..|xs| - 1] + [xs[|xs| - 1]];
    }
  }

  lemma {:induction false} KeptAll<T>(xs: seq<Stamped<T>>, keep: Stamped<T> -> bool)
    requires forall x :: x in xs ==> keep(x)
    ensures Kept(xs, keep) == xs
  {
    if xs != [] {
      assert xs[|xs| - 1] in xs;
      KeptAll(xs[..|xs| - 1], keep);
    }
  }

  lemma {:induction false} KeptNone<T>(xs: seq<Stamped<T>>, keep: Stamped<T> -> bool)
    requires forall x :: x in xs ==> !keep(x)
    ensures Kept(xs, keep) == []
  {
    if xs != [] {
      assert xs[|xs| - 1] in xs;
      KeptNone(xs[..|xs| - 1], keep);
    }
  }

  lemma OrderedSnoc<T>(xs: seq<Stamped<T>>, x: Stamped<T>, down: bool)
    ensures Ordered(xs + [x], down) <==>
      Ordered(xs, down) && forall i :: 0 <= i < |xs| ==> InOrder(xs[i].at, x.at, down)
  {
    var all := xs + [x];
    if Ordered(all, down) {
      forall i | 0 <= i < |xs|
        ensures InOrder(xs[i].at, x.at, down)
      {
        assert InOrder(all[i].at, all[|xs|].at, down);
      }
      forall i, j | 0 <= i < j < |xs|
        ensures InOrder(xs[i].at, xs[j].at, down)
      {
        assert InOrder(all[i].at, all[j].at, down);
      }
    }
  }

  lemma {:induction false} InsertedOrdered<T>(xs: seq<Stamped<T>>, x: Stamped<T>, down: bool)
    requires Ordered(xs, down)
    ensures Ordered(Inserted(xs, x, down), down)
    ensures multiset(Inserted(xs, x, down)) == multiset(xs) + multiset{x}
  {
    if xs == [] || InOrder(xs[|xs| - 1].at, x.at, down) {
      OrderedSnoc(xs, x, down);
    } else {
      var rest, last := xs[..|xs| - 1], xs[|xs| - 1];
      assert xs == rest + [last];
      OrderedSnoc(rest, last, down);
      InsertedOrdered(rest, x, down);
      forall i | 0 <= i < |Inserted(rest, x, down)|
        ensures InOrder(Inserted(rest, x, down)[i].at, last.at, down)
      {
        assert Inserted(rest, x, down)[i] in multiset(rest) + multiset{x};
      }
      OrderedSnoc(Inserted(rest, x, down), last, down);
    }
  }

  /** Sorting orders the elements and loses none. */
  lemma {:induction false} SortedOrdered<T>(xs: seq<Stamped<T>>, down: bool)
    ensures Ordered(Sorted(xs, down), down)
    ensures multiset(Sorted(xs, down)) == multiset(xs)
  {
    if xs != [] {
      SortedOrdered(xs[..|xs| - 1], down);
      InsertedOrdered(Sorted(xs[..|xs| - 1], down), xs[|xs| - 1], down);
      assert xs == xs[..|xs| - 1] + [xs[|xs| - 1]];
    }
  }

  lemma {:induction false} SortedSame<T>(xs: seq<Stamped<T>>, down: bool)
    requires Ordered(xs, down)
    ensures Sorted(xs, down) == xs
  {
    if xs != [] {
      var rest, last := xs[..|xs| - 1], xs[|xs| - 1];
      assert xs == rest + [last];
      OrderedSnoc(rest, last, down);
      SortedSame(rest, down);
    }
  }

  lemma SortedSnoc<T>(xs: seq<Stamped<T>>, x: Stamped<T>, down: bool)
    ensures Sorted(xs + [x], down) == Inserted(Sorted(xs, down), x, down)
  {
    assert (xs + [x])[..|xs|] == xs;
  }

  lemma InsertedSnoc<T>(xs: seq<Stamped<T>>, last: Stamped<T>, x: Stamped<T>, down: bool)
    ensures Inserted(xs + [last], x, down) ==
      if InOrder(last.at, x.at, down) then xs + [last] + [x] else Inserted(xs, x, down) + [last]
  {
    assert (xs + [last])[..|xs|] == xs;
  }

  /** What may follow everything is put last. */
  lemma InsertedLast<T>(xs: seq<Stamped<T>>, x: Stamped<T>, down: bool)
    requires forall y :: y in xs ==> InOrder(y.at, x.at, down)
    ensures Inserted(xs, x, down) == xs + [x]
  {
    assert xs != [] ==> xs[|xs| - 1] in xs;
  }

  lemma {:induction false} KeptInserted<T>(xs: seq<Stamped<T>>, x: Stamped<T>, down: bool, keep: Stamped<T> -> bool)
    requires Ordered(xs, down)
    ensures Kept(Inserted(xs, x, down), keep) ==
      if keep(x) then Inserted(Kept(xs, keep), x, down) else Kept(xs, keep)
  {
    if xs == [] {
      KeptSnoc(xs, x, keep);
    } else {
      var rest, last := xs[..|xs| - 1], xs[|xs| - 1];
      assert xs == rest + [last];
      OrderedSnoc(rest, last, down);
      KeptSnoc(rest, last, keep);
      InsertedSnoc(rest, last, x, down);
      if InOrder(last.at, x.at, down) {
        KeptSnoc(xs, x, keep);
        forall y | y in Kept(xs, keep)
          ensures InOrder(y.at, x.at, down)
        {
          KeptMember(xs, keep, y);
        }
        InsertedLast(Kept(xs, keep), x, down);
      } else {
        KeptInserted(rest, x, down, keep);
        KeptSnoc(Inserted(rest, x, down), last, keep);
        InsertedSnoc(Kept(rest, keep), last, x, down);
      }
    }
  }

  /** Filtering and sorting commute: the sort is stable. */
  lemma {:induction false} KeptSorted<T>(xs: seq<Stamped<T>>, down: bool, keep: Stamped<T> -> bool)
    ensures Kept(Sorted(xs, down), keep) == Sorted(Kept(xs, keep), down)
  {
    if xs != [] {
      var rest, last := xs[..|xs| - 1], xs[|xs| - 1];
      assert xs == rest + [last];
      KeptSorted(rest, down, keep);
      KeptSnoc(rest, last, keep);
      SortedOrdered(rest, down);
      SortedSnoc(rest, last, down);
      KeptInserted(Sorted(rest, down), last, down, keep);
      SortedSnoc(Kept(rest, keep), last, down);
    }
  }
}
