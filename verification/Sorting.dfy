/** Sorting and picking with a comparator, as `Array.prototype.sort` does: stable, and in order for a total preorder. */
module Sorting {
  import opened Sequences
  import opened Wrappers

  ghost predicate Opposite<T>(cmp: (T, T) -> int, a: T, b: T) {
    (cmp(a, b) > 0 <==> cmp(b, a) < 0) && (cmp(a, b) < 0 <==> cmp(b, a) > 0)
  }

  ghost predicate Chains<T>(cmp: (T, T) -> int, a: T, b: T, c: T) {
    cmp(a, b) <= 0 && cmp(b, c) <= 0 ==> cmp(a, c) <= 0
  }

  /** Swapping the arguments swaps the sign, and order carries over. */
  ghost predicate TotalPreorder<T(!new)>(cmp: (T, T) -> int) {
    (forall a, b :: Opposite(cmp, a, b)) && (forall a, b, c :: Chains(cmp, a, b, c))
  }

  // ---- A stable sort. ----

  function Insert<T>(sorted: seq<T>, x: T, cmp: (T, T) -> int): seq<T> {
    if |sorted| == 0 then [x]
    else if cmp(x, sorted[0]) < 0 then [x] + sorted
    else [sorted[0]] + Insert(sorted[1..], x, cmp)
  }

  function Sort<T>(rows: seq<T>, cmp: (T, T) -> int): seq<T> {
    if |rows| == 0 then [] else Insert(Sort(rows[..|rows| - 1], cmp), rows[|rows| - 1], cmp)
  }

  ghost predicate Ordered<T>(rows: seq<T>, cmp: (T, T) -> int) {
    forall i, j :: 0 <= i < j < |rows| ==> cmp(rows[i], rows[j]) <= 0
  }

  function TiedWith<T>(x: T, cmp: (T, T) -> int): T -> bool {
    r => cmp(r, x) == 0
  }

  /** The rows that tie with `x`, in order. */
  function Ties<T>(rows: seq<T>, x: T, cmp: (T, T) -> int): seq<T> {
    Keep(rows, TiedWith(x, cmp))
  }

  lemma {:induction false} InsertPermutes<T>(sorted: seq<T>, x: T, cmp: (T, T) -> int)
    ensures multiset(Insert(sorted, x, cmp)) == multiset(sorted) + multiset{x}
  {
    if |sorted| > 0 {
      assert sorted == [sorted[0]] + sorted[1..];
      InsertPermutes(sorted[1..], x, cmp);
    }
  }

  lemma {:induction false} InsertOrders<T(!new)>(sorted: seq<T>, x: T, cmp: (T, T) -> int)
    requires TotalPreorder(cmp) && Ordered(sorted, cmp)
    ensures Ordered(Insert(sorted, x, cmp), cmp)
  {
    if |sorted| > 0 && cmp(x, sorted[0]) < 0 {
      forall j | 0 <= j < |sorted| ensures cmp(x, sorted[j]) <= 0 {
        assert Chains(cmp, x, sorted[0], sorted[j]);
      }
    } else if |sorted| > 0 {
      assert Opposite(cmp, x, sorted[0]);
      var rest := Insert(sorted[1..], x, cmp);
      InsertOrders(sorted[1..], x, cmp);
      InsertPermutes(sorted[1..], x, cmp);
      forall j | 0 <= j < |rest| ensures cmp(sorted[0], rest[j]) <= 0 {
        assert rest[j] in multiset(rest);
        if rest[j] != x {
          assert rest[j] in sorted[1..];
        }
      }
    }
  }

  lemma {:induction false} InsertStable<T(!new)>(sorted: seq<T>, x: T, cmp: (T, T) -> int, y: T)
    requires TotalPreorder(cmp) && Ordered(sorted, cmp)
    ensures Ties(Insert(sorted, x, cmp), y, cmp) == Ties(sorted + [x], y, cmp)
  {
    if |sorted| == 0 {
      assert sorted + [x] == [x];
    } else if cmp(x, sorted[0]) < 0 {
      KeepAppend([x], sorted, TiedWith(y, cmp));
      KeepAppend(sorted, [x], TiedWith(y, cmp));
      if cmp(x, y) == 0 {
        forall i | 0 <= i < |sorted| ensures cmp(sorted[i], y) != 0 {
          NoneTies(sorted, x, cmp, y, i);
        }
        KeepNone(sorted, TiedWith(y, cmp));
      }
    } else {
      InsertStable(sorted[1..], x, cmp, y);
      assert (sorted + [x])[1..] == sorted[1..] + [x];
      assert Insert(sorted, x, cmp)[1..] == Insert(sorted[1..], x, cmp);
    }
  }

  lemma NoneTies<T(!new)>(sorted: seq<T>, x: T, cmp: (T, T) -> int, y: T, i: nat)
    requires TotalPreorder(cmp) && Ordered(sorted, cmp) && i < |sorted|
    requires cmp(x, sorted[0]) < 0 && cmp(x, y) == 0
    ensures cmp(sorted[i], y) != 0
  {
    assert Opposite(cmp, x, y) && Opposite(cmp, x, sorted[0]) && Opposite(cmp, sorted[i], sorted[i]);
    assert Chains(cmp, sorted[i], y, x) && Chains(cmp, sorted[0], sorted[i], x);
  }

  lemma InsertKeepsTies<T(!new)>(before: seq<T>, sorted: seq<T>, x: T, cmp: (T, T) -> int, y: T)
    requires TotalPreorder(cmp) && Ordered(sorted, cmp) && Ties(sorted, y, cmp) == Ties(before, y, cmp)
    ensures Ties(Insert(sorted, x, cmp), y, cmp) == Ties(before + [x], y, cmp)
  {
    InsertStable(sorted, x, cmp, y);
    KeepAppend(sorted, [x], TiedWith(y, cmp));
    KeepAppend(before, [x], TiedWith(y, cmp));
  }

  lemma {:induction false} SortPermutes<T>(rows: seq<T>, cmp: (T, T) -> int)
    ensures multiset(Sort(rows, cmp)) == multiset(rows)
  {
    if |rows| > 0 {
      var before, x := rows[..|rows| - 1], rows[|rows| - 1];
      SortPermutes(before, cmp);
      InsertPermutes(Sort(before, cmp), x, cmp);
      assert rows == before + [x];
    }
  }

  lemma {:induction false} SortOrders<T(!new)>(rows: seq<T>, cmp: (T, T) -> int)
    requires TotalPreorder(cmp)
    ensures Ordered(Sort(rows, cmp), cmp)
  {
    if |rows| > 0 {
      var before, x := rows[..|rows| - 1], rows[|rows| - 1];
      SortOrders(before, cmp);
      InsertOrders(Sort(before, cmp), x, cmp);
    }
  }

  lemma {:induction false} SortStable<T(!new)>(rows: seq<T>, cmp: (T, T) -> int, y: T)
    requires TotalPreorder(cmp)
    ensures Ties(Sort(rows, cmp), y, cmp) == Ties(rows, y, cmp)
  {
    if |rows| > 0 {
      var before, x := rows[..|rows| - 1], rows[|rows| - 1];
      SortStable(before, cmp, y);
      SortOrders(before, cmp);
      InsertKeepsTies(before, Sort(before, cmp), x, cmp, y);
      assert rows == before + [x];
    }
  }

  lemma SameLength<T>(a: seq<T>, b: seq<T>)
    requires multiset(a) == multiset(b)
    ensures |a| == |b|
  {
    assert |multiset(a)| == |a| && |multiset(b)| == |b|;
  }

  lemma TailsPermute<T>(a: seq<T>, b: seq<T>)
    requires |a| > 0 && |b| > 0 && a[0] == b[0] && multiset(a) == multiset(b)
    ensures multiset(a[1..]) == multiset(b[1..])
  {
    assert a == [a[0]] + a[1..] && b == [b[0]] + b[1..];
    assert multiset(a[1..]) == multiset(a) - multiset{a[0]} && multiset(b[1..]) == multiset(b) - multiset{b[0]};
  }

  lemma TiesOfTail<T>(a: seq<T>, b: seq<T>, cmp: (T, T) -> int, y: T)
    requires |a| > 0 && |b| > 0 && a[0] == b[0] && Ties(a, y, cmp) == Ties(b, y, cmp)
    ensures Ties(a[1..], y, cmp) == Ties(b[1..], y, cmp)
  {
    var head := if cmp(a[0], y) == 0 then [a[0]] else [];
    assert Ties(a, y, cmp)[|head|..] == Ties(a[1..], y, cmp);
    assert Ties(b, y, cmp)[|head|..] == Ties(b[1..], y, cmp);
  }

  /** Only one list is ordered, holds the given elements, and keeps every group of ties in its order. */
  lemma {:induction false} StableSortUnique<T(!new)>(a: seq<T>, b: seq<T>, cmp: (T, T) -> int)
    requires TotalPreorder(cmp) && Ordered(a, cmp) && Ordered(b, cmp) && multiset(a) == multiset(b)
    requires forall y :: Ties(a, y, cmp) == Ties(b, y, cmp)
    ensures a == b
    decreases |a|
  {
    SameLength(a, b);
    if |a| > 0 {
      SameHead(a, b, cmp);
      TailsPermute(a, b);
      forall y ensures Ties(a[1..], y, cmp) == Ties(b[1..], y, cmp) {
        TiesOfTail(a, b, cmp, y);
      }
      StableSortUnique(a[1..], b[1..], cmp);
      assert a == [a[0]] + a[1..] && b == [b[0]] + b[1..];
    }
  }

  lemma SameHead<T(!new)>(a: seq<T>, b: seq<T>, cmp: (T, T) -> int)
    requires TotalPreorder(cmp) && Ordered(a, cmp) && Ordered(b, cmp) && multiset(a) == multiset(b)
    requires forall y :: Ties(a, y, cmp) == Ties(b, y, cmp)
    requires |a| > 0 && |b| > 0
    ensures a[0] == b[0]
  {
    assert a[0] in multiset(b) && b[0] in multiset(a);
    var i :| 0 <= i < |b| && b[i] == a[0];
    var j :| 0 <= j < |a| && a[j] == b[0];
    assert Opposite(cmp, a[0], a[0]) && Opposite(cmp, b[0], b[0]) && Opposite(cmp, a[0], b[0]);
    assert Ties(a, a[0], cmp)[0] == a[0];
    assert Ties(b, a[0], cmp)[0] == b[0];
  }

  // ---- A comparator that is only in order on the list at hand. ----

  /** What `Array.prototype.sort` asks of a comparator: consistency on the elements of the list. */
  ghost predicate PreorderOn<T>(xs: seq<T>, cmp: (T, T) -> int) {
    && (forall a, b :: a in xs && b in xs ==> Opposite(cmp, a, b))
    && (forall a, b, c :: a in xs && b in xs && c in xs ==> Chains(cmp, a, b, c))
  }

  /** What a sort call may return: a rearrangement, and with a consistent comparator an ordered one that keeps ties. */
  ghost predicate SortResult<T>(xs: seq<T>, cmp: (T, T) -> int, out: seq<T>) {
    && multiset(out) == multiset(xs)
    && (PreorderOn(xs, cmp) ==> Ordered(out, cmp) && forall y :: y in xs ==> Ties(out, y, cmp) == Ties(xs, y, cmp))
  }

  /** The comparator on the list's elements; everything else comes after them and ties. */
  function Extended<T(==)>(xs: seq<T>, cmp: (T, T) -> int): (T, T) -> int {
    (a: T, b: T) => if a in xs && b in xs then cmp(a, b) else if a in xs then -1 else if b in xs then 1 else 0
  }

  lemma ExtendedIsPreorder<T(!new)>(xs: seq<T>, cmp: (T, T) -> int)
    requires PreorderOn(xs, cmp)
    ensures TotalPreorder(Extended(xs, cmp))
  {
    var ext := Extended(xs, cmp);
    forall a, b ensures Opposite(ext, a, b) {
      assert a in xs && b in xs ==> Opposite(cmp, a, b);
    }
    forall a, b, c ensures Chains(ext, a, b, c) {
      assert a in xs && b in xs && c in xs ==> Chains(cmp, a, b, c);
    }
  }

  lemma SameMembers<T>(a: seq<T>, b: seq<T>)
    requires multiset(a) == multiset(b)
    ensures forall x :: x in a <==> x in b
  {
    forall x ensures x in a <==> x in b {
      assert (x in a <==> x in multiset(a)) && (x in b <==> x in multiset(b));
    }
  }

  ghost predicate AgreeOn<T>(xs: seq<T>, f: (T, T) -> int, g: (T, T) -> int) {
    forall a, b :: a in xs && b in xs ==> f(a, b) == g(a, b)
  }

  lemma AgreeOnFewer<T>(xs: seq<T>, ys: seq<T>, f: (T, T) -> int, g: (T, T) -> int)
    requires AgreeOn(xs, f, g) && forall y :: y in ys ==> y in xs
    ensures AgreeOn(ys, f, g)
  {
  }

  lemma {:induction false} InsertAgrees<T>(sorted: seq<T>, x: T, f: (T, T) -> int, g: (T, T) -> int)
    requires AgreeOn(sorted + [x], f, g)
    ensures Insert(sorted, x, f) == Insert(sorted, x, g)
  {
    if |sorted| > 0 {
      assert sorted[0] in sorted + [x] && x in sorted + [x];
      AgreeOnFewer(sorted + [x], sorted[1..] + [x], f, g);
      InsertAgrees(sorted[1..], x, f, g);
    }
  }

  /** The sort looks only at pairs of the list's own elements. */
  lemma {:induction false} SortAgrees<T>(xs: seq<T>, f: (T, T) -> int, g: (T, T) -> int)
    requires AgreeOn(xs, f, g)
    ensures Sort(xs, f) == Sort(xs, g)
  {
    if |xs| > 0 {
      var before, x := xs[..|xs| - 1], xs[|xs| - 1];
      assert xs == before + [x];
      AgreeOnFewer(xs, before, f, g);
      SortAgrees(before, f, g);
      var sorted := Sort(before, f);
      SortPermutes(before, f);
      forall y | y in sorted + [x] ensures y in xs {
        if y in sorted {
          assert y in multiset(sorted);
          assert y in multiset(before);
        }
      }
      AgreeOnFewer(xs, sorted + [x], f, g);
      InsertAgrees(Sort(before, f), x, f, g);
    }
  }

  lemma {:induction false} KeepAgrees<T>(xs: seq<T>, p: T -> bool, q: T -> bool)
    requires forall x :: x in xs ==> p(x) == q(x)
    ensures Keep(xs, p) == Keep(xs, q)
  {
    if |xs| > 0 {
      HeadOrTail(xs);
      KeepAgrees(xs[1..], p, q);
    }
  }

  lemma TiesAgree<T>(xs: seq<T>, rows: seq<T>, y: T, f: (T, T) -> int, g: (T, T) -> int)
    requires AgreeOn(xs, f, g) && y in xs && forall x :: x in rows ==> x in xs
    ensures Ties(rows, y, f) == Ties(rows, y, g)
  {
    KeepAgrees(rows, TiedWith(y, f), TiedWith(y, g));
  }

  lemma ForeignTies<T>(xs: seq<T>, rows: seq<T>, y: T, cmp: (T, T) -> int)
    requires y !in xs && forall x :: x in rows ==> x in xs
    ensures Ties(rows, y, Extended(xs, cmp)) == []
  {
    forall i | 0 <= i < |rows| ensures !TiedWith(y, Extended(xs, cmp))(rows[i]) {
      assert rows[i] in rows;
    }
    KeepNone(rows, TiedWith(y, Extended(xs, cmp)));
  }

  /** Consistency on the list is enough: the result is determined, and it is the stable sort. */
  lemma SortResultUnique<T(!new)>(xs: seq<T>, cmp: (T, T) -> int, out: seq<T>)
    requires PreorderOn(xs, cmp)
    ensures SortResult(xs, cmp, out) <==> out == Sort(xs, cmp)
  {
    var ext := Extended(xs, cmp);
    ExtendedIsPreorder(xs, cmp);
    SortAgrees(xs, cmp, ext);
    SortPermutes(xs, ext);
    SortOrders(xs, ext);
    SameMembers(Sort(xs, ext), xs);
    if multiset(out) == multiset(xs) {
      SameMembers(out, xs);
      assert Ordered(out, cmp) <==> Ordered(out, ext);
      forall y ensures Ties(Sort(xs, ext), y, ext) == Ties(xs, y, ext)
        ensures y in xs ==> Ties(out, y, cmp) == Ties(out, y, ext) && Ties(xs, y, cmp) == Ties(xs, y, ext)
        ensures y !in xs ==> Ties(out, y, ext) == Ties(xs, y, ext)
      {
        SortStable(xs, ext, y);
        if y in xs {
          TiesAgree(xs, out, y, cmp, ext);
          TiesAgree(xs, xs, y, cmp, ext);
        } else {
          ForeignTies(xs, out, y, cmp);
          ForeignTies(xs, xs, y, cmp);
        }
      }
      if SortResult(xs, cmp, out) {
        forall y ensures Ties(out, y, ext) == Ties(Sort(xs, ext), y, ext) {
          assert y in xs ==> Ties(out, y, cmp) == Ties(xs, y, cmp);
        }
        StableSortUnique(out, Sort(xs, ext), ext);
      }
    }
  }

  // ---- A strict order. ----

  /** No ties at all: each element comes strictly before the next. */
  ghost predicate StrictlyOrdered<T>(xs: seq<T>, cmp: (T, T) -> int) {
    forall i, j :: 0 <= i < j < |xs| ==> cmp(xs[i], xs[j]) < 0
  }

  lemma StrictTail<T(!new)>(xs: seq<T>, cmp: (T, T) -> int, x: T)
    requires TotalPreorder(cmp) && StrictlyOrdered(xs, cmp) && |xs| > 0
    ensures x in xs[1..] <==> x in xs && x != xs[0]
  {
    HeadOrTail(xs);
    assert Opposite(cmp, x, x);
    if x in xs[1..] {
      var i :| 0 <= i < |xs[1..]| && xs[1..][i] == x;
      assert cmp(xs[0], xs[i + 1]) < 0;
    }
  }

  lemma StrictHead<T(!new)>(a: seq<T>, b: seq<T>, cmp: (T, T) -> int)
    requires TotalPreorder(cmp) && StrictlyOrdered(a, cmp) && StrictlyOrdered(b, cmp)
    requires |a| > 0 && |b| > 0 && a[0] in b && b[0] in a
    ensures a[0] == b[0]
  {
    var i :| 0 <= i < |b| && b[i] == a[0];
    var j :| 0 <= j < |a| && a[j] == b[0];
    assert Opposite(cmp, a[0], b[0]);
  }

  /** Two strictly ordered lists of the same elements are one list. */
  lemma {:induction false} StrictUnique<T(!new)>(a: seq<T>, b: seq<T>, cmp: (T, T) -> int)
    requires TotalPreorder(cmp) && StrictlyOrdered(a, cmp) && StrictlyOrdered(b, cmp)
    requires forall x :: x in a <==> x in b
    ensures a == b
    decreases |a|
  {
    assert |b| > 0 ==> b[0] in a;
    if |a| > 0 {
      assert a[0] in b;
      StrictHead(a, b, cmp);
      forall x ensures x in a[1..] <==> x in b[1..] {
        StrictTail(a, cmp, x);
        StrictTail(b, cmp, x);
      }
      StrictUnique(a[1..], b[1..], cmp);
      assert a == [a[0]] + a[1..] && b == [b[0]] + b[1..];
    }
  }

  /** Sorting elements of which no two tie gives a strictly ordered list of exactly those elements. */
  lemma SortStrictly<T(!new)>(xs: seq<T>, cmp: (T, T) -> int)
    requires TotalPreorder(cmp) && NoDuplicates(xs)
    requires forall a, b :: a in xs && b in xs && cmp(a, b) == 0 ==> a == b
    ensures StrictlyOrdered(Sort(xs, cmp), cmp) && forall x :: x in Sort(xs, cmp) <==> x in xs
  {
    var out := Sort(xs, cmp);
    SortOrders(xs, cmp);
    SortPermutes(xs, cmp);
    SameMembers(out, xs);
    PermutedNoDuplicates(xs, out);
    forall i, j | 0 <= i < j < |out| ensures cmp(out[i], out[j]) < 0 {
      assert out[i] in out && out[j] in out && out[i] != out[j];
    }
  }

  // ---- The first of the best. ----

  /** `xs[i]` counts, nothing that counts is above it, and nothing before it ties. */
  ghost predicate FirstBest<T>(xs: seq<T>, i: nat, counts: T -> bool, cmp: (T, T) -> int) {
    && i < |xs| && counts(xs[i])
    && (forall j :: 0 <= j < |xs| && counts(xs[j]) ==> cmp(xs[j], xs[i]) <= 0)
    && (forall j :: 0 <= j < i && counts(xs[j]) ==> cmp(xs[j], xs[i]) < 0)
  }

  /** What a left-to-right search has found: nothing yet, or the first of the best at `at`. */
  ghost predicate BestSoFar<T>(xs: seq<T>, best: Option<T>, at: nat, counts: T -> bool, cmp: (T, T) -> int) {
    match best
    case None => forall i :: 0 <= i < |xs| ==> !counts(xs[i])
    case Some(b) => FirstBest(xs, at, counts, cmp) && xs[at] == b
  }

  predicate Improves<T>(best: Option<T>, x: T, counts: T -> bool, cmp: (T, T) -> int) {
    counts(x) && (best.None? || cmp(x, best.value) > 0)
  }

  lemma BestSoFarAdds<T(!new)>(xs: seq<T>, best: Option<T>, at: nat, x: T, counts: T -> bool, cmp: (T, T) -> int)
    requires TotalPreorder(cmp) && BestSoFar(xs, best, at, counts, cmp)
    ensures Improves(best, x, counts, cmp) ==> BestSoFar(xs + [x], Some(x), |xs|, counts, cmp)
    ensures !Improves(best, x, counts, cmp) ==> BestSoFar(xs + [x], best, at, counts, cmp)
  {
    if Improves(best, x, counts, cmp) {
      if best.Some? {
        forall j | 0 <= j < |xs| && counts(xs[j]) ensures cmp(xs[j], x) < 0 {
          assert Opposite(cmp, x, xs[at]) && Opposite(cmp, x, xs[j]) && Chains(cmp, x, xs[j], xs[at]);
        }
      }
      assert Opposite(cmp, x, x);
    }
  }
}
