/** Sequences that stand for JavaScript sets and arrays: filtering, counting, adding what is new. */
module Sequences {

  ghost predicate NoDuplicates<T>(s: seq<T>) {
    forall i, j :: 0 <= i < j < |s| ==> s[i] != s[j]
  }

  lemma AppendThree<T>(a: seq<T>, b: seq<T>, c: seq<T>)
    ensures a + b + c == a + (b + c)
  {
  }

  lemma HeadOrTail<T>(s: seq<T>)
    requires |s| > 0
    ensures forall x :: x in s <==> x == s[0] || x in s[1..]
  {
    assert s == [s[0]] + s[1..];
  }

  lemma {:induction false} NoDuplicatesByCount<T>(s: seq<T>)
    ensures NoDuplicates(s) <==> forall x :: multiset(s)[x] <= 1
  {
    if |s| > 0 {
      NoDuplicatesByCount(s[1..]);
      HeadOrTail(s);
      assert multiset(s) == multiset{s[0]} + multiset(s[1..]) by {
        assert s == [s[0]] + s[1..];
      }
      if NoDuplicates(s) {
        assert s[0] !in s[1..];
      }
      if forall x :: multiset(s)[x] <= 1 {
        forall x ensures multiset(s[1..])[x] <= 1 {
          assert multiset(s)[x] <= 1;
        }
        assert multiset(s)[s[0]] <= 1;
        assert s[0] !in multiset(s[1..]);
        forall i, j | 0 <= i < j < |s| ensures s[i] != s[j] {
          assert s[j] == s[1..][j - 1];
          assert i > 0 ==> s[i] == s[1..][i - 1];
        }
      }
    }
  }

  lemma PermutedNoDuplicates<T>(a: seq<T>, b: seq<T>)
    requires multiset(a) == multiset(b) && NoDuplicates(a)
    ensures NoDuplicates(b)
  {
    NoDuplicatesByCount(a);
    NoDuplicatesByCount(b);
  }

  // ---- Counting. ----

  function Occurrences<T(==)>(xs: seq<T>, x: T): nat {
    if |xs| == 0 then 0 else (if xs[0] == x then 1 else 0) + Occurrences(xs[1..], x)
  }

  lemma {:induction false} OccurrencesAppend<T>(a: seq<T>, b: seq<T>, x: T)
    ensures Occurrences(a + b, x) == Occurrences(a, x) + Occurrences(b, x)
  {
    if |a| == 0 {
      assert a + b == b;
    } else {
      OccurrencesAppend(a[1..], b, x);
      assert (a + b)[1..] == a[1..] + b;
    }
  }

  // ---- Filtering. ----

  function Keep<T>(xs: seq<T>, p: T -> bool): seq<T> {
    if |xs| == 0 then [] else (if p(xs[0]) then [xs[0]] else []) + Keep(xs[1..], p)
  }

  lemma {:induction false} KeepAppend<T>(a: seq<T>, b: seq<T>, p: T -> bool)
    ensures Keep(a + b, p) == Keep(a, p) + Keep(b, p)
  {
    if |a| == 0 {
      assert a + b == b;
    } else {
      var head := if p(a[0]) then [a[0]] else [];
      KeepAppend(a[1..], b, p);
      assert (a + b)[1..] == a[1..] + b;
      assert Keep(a + b, p) == head + Keep(a[1..] + b, p);
      AppendThree(head, Keep(a[1..], p), Keep(b, p));
    }
  }

  lemma {:induction false} KeepNone<T>(xs: seq<T>, p: T -> bool)
    requires forall i :: 0 <= i < |xs| ==> !p(xs[i])
    ensures Keep(xs, p) == []
  {
    if |xs| > 0 {
      KeepNone(xs[1..], p);
    }
  }

  lemma RemoveAt<T>(s: seq<T>, i: nat)
    requires i < |s|
    ensures multiset(s) == multiset(s[..i] + s[i + 1..]) + multiset{s[i]}
  {
    assert s == s[..i] + ([s[i]] + s[i + 1..]);
  }

  /** Where the head of a list stands in a rearrangement of it. */
  lemma RemoveHead<T>(a: seq<T>, b: seq<T>) returns (i: nat)
    requires |a| > 0 && multiset(a) == multiset(b)
    ensures i < |b| && b[i] == a[0] && multiset(a[1..]) == multiset(b[..i] + b[i + 1..])
  {
    assert a[0] in multiset(b);
    i :| i < |b| && b[i] == a[0];
    RemoveAt(b, i);
    RemoveAt(a, 0);
    assert a[..0] + a[0 + 1..] == a[1..];
    SameRest(multiset(a[1..]), multiset(b[..i] + b[i + 1..]), a[0]);
  }

  lemma SameRest<T>(a: multiset<T>, b: multiset<T>, x: T)
    requires a + multiset{x} == b + multiset{x}
    ensures a == b
  {
    assert a == (a + multiset{x}) - multiset{x} && b == (b + multiset{x}) - multiset{x};
  }

  /** A rearrangement keeps as many. */
  lemma {:induction false} KeepPermutes<T>(a: seq<T>, b: seq<T>, p: T -> bool)
    requires multiset(a) == multiset(b)
    ensures |Keep(a, p)| == |Keep(b, p)|
    decreases |a|
  {
    if |a| == 0 {
      assert |multiset(b)| == 0;
    } else {
      var i := RemoveHead(a, b);
      KeepPermutes(a[1..], b[..i] + b[i + 1..], p);
      KeepAppend(b[..i], b[i + 1..], p);
      KeepAppend(b[..i], b[i..], p);
      assert b == b[..i] + b[i..] && b[i..][1..] == b[i + 1..];
    }
  }

  /** Two lists without repeats of the same elements are rearrangements of each other. */
  lemma SameNamesPermute<T>(a: seq<T>, b: seq<T>)
    requires NoDuplicates(a) && NoDuplicates(b) && forall x :: x in a <==> x in b
    ensures multiset(a) == multiset(b)
  {
    NoDuplicatesByCount(a);
    NoDuplicatesByCount(b);
    forall x ensures multiset(a)[x] == multiset(b)[x] {
      assert multiset(a)[x] <= 1 && multiset(b)[x] <= 1;
      assert (x in a <==> x in multiset(a)) && (x in b <==> x in multiset(b));
    }
  }

  // ---- A set in insertion order. ----

  /** Add the elements of `more` that are not there yet. */
  function AddNew<T(==)>(ids: seq<T>, more: seq<T>): seq<T>
    decreases |more|
  {
    if |more| == 0 then ids
    else AddNew(if more[0] in ids then ids else ids + [more[0]], more[1..])
  }

  lemma {:induction false} AddNewAdds<T>(ids: seq<T>, more: seq<T>)
    ensures NoDuplicates(ids) ==> NoDuplicates(AddNew(ids, more))
    ensures forall x :: x in AddNew(ids, more) <==> x in ids || x in more
    decreases |more|
  {
    if |more| > 0 {
      AddNewAdds(if more[0] in ids then ids else ids + [more[0]], more[1..]);
      assert more == [more[0]] + more[1..];
    }
  }

  // ---- First occurrence by key. ----

  /** The elements whose key no earlier element has. */
  function FirstBy<T, K(==)>(xs: seq<T>, key: T -> K): seq<T> {
    if |xs| == 0 then []
    else
      var before, last := xs[..|xs| - 1], xs[|xs| - 1];
      FirstBy(before, key) + if Seen(before, key, key(last)) then [] else [last]
  }

  predicate Seen<T, K(==)>(xs: seq<T>, key: T -> K, k: K) {
    exists i :: 0 <= i < |xs| && key(xs[i]) == k
  }

  /** No key twice, every key there, and nothing that was not there. */
  lemma {:induction false} FirstByOnce<T, K>(xs: seq<T>, key: T -> K)
    ensures var r := FirstBy(xs, key);
            && (forall i, j :: 0 <= i < j < |r| ==> key(r[i]) != key(r[j]))
            && (forall x :: x in r ==> x in xs)
            && (forall i :: 0 <= i < |xs| ==> exists j :: 0 <= j < |r| && key(r[j]) == key(xs[i]))
  {
    if |xs| > 0 {
      var before, last := xs[..|xs| - 1], xs[|xs| - 1];
      FirstByOnce(before, key);
      var r0, r := FirstBy(before, key), FirstBy(xs, key);
      assert xs == before + [last];
      if Seen(before, key, key(last)) {
        assert r == r0;
      } else {
        assert r == r0 + [last];
        forall j | 0 <= j < |r0| ensures key(r0[j]) != key(last) {
          assert r0[j] in before;
        }
      }
      forall i | 0 <= i < |xs| ensures exists j :: 0 <= j < |r| && key(r[j]) == key(xs[i]) {
        if i < |before| {
          assert before[i] == xs[i];
          var j :| 0 <= j < |r0| && key(r0[j]) == key(before[i]);
          assert r[j] == r0[j];
        } else if r == r0 {
          var k :| 0 <= k < |before| && key(before[k]) == key(last);
          var j :| 0 <= j < |r0| && key(r0[j]) == key(before[k]);
        } else {
          assert r[|r0|] == last;
        }
      }
    }
  }

  /** Nothing before `xs[i]` has its key. */
  ghost predicate IsFirst<T, K>(xs: seq<T>, key: T -> K, i: int) {
    0 <= i < |xs| && !Seen(xs[..i], key, key(xs[i]))
  }

  lemma FirstOfLonger<T, K>(before: seq<T>, last: T, key: T -> K, i: int)
    ensures IsFirst(before + [last], key, i) <==>
              IsFirst(before, key, i) || (i == |before| && !Seen(before, key, key(last)))
  {
    var xs := before + [last];
    if 0 <= i <= |before| {
      assert xs[..i] == before[..i];
      assert before[..|before|] == before;
    }
  }

  /** Exactly the first elements of each key, in their order. */
  lemma {:induction false} FirstByFirsts<T, K>(xs: seq<T>, key: T -> K) returns (at: seq<int>)
    ensures |at| == |FirstBy(xs, key)|
    ensures forall k :: 0 <= k < |at| ==> IsFirst(xs, key, at[k]) && FirstBy(xs, key)[k] == xs[at[k]]
    ensures forall i, j :: 0 <= i < j < |at| ==> at[i] < at[j]
    ensures forall i :: IsFirst(xs, key, i) ==> i in at
  {
    at := [];
    if |xs| > 0 {
      var before, last := xs[..|xs| - 1], xs[|xs| - 1];
      var at0 := FirstByFirsts(before, key);
      assert xs == before + [last];
      at := if Seen(before, key, key(last)) then at0 else at0 + [|before|];
      forall k | 0 <= k < |at| ensures IsFirst(xs, key, at[k]) && FirstBy(xs, key)[k] == xs[at[k]] {
        FirstOfLonger(before, last, key, at[k]);
      }
      forall i | IsFirst(xs, key, i) ensures i in at {
        FirstOfLonger(before, last, key, i);
        if i == |before| {
          assert at[|at0|] == i;
        } else {
          assert i in at0;
        }
      }
    }
  }
}
