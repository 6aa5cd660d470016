/** Insertion-ordered sets of strings, as a JavaScript Set or Map keeps its keys, and reorderings. */
module OrderedSets {

  ghost predicate Unique(names: seq<string>) {
    forall i, j :: 0 <= i < j < |names| ==> names[i] != names[j]
  }

  /** Insertion order without repeats. */
  function Distinct(names: seq<string>): (d: seq<string>)
    ensures forall x :: x in d <==> x in names
    ensures Unique(d)
  {
    if names == [] then []
    else
      var init, last := Distinct(names[..|names| - 1]), names[|names| - 1];
      assert names == names[..|names| - 1] + [last];
      if last in init then init else init + [last]
  }

  // ---- parts of a list that keep its order ----

  /** The k-th element of r is the at[k]-th of xs, with the places in order. */
  ghost predicate Places<T>(at: seq<nat>, xs: seq<T>, r: seq<T>) {
    && |at| == |r|
    && (forall k :: 0 <= k < |at| ==> at[k] < |xs| && r[k] == xs[at[k]])
    && (forall k, l :: 0 <= k < l < |at| ==> at[k] < at[l])
  }

  /** The places after one more element in front. */
  function Shifted(at: seq<nat>, keep: bool): (r: seq<nat>)
    ensures |r| == |at| + if keep then 1 else 0
    ensures forall k :: 0 <= k < |r| ==> r[k] == if !keep then at[k] + 1 else if k == 0 then 0 else at[k - 1] + 1
  {
    (if keep then [0] else []) + seq(|at|, k requires 0 <= k < |at| => at[k] + 1)
  }

  lemma PlacesInFront<T>(at: seq<nat>, xs: seq<T>, r: seq<T>, x: T, keep: bool)
    requires Places(at, xs, r)
    ensures Places(Shifted(at, keep), [x] + xs, if keep then [x] + r else r)
  {
  }

  lemma PlacesBehind<T>(at: seq<nat>, xs: seq<T>, r: seq<T>, x: T, keep: bool)
    requires Places(at, xs, r)
    ensures Places(if keep then at + [|xs|] else at, xs + [x], if keep then r + [x] else r)
  {
  }

  predicate First(names: seq<string>, i: nat)
    requires i < |names|
  {
    names[i] !in names[..i]
  }

  /** The distinct names are the names at their first occurrences, in order. */
  lemma {:induction false} DistinctInOrder(names: seq<string>) returns (at: seq<nat>)
    ensures Places(at, names, Distinct(names))
    ensures forall k :: 0 <= k < |at| ==> at[k] < |names| && First(names, at[k])
  {
    at := [];
    if names != [] {
      hide Places, First, Distinct;
      var init, last := names[..|names| - 1], names[|names| - 1];
      assert names == init + [last];
      var before := DistinctInOrder(init);
      DistinctAppend(init, last);
      PlacesBehind(before, init, Distinct(init), last, last !in Distinct(init));
      FirstStays(init, last, before, Distinct(init));
      at := if last !in Distinct(init) then before + [|init|] else before;
    }
  }

  lemma FirstStays(init: seq<string>, last: string, at: seq<nat>, d: seq<string>)
    requires Places(at, init, d) && forall k :: 0 <= k < |at| ==> at[k] < |init| && First(init, at[k])
    requires forall x :: x in d <==> x in init
    ensures forall k :: 0 <= k < |at| ==> at[k] < |init| && First(init + [last], at[k])
    ensures last !in d ==> First(init + [last], |init|)
  {
    var names := init + [last];
    assert names[..|init|] == init;
    forall k | 0 <= k < |at| ensures First(names, at[k]) {
      assert First(init, at[k]);
      assert names[..at[k]] == init[..at[k]];
    }
  }

  lemma DistinctAppend(names: seq<string>, last: string)
    ensures Distinct(names + [last]) == if last in Distinct(names) then Distinct(names) else Distinct(names) + [last]
    ensures Distinct([]) == []
  {
    assert (names + [last])[..|names|] == names;
  }

  lemma {:induction false} DistinctExtends(names: seq<string>, more: seq<string>)
    requires Unique(more) && forall x :: x in more ==> x !in names
    ensures Distinct(names + more) == Distinct(names) + more
  {
    hide Distinct;
    if more == [] {
      assert names + more == names;
      assert Distinct(names) + more == Distinct(names);
    } else {
      var init, last := more[..|more| - 1], more[|more| - 1];
      assert more == init + [last];
      DistinctExtends(names, init);
      assert names + more == (names + init) + [last];
      assert last !in init && last !in names;
      DistinctAppend(names + init, last);
      assert Distinct(names) + more == Distinct(names) + init + [last];
    }
  }

  /** Two duplicate-free lists of the same strings are reorderings of each other. */
  lemma UniquePermutes(a: seq<string>, b: seq<string>)
    requires Unique(a) && Unique(b) && forall x :: x in a <==> x in b
    ensures multiset(a) == multiset(b)
  {
    forall x ensures multiset(a)[x] == multiset(b)[x] {
      CountInUnique(a, x);
      CountInUnique(b, x);
    }
  }

  lemma {:induction false} CountInUnique(a: seq<string>, x: string)
    requires Unique(a)
    ensures multiset(a)[x] == if x in a then 1 else 0
  {
    if a != [] {
      var init, last := a[..|a| - 1], a[|a| - 1];
      assert a == init + [last];
      CountInUnique(init, x);
      assert last !in init;
    }
  }

  lemma RemoveOne<T>(b: seq<T>, i: nat)
    requires i < |b|
    ensures multiset(b) == multiset(b[..i] + b[i + 1..]) + multiset{b[i]}
  {
    var before, after := b[..i], b[i + 1..];
    assert b == before + ([b[i]] + after);
    assert multiset([b[i]] + after) == multiset{b[i]} + multiset(after);
  }

  /** The last element of one list can be taken out of a reordering of it. */
  lemma TakeOut<T>(a: seq<T>, b: seq<T>) returns (i: nat)
    requires a != [] && multiset(a) == multiset(b)
    ensures i < |b| && b[i] == a[|a| - 1]
    ensures multiset(a[..|a| - 1]) == multiset(b[..i] + b[i + 1..])
  {
    assert a[|a| - 1] in multiset(b);
    i :| 0 <= i < |b| && b[i] == a[|a| - 1];
    RemoveOne(b, i);
    RemoveOne(a, |a| - 1);
    assert a[..|a| - 1] + a[|a| - 1 + 1..] == a[..|a| - 1];
    CancelOne(multiset(a[..|a| - 1]), multiset(b[..i] + b[i + 1..]), b[i]);
  }

  lemma CancelOne<T>(m: multiset<T>, n: multiset<T>, x: T)
    requires m + multiset{x} == n + multiset{x}
    ensures m == n
  {
    assert m == m + multiset{x} - multiset{x};
  }
}
