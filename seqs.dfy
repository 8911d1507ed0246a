/** Sequence helpers: list comprehensions, and the order-preserving de-duplication the program
    writes throughout as a loop over a `seen` set. */
module Seqs {

  predicate NoDup<T(==,!new)>(s: seq<T>) {
    forall i, j :: 0 <= i < j < |s| ==> s[i] != s[j]
  }

  /** `[f(x) for x in xs]` */
  function Map<A, B>(xs: seq<A>, f: A -> B): seq<B> {
    seq(|xs|, i requires 0 <= i < |xs| => f(xs[i]))
  }

  lemma MapCons<A, B>(x: A, xs: seq<A>, f: A -> B)
    ensures Map([x] + xs, f) == [f(x)] + Map(xs, f)
  {
    assert forall i :: 0 <= i < |xs| ==> ([x] + xs)[i + 1] == xs[i];
  }

  lemma MapSnoc<A, B>(xs: seq<A>, i: nat, f: A -> B)
    requires i < |xs|
    ensures Map(xs[..i + 1], f) == Map(xs[..i], f) + [f(xs[i])]
  {
  }

  lemma MapMembers<A, B>(xs: seq<A>, f: A -> B, y: B)
    ensures y in Map(xs, f) <==> exists x :: x in xs && f(x) == y
  {
    if y in Map(xs, f) {
      var i :| 0 <= i < |xs| && Map(xs, f)[i] == y;
      assert xs[i] in xs;
    }
    if x :| x in xs && f(x) == y {
      var i :| 0 <= i < |xs| && xs[i] == x;
      assert Map(xs, f)[i] == y;
    }
  }

  /** `[y for x in xs for y in f(x)]` */
  function FlatMap<A, B>(xs: seq<A>, f: A -> seq<B>): seq<B> {
    if xs == [] then [] else FlatMap(xs[..|xs| - 1], f) + f(xs[|xs| - 1])
  }

  lemma FlatMapSnoc<A, B>(xs: seq<A>, i: nat, f: A -> seq<B>)
    requires i < |xs|
    ensures FlatMap(xs[..i + 1], f) == FlatMap(xs[..i], f) + f(xs[i])
  {
    assert xs[..i + 1][..i] == xs[..i];
  }

  lemma {:induction false} FlatMapMembers<A, B>(xs: seq<A>, f: A -> seq<B>, y: B)
    ensures y in FlatMap(xs, f) <==> exists x :: x in xs && y in f(x)
    decreases |xs|
  {
    if xs != [] {
      var init, last := xs[..|xs| - 1], xs[|xs| - 1];
      FlatMapMembers(init, f, y);
      assert xs == init + [last];
      if y in FlatMap(init, f) {
        var w :| w in init && y in f(w);
        assert w in xs;
      }
    }
  }

  /** Every element satisfies `p`. */
  predicate All<T>(s: seq<T>, p: T -> bool) {
    forall i :: 0 <= i < |s| ==> p(s[i])
  }

  lemma AllSnoc<T>(s: seq<T>, p: T -> bool)
    requires s != []
    ensures All(s, p) <==> All(s[..|s| - 1], p) && p(s[|s| - 1])
  {
    var n := |s| - 1;
    assert forall i :: 0 <= i < n ==> s[..n][i] == s[i];
  }

  /** No two elements have the same `key`. */
  predicate DistinctBy<T, K(==)>(s: seq<T>, key: T -> K) {
    forall i, j :: 0 <= i < j < |s| ==> key(s[i]) != key(s[j])
  }

  /** The last element's key differs from every earlier element's. */
  predicate LastKeyNew<T, K(==)>(s: seq<T>, key: T -> K) {
    s != [] && forall i :: 0 <= i < |s| - 1 ==> key(s[i]) != key(s[|s| - 1])
  }

  lemma DistinctBySnoc<T, K>(s: seq<T>, key: T -> K)
    requires s != []
    ensures DistinctBy(s, key) <==> DistinctBy(s[..|s| - 1], key) && LastKeyNew(s, key)
  {
    var n := |s| - 1;
    assert forall i :: 0 <= i < n ==> s[..n][i] == s[i];
  }

  /** `acc` followed by each element of `vals` that is not already present, in order: the
      loop over `vals` that appends an element and adds it to a `seen` set when it is new. */
  function AppendNew<T(==,!new)>(acc: seq<T>, vals: seq<T>): (r: seq<T>)
    ensures |acc| <= |r| && r[..|acc|] == acc
    ensures NoDup(acc) ==> NoDup(r)
    ensures forall x :: x in r <==> x in acc || x in vals
    decreases |vals|
  {
    if vals == [] then acc
    else
      var prev := AppendNew(acc, vals[..|vals| - 1]);
      var v := vals[|vals| - 1];
      assert forall x :: x in vals <==> x in vals[..|vals| - 1] || x == v by {
        assert vals == vals[..|vals| - 1] + [v];
      }
      if v in prev then prev else prev + [v]
  }

  /** First occurrences of the elements of `s`, in order. */
  function Dedup<T(==,!new)>(s: seq<T>): (r: seq<T>)
    ensures NoDup(r)
    ensures forall x :: x in r <==> x in s
  {
    AppendNew([], s)
  }

  lemma {:induction false} DedupSnoc<T(!new)>(s: seq<T>, v: T)
    ensures Dedup(s + [v]) == if v in s then Dedup(s) else Dedup(s) + [v]
  {
    assert (s + [v])[..|s + [v]| - 1] == s;
  }

  /** Appending the new elements of `b` to a duplicate-free `a` is de-duplicating `a + b`. */
  lemma {:induction false} AppendNewIsDedup<T(!new)>(a: seq<T>, b: seq<T>)
    requires NoDup(a)
    ensures AppendNew(a, b) == Dedup(a + b)
    decreases |b|
  {
    if b == [] {
      assert a + b == a;
      DedupOfNoDup(a);
    } else {
      var b' := b[..|b| - 1];
      var v := b[|b| - 1];
      AppendNewIsDedup(a, b');
      assert a + b == (a + b') + [v] by { assert b == b' + [v]; }
      DedupSnoc(a + b', v);
    }
  }

  /** De-duplicating a duplicate-free sequence changes nothing. */
  lemma {:induction false} DedupOfNoDup<T(!new)>(s: seq<T>)
    requires NoDup(s)
    ensures Dedup(s) == s
    decreases |s|
  {
    if s != [] {
      var p := s[..|s| - 1];
      assert NoDup(p);
      DedupOfNoDup(p);
      assert s[|s| - 1] !in p;
      DedupSnoc(p, s[|s| - 1]);
      assert p + [s[|s| - 1]] == s;
    }
  }

  lemma {:induction false} DedupAppend<T(!new)>(a: seq<T>, b: seq<T>)
    ensures Dedup(a + b) == AppendNew(Dedup(a), b)
    decreases |b|
  {
    if b == [] {
      assert a + b == a;
    } else {
      var b' := b[..|b| - 1];
      var v := b[|b| - 1];
      DedupAppend(a, b');
      assert a + b == (a + b') + [v] by { assert b == b' + [v]; }
      DedupSnoc(a + b', v);
    }
  }
}
