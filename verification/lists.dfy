/** List helpers shared by the listing and analytics components: order-
    preserving filtering (`Array.prototype.filter`), counting and summing. */
module Lists {

  import opened Wrappers

  /** `sub` is `xs` with some entries left out, the rest in their order. */
  ghost predicate IsSubsequence<T>(sub: seq<T>, xs: seq<T>)
    decreases |xs|
  {
    if sub == [] then true
    else if xs == [] then false
    else (sub[0] == xs[0] && IsSubsequence(sub[1..], xs[1..])) || IsSubsequence(sub, xs[1..])
  }

  lemma {:induction false} SubsequenceOfSelf<T>(xs: seq<T>)
    ensures IsSubsequence(xs, xs)
  {
    if xs != [] {
      SubsequenceOfSelf(xs[1..]);
    }
  }

  /** `xs.filter(p)`. */
  function Filter<T(!new)>(xs: seq<T>, p: T -> bool): (r: seq<T>)
    ensures |r| <= |xs|
    ensures IsSubsequence(r, xs)
    ensures forall i :: 0 <= i < |r| ==> p(r[i])
    ensures forall x :: x in r <==> x in xs && p(x)
    ensures (forall i :: 0 <= i < |xs| ==> p(xs[i])) ==> r == xs
  {
    if xs == [] then []
    else
      var rest := Filter(xs[1..], p);
      assert forall x :: x in xs <==> x == xs[0] || x in xs[1..];
      if p(xs[0]) then
        assert ([xs[0]] + rest)[1..] == rest;
        [xs[0]] + rest
      else rest
  }

  /** Filtering a list with a known head. */
  lemma FilterCons<T(!new)>(a: T, ys: seq<T>, p: T -> bool)
    ensures Filter([a] + ys, p) == (if p(a) then [a] else []) + Filter(ys, p)
  {
    assert ([a] + ys)[1..] == ys;
  }

  /** `r` holds the present values of `f` over `xs`, one for each entry. */
  ghost predicate MapsOnto<A, B>(xs: seq<A>, f: A -> Option<B>, r: seq<B>) {
    |r| == |xs| && forall i :: 0 <= i < |r| ==> f(xs[i]) == Some(r[i])
  }

  /** One step of mapping over the entries that pass `p`, when `f` has a
      value exactly on those entries. */
  lemma FilterMapStep<A(!new), B>(xs: seq<A>, p: A -> bool, f: A -> Option<B>, rest: seq<B>, r: seq<B>)
    requires xs != [] && (f(xs[0]).Some? <==> p(xs[0]))
    requires MapsOnto(Filter(xs[1..], p), f, rest)
    requires r == if f(xs[0]).Some? then [f(xs[0]).value] + rest else rest
    ensures MapsOnto(Filter(xs, p), f, r)
  {
    assert xs == [xs[0]] + xs[1..];
    FilterCons(xs[0], xs[1..], p);
    if p(xs[0]) {
      MapsOntoCons(xs[0], Filter(xs[1..], p), f, rest);
    }
  }

  lemma MapsOntoCons<A, B>(a: A, xs: seq<A>, f: A -> Option<B>, rest: seq<B>)
    requires MapsOnto(xs, f, rest) && f(a).Some?
    ensures MapsOnto([a] + xs, f, [f(a).value] + rest)
  {
    var ys, r := [a] + xs, [f(a).value] + rest;
    forall i | 0 <= i < |r| ensures f(ys[i]) == Some(r[i]) {
      if i > 0 {
        assert ys[i] == xs[i - 1] && r[i] == rest[i - 1];
      }
    }
  }

  /** Number of entries satisfying `p`. */
  function Count<T(!new)>(xs: seq<T>, p: T -> bool): (n: nat)
    ensures n <= |xs|
    ensures n == |Filter(xs, p)|
  {
    if xs == [] then 0 else (if p(xs[0]) then 1 else 0) + Count(xs[1..], p)
  }

  /** Splitting a list splits the count. */
  lemma {:induction false} CountAppend<T(!new)>(xs: seq<T>, ys: seq<T>, p: T -> bool)
    ensures Count(xs + ys, p) == Count(xs, p) + Count(ys, p)
  {
    if xs != [] {
      assert (xs + ys)[1..] == xs[1..] + ys;
      CountAppend(xs[1..], ys, p);
    } else {
      assert xs + ys == ys;
    }
  }

  /** Entries can satisfy at most one of two exclusive tests. */
  lemma {:induction false} CountDisjoint<T(!new)>(xs: seq<T>, p: T -> bool, q: T -> bool, pq: T -> bool)
    requires forall x :: !(p(x) && q(x))
    requires forall x :: pq(x) == (p(x) || q(x))
    ensures Count(xs, p) + Count(xs, q) == Count(xs, pq)
  {
    if xs != [] {
      CountDisjoint(xs[1..], p, q, pq);
    }
  }

  /** Sum of `f` over the entries. */
  function SumOf<T>(xs: seq<T>, f: T -> int): int {
    if xs == [] then 0 else f(xs[0]) + SumOf(xs[1..], f)
  }

  lemma {:induction false} SumAppend<T>(xs: seq<T>, ys: seq<T>, f: T -> int)
    ensures SumOf(xs + ys, f) == SumOf(xs, f) + SumOf(ys, f)
  {
    if xs != [] {
      assert (xs + ys)[1..] == xs[1..] + ys;
      SumAppend(xs[1..], ys, f);
    } else {
      assert xs + ys == ys;
    }
  }

  /** Sums of two functions add up. */
  lemma {:induction false} SumLinear<T>(xs: seq<T>, f: T -> int, g: T -> int, h: T -> int)
    requires forall x :: h(x) == f(x) + g(x)
    ensures SumOf(xs, h) == SumOf(xs, f) + SumOf(xs, g)
  {
    if xs != [] {
      SumLinear(xs[1..], f, g, h);
    }
  }

  /** A sum of terms that are each at least zero is at least zero. */
  lemma {:induction false} SumNonNegative<T>(xs: seq<T>, f: T -> int)
    requires forall i :: 0 <= i < |xs| ==> f(xs[i]) >= 0
    ensures SumOf(xs, f) >= 0
  {
    if xs != [] {
      SumNonNegative(xs[1..], f);
    }
  }

  /** A running sum over a growing prefix, as a `forEach` keeps it. */
  lemma SumStep<T>(xs: seq<T>, i: nat, f: T -> int)
    requires i < |xs|
    ensures SumOf(xs[..i + 1], f) == SumOf(xs[..i], f) + f(xs[i])
  {
    assert xs[..i + 1] == xs[..i] + [xs[i]];
    SumAppend(xs[..i], [xs[i]], f);
    assert [xs[i]][1..] == [];
  }

  /** A running count over a growing prefix. */
  lemma CountStep<T(!new)>(xs: seq<T>, i: nat, p: T -> bool)
    requires i < |xs|
    ensures Count(xs[..i + 1], p) == Count(xs[..i], p) + (if p(xs[i]) then 1 else 0)
  {
    assert xs[..i + 1] == xs[..i] + [xs[i]];
    CountAppend(xs[..i], [xs[i]], p);
    assert [xs[i]][1..] == [];
  }

  /** A weaker test counts at least as many entries. */
  lemma {:induction false} CountImplies<T(!new)>(xs: seq<T>, p: T -> bool, q: T -> bool)
    requires forall i :: 0 <= i < |xs| && p(xs[i]) ==> q(xs[i])
    ensures Count(xs, p) <= Count(xs, q)
  {
    if xs != [] {
      CountImplies(xs[1..], p, q);
    }
  }

  /** Tests that agree on every entry count the same entries. */
  lemma {:induction false} CountSame<T(!new)>(xs: seq<T>, p: T -> bool, q: T -> bool)
    requires forall i :: 0 <= i < |xs| ==> p(xs[i]) == q(xs[i])
    ensures Count(xs, p) == Count(xs, q)
  {
    if xs != [] {
      CountSame(xs[1..], p, q);
    }
  }

  /** Summing a non-negative quantity over the entries a weaker test
      keeps gives at least as much. */
  lemma {:induction false} SumFilterMonotone<T(!new)>(xs: seq<T>, p: T -> bool, q: T -> bool, f: T -> int)
    requires forall i :: 0 <= i < |xs| && p(xs[i]) ==> q(xs[i])
    requires forall i :: 0 <= i < |xs| ==> f(xs[i]) >= 0
    ensures SumOf(Filter(xs, p), f) <= SumOf(Filter(xs, q), f)
  {
    if xs != [] {
      var x := xs[0];
      var restP := Filter(xs[1..], p);
      var restQ := Filter(xs[1..], q);
      SumFilterMonotone(xs[1..], p, q, f);
      assert ([x] + restP)[1..] == restP;
      assert ([x] + restQ)[1..] == restQ;
      if q(x) && !p(x) {
        SumNonNegative(Filter(xs[1..], q), f);
      }
    }
  }

  /** Add the entries not seen yet, in order: a `Set` filled by `add`,
      read back in insertion order. */
  function AddNew<T(==,!new)>(seen: seq<T>, names: seq<T>): (r: seq<T>)
    requires forall i, j :: 0 <= i < j < |seen| ==> seen[i] != seen[j]
    ensures forall i, j :: 0 <= i < j < |r| ==> r[i] != r[j]
    ensures forall x :: x in r <==> x in seen || x in names
    decreases |names|
  {
    if names == [] then seen
    else if names[0] in seen then AddNew(seen, names[1..])
    else AddNew(seen + [names[0]], names[1..])
  }

  /** Keeping the entries that pass `p` and counting those that pass `q`
      counts the entries passing both. */
  lemma {:induction false} FilterThenCount<T(!new)>(xs: seq<T>, p: T -> bool, q: T -> bool, pq: T -> bool)
    requires forall x :: pq(x) == (p(x) && q(x))
    ensures |Filter(Filter(xs, p), q)| == Count(xs, pq)
  {
    if xs != [] {
      FilterThenCount(xs[1..], p, q, pq);
      var rest := Filter(xs[1..], p);
      assert ([xs[0]] + rest)[1..] == rest;
    }
  }

  /** The first `n` entries (`slice(0, n)`). */
  function Take<T>(xs: seq<T>, n: nat): (r: seq<T>)
    ensures |r| == if n < |xs| then n else |xs|
    ensures r == xs[..|r|]
  {
    if n < |xs| then xs[..n] else xs
  }
}
