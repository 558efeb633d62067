/**
 * Sequence helpers standing in for the array methods the pages use:
 * `filter`, `slice(0, k)` and the "first k plus N more" preview.
 */
module Lists {

  /** `a` can be obtained from `b` by deleting elements: order is kept. */
  predicate Subseq<T(==)>(a: seq<T>, b: seq<T>)
    decreases |b|
  {
    if a == [] then true
    else if b == [] then false
    else if a[0] == b[0] then Subseq(a[1..], b[1..])
    else Subseq(a, b[1..])
  }

  lemma {:induction false} SubseqRefl<T>(a: seq<T>)
    ensures Subseq(a, a)
    decreases |a|
  {
    if a != [] {
      SubseqRefl(a[1..]);
    }
  }

  /** `xs.filter(p)`: exactly the elements satisfying `p`, in their original order,
      each as often as it occurs in `xs`. */
  function Filter<T(==,!new)>(xs: seq<T>, p: T -> bool): (r: seq<T>)
    ensures |r| <= |xs|
    ensures forall i :: 0 <= i < |r| ==> r[i] in xs && p(r[i])
    ensures forall i :: 0 <= i < |xs| && p(xs[i]) ==> xs[i] in r
    ensures forall x :: multiset(r)[x] == if p(x) then multiset(xs)[x] else 0
    ensures Subseq(r, xs)
    decreases |xs|
  {
    if xs == [] then []
    else
      var rest := Filter(xs[1..], p);
      FilterCount(xs, p, rest);
      if p(xs[0]) then
        assert ([xs[0]] + rest)[1..] == rest;
        [xs[0]] + rest
      else
        SubseqSkip(rest, xs);
        rest
  }

  lemma {:induction false} SubseqSkip<T>(a: seq<T>, b: seq<T>)
    requires b != [] && Subseq(a, b[1..])
    ensures Subseq(a, b)
    decreases |a| + |b|
  {
    if a != [] && a[0] == b[0] {
      SubseqTail(a, b[1..]);
    }
  }

  lemma {:induction false} SubseqTail<T>(a: seq<T>, b: seq<T>)
    requires a != [] && Subseq(a, b)
    ensures Subseq(a[1..], b)
    decreases |a| + |b|
  {
    if a[0] == b[0] {
      SubseqSkip(a[1..], b);
    } else {
      SubseqTail(a, b[1..]);
      SubseqSkip(a[1..], b);
    }
  }

  /** Every element is kept exactly when all of them satisfy `p`. */
  lemma {:induction false} FilterAll<T(!new)>(xs: seq<T>, p: T -> bool)
    requires forall x :: x in xs ==> p(x)
    ensures Filter(xs, p) == xs
    decreases |xs|
  {
    if xs != [] {
      FilterAll(xs[1..], p);
    }
  }

  /** `xs.slice(0, k)`: the first `k` elements, or all of them when fewer. */
  function Take<T>(xs: seq<T>, k: nat): (r: seq<T>)
    ensures |r| == if |xs| < k then |xs| else k
    ensures r <= xs
  {
    if |xs| <= k then xs else xs[..k]
  }

  /** `xs.filter(x => x !== y)`: every occurrence of `y` removed, every other
      element kept as often as it occurs, in order. */
  function RemoveAll<T(==)>(xs: seq<T>, y: T): (r: seq<T>)
    ensures y !in r
    ensures forall i :: 0 <= i < |r| ==> r[i] in xs
    ensures forall i :: 0 <= i < |xs| && xs[i] != y ==> xs[i] in r
    ensures multiset(r) == multiset(xs)[y := 0]
    ensures Subseq(r, xs)
    decreases |xs|
  {
    if xs == [] then []
    else
      var rest := RemoveAll(xs[1..], y);
      RemoveCount(xs, y, rest);
      if xs[0] == y then
        SubseqSkip(rest, xs);
        CountedMembers(xs, y, rest);
        rest
      else
        assert ([xs[0]] + rest)[1..] == rest;
        CountedMembers(xs, y, [xs[0]] + rest);
        [xs[0]] + rest
  }

  /** One step of `Filter`'s count: the head is kept exactly when it satisfies `p`. */
  lemma FilterCount<T(!new)>(xs: seq<T>, p: T -> bool, rest: seq<T>)
    requires xs != []
    requires forall x :: multiset(rest)[x] == if p(x) then multiset(xs[1..])[x] else 0
    ensures p(xs[0]) ==> forall x :: multiset([xs[0]] + rest)[x] == if p(x) then multiset(xs)[x] else 0
    ensures !p(xs[0]) ==> forall x :: multiset(rest)[x] == if p(x) then multiset(xs)[x] else 0
  {
    assert xs == [xs[0]] + xs[1..];
    assert multiset(xs) == multiset{xs[0]} + multiset(xs[1..]);
    assert multiset([xs[0]] + rest) == multiset{xs[0]} + multiset(rest);
  }

  /** One step of `RemoveAll`'s count: the head is dropped exactly when it is `y`. */
  lemma RemoveCount<T>(xs: seq<T>, y: T, rest: seq<T>)
    requires xs != []
    requires multiset(rest) == multiset(xs[1..])[y := 0]
    ensures xs[0] == y ==> multiset(rest) == multiset(xs)[y := 0]
    ensures xs[0] != y ==> multiset([xs[0]] + rest) == multiset(xs)[y := 0]
  {
    assert xs == [xs[0]] + xs[1..];
    assert multiset(xs) == multiset{xs[0]} + multiset(xs[1..]);
    assert multiset([xs[0]] + rest) == multiset{xs[0]} + multiset(rest);
  }

  /** What the count of a removal says about membership. */
  lemma CountedMembers<T>(xs: seq<T>, y: T, r: seq<T>)
    requires multiset(r) == multiset(xs)[y := 0]
    ensures y !in r
    ensures forall i :: 0 <= i < |r| ==> r[i] in xs
    ensures forall i :: 0 <= i < |xs| && xs[i] != y ==> xs[i] in r
  {
    assert multiset(r)[y] == 0;
    forall i | 0 <= i < |r|
      ensures r[i] in xs
    {
      assert r[i] in multiset(r);
    }
    forall i | 0 <= i < |xs| && xs[i] != y
      ensures xs[i] in r
    {
      assert xs[i] in multiset(xs);
      assert multiset(r)[xs[i]] == multiset(xs)[xs[i]];
    }
  }

  /** Removing a value that does not occur changes nothing. */
  lemma {:induction false} RemoveAbsent<T>(xs: seq<T>, y: T)
    requires y !in xs
    ensures RemoveAll(xs, y) == xs
    decreases |xs|
  {
    if xs != [] {
      RemoveAbsent(xs[1..], y);
    }
  }

  /** Removing `y` from a list with `y` appended is removing it from the list. */
  lemma {:induction false} RemoveAppended<T>(xs: seq<T>, y: T)
    ensures RemoveAll(xs + [y], y) == RemoveAll(xs, y)
    decreases |xs|
  {
    if xs == [] {
      assert [y][1..] == [];
    } else {
      assert (xs + [y])[1..] == xs[1..] + [y];
      RemoveAppended(xs[1..], y);
    }
  }

  /** The chips a list renders: the first `k` items, and the number of items
      hidden behind a "+N more" chip (0 when there is no such chip). */
  datatype Preview<T> = Preview(shown: seq<T>, more: nat)

  /** `xs.slice(0, k)` followed by `+{xs.length - k} more` when `xs.length > k`. */
  function PreviewOf<T>(xs: seq<T>, k: nat): (r: Preview<T>)
    ensures r.shown <= xs
    ensures |r.shown| == if |xs| < k then |xs| else k
    ensures |r.shown| + r.more == |xs|
    ensures r.more > 0 <==> |xs| > k
  {
    var shown := Take(xs, k);
    Preview(shown, if |xs| > k then |xs| - k else 0)
  }

  /** One more item behind a full preview leaves the chips as they were and
      raises the "+N more" count by one. */
  lemma PreviewGrows<T>(xs: seq<T>, x: T, k: nat)
    requires |xs| >= k
    ensures PreviewOf(xs + [x], k).shown == PreviewOf(xs, k).shown
    ensures PreviewOf(xs + [x], k).more == PreviewOf(xs, k).more + 1
  {
    assert (xs + [x])[..k] == xs[..k];
  }
}
