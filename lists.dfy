/** Array operations shared by the reducers and the screens:
    `map` that rewrites the elements carrying one id, `filter` and `find`. */
module Lists {
  import opened Base

  /** `xs.map(x => key(x) === id ? f(x) : x)`. */
  function MapWhere<T>(xs: seq<T>, key: T -> string, id: string, f: T -> T): (r: seq<T>)
    ensures |r| == |xs|
    ensures forall i :: 0 <= i < |xs| && key(xs[i]) == id ==> r[i] == f(xs[i])
    ensures forall i :: 0 <= i < |xs| && key(xs[i]) != id ==> r[i] == xs[i]
  {
    if xs == [] then []
    else [if key(xs[0]) == id then f(xs[0]) else xs[0]] + MapWhere(xs[1..], key, id, f)
  }

  /** `xs.map(f)`. */
  function Map<T, U>(xs: seq<T>, f: T -> U): (r: seq<U>)
    ensures |r| == |xs|
    ensures forall i :: 0 <= i < |xs| ==> r[i] == f(xs[i])
  {
    if xs == [] then [] else [f(xs[0])] + Map(xs[1..], f)
  }

  /** `xs.filter(p)`. */
  function Filter<T>(xs: seq<T>, p: T -> bool): (r: seq<T>)
    ensures |r| <= |xs|
    ensures forall i :: 0 <= i < |r| ==> p(r[i])
  {
    if xs == [] then []
    else if p(xs[0]) then [xs[0]] + Filter(xs[1..], p)
    else Filter(xs[1..], p)
  }

  lemma {:induction false} FilterAll<T>(xs: seq<T>, p: T -> bool)
    requires forall i :: 0 <= i < |xs| ==> p(xs[i])
    ensures Filter(xs, p) == xs
  {
    if xs != [] {
      FilterAll(xs[1..], p);
    }
  }

  /** The filter is empty exactly when no element passes. */
  lemma {:induction false} FilterEmpty<T>(xs: seq<T>, p: T -> bool)
    ensures Filter(xs, p) == [] <==> forall i :: 0 <= i < |xs| ==> !p(xs[i])
  {
    if xs != [] {
      FilterEmpty(xs[1..], p);
      assert forall i :: 1 <= i < |xs| ==> xs[i] == xs[1..][i - 1];
    }
  }

  /** Filtering distributes over concatenation. */
  lemma {:induction false} FilterConcat<T>(xs: seq<T>, ys: seq<T>, p: T -> bool)
    ensures Filter(xs + ys, p) == Filter(xs, p) + Filter(ys, p)
  {
    if xs == [] {
      assert xs + ys == ys;
    } else {
      FilterConcat(xs[1..], ys, p);
      var zs := xs + ys;
      assert zs[0] == xs[0] && zs[1..] == xs[1..] + ys;
      if p(xs[0]) {
        calc {
          Filter(zs, p);
          [xs[0]] + Filter(xs[1..] + ys, p);
          [xs[0]] + (Filter(xs[1..], p) + Filter(ys, p));
          ([xs[0]] + Filter(xs[1..], p)) + Filter(ys, p);
        }
      }
    }
  }

  /** Mapping a concatenation maps each part. */
  lemma MapConcat<T, U>(xs: seq<T>, ys: seq<T>, f: T -> U)
    ensures Map(xs + ys, f) == Map(xs, f) + Map(ys, f)
  {
    var zs := xs + ys;
    var l, a, b := Map(zs, f), Map(xs, f), Map(ys, f);
    forall i | 0 <= i < |l|
      ensures l[i] == (a + b)[i]
    {
      if i < |xs| {
        assert zs[i] == xs[i];
      } else {
        assert zs[i] == ys[i - |xs|];
        assert (a + b)[i] == b[i - |xs|];
      }
    }
    assert l == a + b;
  }

  /** Element counts: filtering by p and by not-p splits every element count. */
  lemma {:induction false} FilterPartition<T>(xs: seq<T>, p: T -> bool)
    ensures multiset(Filter(xs, p)) + multiset(Filter(xs, x => !p(x))) == multiset(xs)
  {
    if xs != [] {
      FilterPartition(xs[1..], p);
      assert xs == [xs[0]] + xs[1..];
    }
  }

  /** Filtering keeps every copy of an element that passes and none of one
      that does not. */
  lemma {:induction false} FilterCount<T>(xs: seq<T>, p: T -> bool, x: T)
    ensures multiset(Filter(xs, p))[x] == if p(x) then multiset(xs)[x] else 0
  {
    if xs != [] {
      FilterCount(xs[1..], p, x);
      assert xs == [xs[0]] + xs[1..];
    }
  }

  /** Filtering by a test and by its negation splits the length. */
  lemma {:induction false} FilterComplement<T>(xs: seq<T>, p: T -> bool, q: T -> bool)
    requires forall x :: q(x) == !p(x)
    ensures |Filter(xs, p)| + |Filter(xs, q)| == |xs|
  {
    if xs != [] {
      FilterComplement(xs[1..], p, q);
    }
  }

  /** `xs.find(p)`: the first element that passes, if any. */
  function Find<T>(xs: seq<T>, p: T -> bool): (r: Option<T>)
    ensures r.Some? ==> r.value in xs && p(r.value)
  {
    if xs == [] then None
    else if p(xs[0]) then Some(xs[0])
    else Find(xs[1..], p)
  }

  /** The search finds nothing only when nothing passes, and otherwise
      returns the element at a position before which nothing passes. */
  lemma {:induction false} FindFirst<T>(xs: seq<T>, p: T -> bool)
    ensures Find(xs, p).None? <==> forall i :: 0 <= i < |xs| ==> !p(xs[i])
    ensures Find(xs, p).Some? ==>
      exists i :: 0 <= i < |xs| && xs[i] == Find(xs, p).value && forall k :: 0 <= k < i ==> !p(xs[k])
  {
    if xs != [] && !p(xs[0]) {
      var rest := xs[1..];
      FindFirst(rest, p);
      assert forall i :: 1 <= i < |xs| ==> xs[i] == rest[i - 1];
      if Find(rest, p).Some? {
        var i :| 0 <= i < |rest| && rest[i] == Find(rest, p).value && forall k :: 0 <= k < i ==> !p(rest[k]);
        assert xs[i + 1] == rest[i];
      }
    } else if xs != [] {
      assert xs[0] == Find(xs, p).value;
    }
  }
}
