/**
 * `Array.prototype.filter`, the `.length` of a filtered array, and
 * `Array.prototype.sort` with a comparator, over Dafny sequences.
 */
module Seqs {

  /** `le` is total and transitive: what a sort comparator must be. */
  ghost predicate TotalPreorder<T(!new)>(le: (T, T) -> bool) {
    && (forall a, b :: le(a, b) || le(b, a))
    && (forall a, b, c :: le(a, b) && le(b, c) ==> le(a, c))
  }

  /** Every element sorts no later than each element after it. */
  predicate SortedBy<T>(xs: seq<T>, le: (T, T) -> bool) {
    forall i, j :: 0 <= i < j < |xs| ==> le(xs[i], xs[j])
  }

  /**
   * `xs.filter(p)`: the elements satisfying `p`, in their original order, each
   * kept as often as it occurs.
   */
  function Filter<T(!new)>(xs: seq<T>, p: T -> bool): (r: seq<T>)
    ensures |r| <= |xs|
    ensures forall x :: multiset(r)[x] == if p(x) then multiset(xs)[x] else 0
    ensures forall i :: 0 <= i < |r| ==> p(r[i])
  {
    if xs == [] then []
    else
      var rest := Filter(xs[1..], p);
      assert xs == [xs[0]] + xs[1..];
      if p(xs[0]) then [xs[0]] + rest else rest
  }

  /** Filtering distributes over concatenation. */
  lemma {:induction false} FilterConcat<T(!new)>(xs: seq<T>, ys: seq<T>, p: T -> bool)
    ensures Filter(xs + ys, p) == Filter(xs, p) + Filter(ys, p)
  {
    if xs == [] {
      assert xs + ys == ys;
    } else {
      assert (xs + ys)[1..] == xs[1..] + ys;
      FilterConcat(xs[1..], ys, p);
    }
  }

  /** The number of filtered elements depends only on the multiset of the input. */
  lemma FilterLengthOfPermutation<T(!new)>(xs: seq<T>, ys: seq<T>, p: T -> bool)
    requires multiset(xs) == multiset(ys)
    ensures |Filter(xs, p)| == |Filter(ys, p)|
  {
    var fx, fy := Filter(xs, p), Filter(ys, p);
    assert multiset(fx) == multiset(fy) by {
      forall x ensures multiset(fx)[x] == multiset(fy)[x] {
      }
    }
    assert |multiset(fx)| == |fx| && |multiset(fy)| == |fy|;
  }

  /** Place `x` before the first element it sorts no later than. */
  function Insert<T(!new)>(x: T, xs: seq<T>, le: (T, T) -> bool): (r: seq<T>)
    requires TotalPreorder(le)
    requires SortedBy(xs, le)
    ensures multiset(r) == multiset(xs) + multiset{x}
    ensures SortedBy(r, le)
  {
    if xs == [] then [x]
    else if le(x, xs[0]) then
      assert xs == [xs[0]] + xs[1..];
      [x] + xs
    else
      var rest := Insert(x, xs[1..], le);
      assert xs == [xs[0]] + xs[1..];
      assert forall i :: 0 <= i < |rest| ==> le(xs[0], rest[i]) by {
        forall i | 0 <= i < |rest| ensures le(xs[0], rest[i]) {
          assert rest[i] in multiset(rest);
          if rest[i] != x {
            assert rest[i] in multiset(xs[1..]);
            var k :| 0 <= k < |xs[1..]| && xs[1..][k] == rest[i];
            assert xs[k + 1] == rest[i];
          }
        }
      }
      [xs[0]] + rest
  }

  /**
   * `xs.sort(compare)` for a comparator whose "no later than" relation is `le`:
   * a sorted permutation of `xs`, built by insertion.
   */
  function Sort<T(!new)>(xs: seq<T>, le: (T, T) -> bool): (r: seq<T>)
    requires TotalPreorder(le)
    ensures multiset(r) == multiset(xs)
    ensures |r| == |xs|
    ensures SortedBy(r, le)
  {
    if xs == [] then []
    else
      assert xs == [xs[0]] + xs[1..];
      var r := Insert(xs[0], Sort(xs[1..], le), le);
      assert |multiset(r)| == |r|;
      r
  }

  /** The order `le` applied to a key of each element, as in `(a, b) => compare(key(a), key(b))`. */
  function ByKey<S(!new), T>(key: S -> T, le: (T, T) -> bool): (r: (S, S) -> bool)
    ensures forall a, b :: r(a, b) == le(key(a), key(b))
  {
    (a: S, b: S) => le(key(a), key(b))
  }

  lemma ByKeyTotalPreorder<S(!new), T(!new)>(key: S -> T, le: (T, T) -> bool)
    requires TotalPreorder(le)
    ensures TotalPreorder(ByKey(key, le))
  {
    var r := ByKey(key, le);
    forall a, b, c | r(a, b) && r(b, c) ensures r(a, c) {
      assert le(key(a), key(b)) && le(key(b), key(c));
    }
  }

  /** Each element occurs at most once. */
  ghost predicate NoRepeats<T(!new)>(xs: seq<T>) {
    forall x :: multiset(xs)[x] <= 1
  }

  /**
   * `Array.from(new Set(xs))`: the elements of `xs`, each kept once, at the
   * place of its first occurrence.
   */
  function Distinct<T(!new, ==)>(xs: seq<T>): (r: seq<T>)
    ensures forall x :: x in r <==> x in xs
    ensures NoRepeats(r)
    ensures |r| <= |xs|
  {
    if xs == [] then []
    else
      var init := xs[..|xs| - 1];
      var last := xs[|xs| - 1];
      var d := Distinct(init);
      assert xs == init + [last];
      if last in d then d else d + [last]
  }

  lemma {:induction false} DistinctOfNoRepeats<T(!new)>(xs: seq<T>)
    requires NoRepeats(xs)
    ensures Distinct(xs) == xs
  {
    if xs != [] {
      var init := xs[..|xs| - 1];
      var last := xs[|xs| - 1];
      assert xs == init + [last];
      assert NoRepeats(init) by {
        forall x ensures multiset(init)[x] <= 1 {
          assert multiset(xs)[x] == multiset(init)[x] + multiset([last])[x];
        }
      }
      DistinctOfNoRepeats(init);
      assert multiset(xs)[last] == multiset(init)[last] + 1;
      assert last !in init;
    }
  }

  lemma NoRepeatsOfPermutation<T(!new)>(xs: seq<T>, ys: seq<T>)
    requires multiset(xs) == multiset(ys) && NoRepeats(xs)
    ensures NoRepeats(ys)
  {
  }

  /** Elements passing `p` and elements passing its negation `q` together make up the whole sequence. */
  lemma {:induction false} FilterSplits<T(!new)>(xs: seq<T>, p: T -> bool, q: T -> bool)
    requires forall x :: q(x) == !p(x)
    ensures |Filter(xs, p)| + |Filter(xs, q)| == |xs|
  {
    if xs != [] {
      FilterSplits(xs[1..], p, q);
    }
  }
}
