/**
 The array operations the web clients compose: `filter`, `every`,
 `findIndex`, and `sort` with a comparator.

 `Array.prototype.sort` is stable, so with a comparator that is a total
 preorder its result is the one stable sorted permutation of the input.
 `SortBy` computes that permutation by insertion; `le(a, b)` stands for
 `compare(a, b) <= 0`.
 */
module Lists {

  /** `xs.filter(p)`. */
  function Filter<T>(xs: seq<T>, p: T -> bool): (r: seq<T>)
    ensures |r| <= |xs|
    ensures forall i :: 0 <= i < |r| ==> r[i] in xs && p(r[i])
  {
    if xs == [] then []
    else (if p(xs[0]) then [xs[0]] else []) + Filter(xs[1..], p)
  }

  /** What the filter keeps is in the input and satisfies the predicate. */
  lemma FilterMember<T>(xs: seq<T>, p: T -> bool, x: T)
    requires x in multiset(Filter(xs, p))
    ensures x in xs && p(x)
  {
    var r := Filter(xs, p);
    var k :| 0 <= k < |r| && r[k] == x;
  }

  lemma FilterCons<T>(x: T, xs: seq<T>, p: T -> bool)
    ensures Filter([x] + xs, p) == (if p(x) then [x] else []) + Filter(xs, p)
  {
    assert ([x] + xs)[1..] == xs;
  }

  /** Filtering keeps each kept value exactly as often as the input holds it. */
  lemma {:induction false} FilterCount<T>(xs: seq<T>, p: T -> bool, x: T)
    ensures multiset(Filter(xs, p))[x] == if p(x) then multiset(xs)[x] else 0
  {
    if xs != [] {
      FilterCount(xs[1..], p, x);
      assert xs == [xs[0]] + xs[1..];
      assert multiset(xs) == multiset{xs[0]} + multiset(xs[1..]);
    }
  }

  /** The filter keeps every element that satisfies the predicate. */
  lemma FilterKeeps<T>(xs: seq<T>, p: T -> bool, i: nat)
    requires i < |xs| && p(xs[i])
    ensures xs[i] in Filter(xs, p)
  {
    FilterCount(xs, p, xs[i]);
    assert xs[i] in multiset(xs);
  }

  /** The filter keeps something exactly when some element satisfies the predicate. */
  lemma FilterNonEmpty<T>(xs: seq<T>, p: T -> bool)
    ensures |Filter(xs, p)| > 0 <==> exists i :: 0 <= i < |xs| && p(xs[i])
  {
    if exists i :: 0 <= i < |xs| && p(xs[i]) {
      var i :| 0 <= i < |xs| && p(xs[i]);
      FilterKeeps(xs, p, i);
    }
    if |Filter(xs, p)| > 0 {
      var x := Filter(xs, p)[0];
      var m :| 0 <= m < |xs| && xs[m] == x;
    }
  }

  lemma {:induction false} FilterAppend<T>(xs: seq<T>, ys: seq<T>, p: T -> bool)
    ensures Filter(xs + ys, p) == Filter(xs, p) + Filter(ys, p)
  {
    if xs == [] {
      assert xs + ys == ys;
    } else {
      assert xs + ys == [xs[0]] + (xs[1..] + ys);
      FilterCons(xs[0], xs[1..] + ys, p);
      FilterAppend(xs[1..], ys, p);
    }
  }

  /** `xs.every(p)`: true on the empty list. */
  function Every<T>(xs: seq<T>, p: T -> bool): (r: bool)
    ensures r <==> forall i :: 0 <= i < |xs| ==> p(xs[i])
  {
    xs == [] || (p(xs[0]) && Every(xs[1..], p))
  }

  /** `xs.findIndex(p)`: the first index satisfying `p`, or -1. */
  function FindIndex<T>(xs: seq<T>, p: T -> bool): (r: int)
    ensures -1 <= r < |xs|
    ensures r == -1 <==> forall j :: 0 <= j < |xs| ==> !p(xs[j])
    ensures r >= 0 ==> p(xs[r]) && forall j :: 0 <= j < r ==> !p(xs[j])
  {
    if xs == [] then -1
    else if p(xs[0]) then 0
    else
      var k := FindIndex(xs[1..], p);
      if k == -1 then -1 else k + 1
  }

  // ---------- sorting ----------

  /** `le` is total and transitive: a consistent comparator. */
  ghost predicate TotalPreorder<T(!new)>(le: (T, T) -> bool) {
    && (forall a, b :: le(a, b) || le(b, a))
    && (forall a, b, c :: le(a, b) && le(b, c) ==> le(a, c))
  }

  predicate SortedBy<T>(xs: seq<T>, le: (T, T) -> bool) {
    forall i, j :: 0 <= i < j < |xs| ==> le(xs[i], xs[j])
  }

  /** `x` goes before the first element it does not exceed. */
  function Insert<T>(x: T, ys: seq<T>, le: (T, T) -> bool): (r: seq<T>)
    ensures multiset(r) == multiset(ys) + multiset{x}
    ensures |r| == |ys| + 1
  {
    if ys == [] then [x]
    else if le(x, ys[0]) then [x] + ys
    else
      assert ys == [ys[0]] + ys[1..];
      [ys[0]] + Insert(x, ys[1..], le)
  }

  /** The stable sort of `xs` by `le`. */
  function SortBy<T>(xs: seq<T>, le: (T, T) -> bool): (r: seq<T>)
    ensures multiset(r) == multiset(xs)
    ensures |r| == |xs|
  {
    if xs == [] then []
    else
      assert xs == [xs[0]] + xs[1..];
      Insert(xs[0], SortBy(xs[1..], le), le)
  }

  lemma {:induction false} InsertSorted<T(!new)>(x: T, ys: seq<T>, le: (T, T) -> bool)
    requires TotalPreorder(le) && SortedBy(ys, le)
    ensures SortedBy(Insert(x, ys, le), le)
  {
    if ys != [] && !le(x, ys[0]) {
      var rest := Insert(x, ys[1..], le);
      SortedTail(ys, le);
      InsertSorted(x, ys[1..], le);
      InsertBelow(ys[0], x, ys[1..], le);
      SortedCons(ys[0], rest, le);
    } else if ys != [] {
      SortedCons(x, ys, le);
    }
  }

  lemma SortedTail<T>(ys: seq<T>, le: (T, T) -> bool)
    requires ys != [] && SortedBy(ys, le)
    ensures SortedBy(ys[1..], le)
    ensures forall k :: 0 <= k < |ys[1..]| ==> le(ys[0], ys[1..][k])
  {
    forall i, j | 0 <= i < j < |ys[1..]| ensures le(ys[1..][i], ys[1..][j]) {
      assert ys[1..][i] == ys[i + 1] && ys[1..][j] == ys[j + 1];
    }
  }

  /** Putting in front an element at or below every other keeps a sequence sorted. */
  lemma SortedCons<T(!new)>(y: T, ys: seq<T>, le: (T, T) -> bool)
    requires TotalPreorder(le) && SortedBy(ys, le)
    requires ys != [] ==> le(y, ys[0])
    ensures SortedBy([y] + ys, le)
  {
    var r := [y] + ys;
    forall i, j | 0 <= i < j < |r| ensures le(r[i], r[j]) {
      if i == 0 {
        assert r[j] == ys[j - 1];
        if j > 1 {
          assert le(ys[0], ys[j - 1]);
        }
      } else {
        assert r[i] == ys[i - 1] && r[j] == ys[j - 1];
      }
    }
  }

  /** A lower bound of `x` and of every element is a lower bound of the insertion. */
  lemma InsertBelow<T(!new)>(y: T, x: T, ys: seq<T>, le: (T, T) -> bool)
    requires TotalPreorder(le) && !le(x, y) && forall k :: 0 <= k < |ys| ==> le(y, ys[k])
    ensures forall k :: 0 <= k < |Insert(x, ys, le)| ==> le(y, Insert(x, ys, le)[k])
  {
    var r := Insert(x, ys, le);
    forall k | 0 <= k < |r| ensures le(y, r[k]) {
      assert r[k] in multiset(r);
      if r[k] != x {
        assert r[k] in multiset(ys);
        var m :| 0 <= m < |ys| && ys[m] == r[k];
      }
    }
  }

  /** The result is in `le` order. */
  lemma {:induction false} SortBySorted<T(!new)>(xs: seq<T>, le: (T, T) -> bool)
    requires TotalPreorder(le)
    ensures SortedBy(SortBy(xs, le), le)
  {
    if xs != [] {
      SortBySorted(xs[1..], le);
      InsertSorted(xs[0], SortBy(xs[1..], le), le);
    }
  }

  /** `compare(x, z) == 0`. */
  predicate Tied<T>(le: (T, T) -> bool, x: T, z: T) {
    le(x, z) && le(z, x)
  }

  /** The elements tied with `z`, as a filter. */
  function TiedWith<T>(z: T, le: (T, T) -> bool): T -> bool {
    x => Tied(le, x, z)
  }

  /** An element strictly above `x` is not tied with anything `x` is tied with. */
  lemma NotTiedAbove<T(!new)>(le: (T, T) -> bool, x: T, y: T, z: T)
    requires TotalPreorder(le) && !le(x, y) && Tied(le, x, z)
    ensures !Tied(le, y, z)
  {
  }

  lemma {:induction false} InsertStable<T(!new)>(x: T, ys: seq<T>, le: (T, T) -> bool, z: T)
    requires TotalPreorder(le)
    ensures Filter(Insert(x, ys, le), TiedWith(z, le)) == (if TiedWith(z, le)(x) then [x] else []) + Filter(ys, TiedWith(z, le))
  {
    var p := TiedWith(z, le);
    if ys == [] {
    } else if le(x, ys[0]) {
      FilterCons(x, ys, p);
    } else {
      var rest := Insert(x, ys[1..], le);
      assert Insert(x, ys, le) == [ys[0]] + rest;
      InsertStable(x, ys[1..], le, z);
      FilterCons(ys[0], rest, p);
      FilterCons(ys[0], ys[1..], p);
      assert ys == [ys[0]] + ys[1..];
      if p(x) {
        NotTiedAbove(le, x, ys[0], z);
        assert Filter([ys[0]] + rest, p) == Filter(rest, p);
        assert Filter(ys, p) == Filter(ys[1..], p);
      } else {
        assert Filter(rest, p) == Filter(ys[1..], p);
      }
    }
  }

  /**
   Stability: the elements tied with any `z` come out in the order they
   went in.
   */
  lemma {:induction false} SortByStable<T(!new)>(xs: seq<T>, le: (T, T) -> bool, z: T)
    requires TotalPreorder(le)
    ensures Filter(SortBy(xs, le), TiedWith(z, le)) == Filter(xs, TiedWith(z, le))
  {
    if xs != [] {
      SortByStable(xs[1..], le, z);
      InsertStable(xs[0], SortBy(xs[1..], le), le, z);
      FilterCons(xs[0], xs[1..], TiedWith(z, le));
      assert xs == [xs[0]] + xs[1..];
    }
  }
}
