/** Stable sorting by a total preorder, as `Array.prototype.sort` does it, and what such a
    sort determines: the members up to ties, and the order inside each tie class. */
module Ordering {

  predicate Comparable<T>(leq: (T, T) -> bool, a: T, b: T) {
    leq(a, b) || leq(b, a)
  }

  predicate Chains<T>(leq: (T, T) -> bool, a: T, b: T, c: T) {
    leq(a, b) && leq(b, c) ==> leq(a, c)
  }

  ghost predicate TotalPreorder<T(!new)>(leq: (T, T) -> bool) {
    && (forall a, b :: Comparable(leq, a, b))
    && (forall a, b, c :: Chains(leq, a, b, c))
  }

  predicate Tied<T>(leq: (T, T) -> bool, a: T, b: T) {
    leq(a, b) && leq(b, a)
  }

  ghost predicate Sorted<T>(leq: (T, T) -> bool, xs: seq<T>) {
    forall i, j | 0 <= i < j < |xs| :: leq(xs[i], xs[j])
  }

  /** Inserts `x` before the first member it may precede, so an earlier tied element stays first. */
  function Insert<T>(leq: (T, T) -> bool, x: T, xs: seq<T>): (r: seq<T>)
    ensures |r| == |xs| + 1
  {
    if xs == [] then [x]
    else if leq(x, xs[0]) then [x] + xs
    else [xs[0]] + Insert(leq, x, xs[1..])
  }

  function StableSort<T>(leq: (T, T) -> bool, xs: seq<T>): (r: seq<T>)
    ensures |r| == |xs|
  {
    if xs == [] then [] else Insert(leq, xs[0], StableSort(leq, xs[1..]))
  }

  function Filter<T>(p: T -> bool, xs: seq<T>): (r: seq<T>)
    ensures forall i | 0 <= i < |r| :: p(r[i])
  {
    if xs == [] then [] else (if p(xs[0]) then [xs[0]] else []) + Filter(p, xs[1..])
  }

  function Reverse<T>(xs: seq<T>): (r: seq<T>)
    ensures |r| == |xs|
  {
    if xs == [] then [] else Reverse(xs[1..]) + [xs[0]]
  }

  lemma HeadTail<T>(xs: seq<T>)
    requires xs != []
    ensures xs == [xs[0]] + xs[1..] && multiset(xs) == multiset{xs[0]} + multiset(xs[1..])
  {
    assert xs == [xs[0]] + xs[1..];
  }

  lemma {:induction false} InsertMultiset<T>(leq: (T, T) -> bool, x: T, xs: seq<T>)
    ensures multiset(Insert(leq, x, xs)) == multiset(xs) + multiset{x}
  {
    if xs != [] {
      HeadTail(xs);
      InsertMultiset(leq, x, xs[1..]);
    }
  }

  /** A sort only rearranges. */
  lemma {:induction false} SortMultiset<T>(leq: (T, T) -> bool, xs: seq<T>)
    ensures multiset(StableSort(leq, xs)) == multiset(xs)
  {
    if xs != [] {
      HeadTail(xs);
      SortMultiset(leq, xs[1..]);
      InsertMultiset(leq, xs[0], StableSort(leq, xs[1..]));
    }
  }

  lemma {:induction false} InsertSorted<T(!new)>(leq: (T, T) -> bool, x: T, xs: seq<T>)
    requires TotalPreorder(leq) && Sorted(leq, xs)
    ensures Sorted(leq, Insert(leq, x, xs))
  {
    if xs != [] {
      if leq(x, xs[0]) {
        forall i | 0 < i < |xs| ensures leq(x, xs[i]) {
          assert Chains(leq, x, xs[0], xs[i]);
        }
      } else {
        assert Comparable(leq, x, xs[0]);
        InsertSorted(leq, x, xs[1..]);
        InsertMultiset(leq, x, xs[1..]);
        var r := Insert(leq, x, xs[1..]);
        forall i | 0 <= i < |r| ensures leq(xs[0], r[i]) {
          assert r[i] in multiset(r);
        }
      }
    }
  }

  lemma {:induction false} SortSorted<T(!new)>(leq: (T, T) -> bool, xs: seq<T>)
    requires TotalPreorder(leq)
    ensures Sorted(leq, StableSort(leq, xs))
  {
    if xs != [] {
      SortSorted(leq, xs[1..]);
      InsertSorted(leq, xs[0], StableSort(leq, xs[1..]));
    }
  }

  function Without<T>(xs: seq<T>, k: nat): seq<T>
    requires k < |xs|
  {
    xs[..k] + xs[k + 1..]
  }

  lemma WithoutMultiset<T>(xs: seq<T>, k: nat)
    requires k < |xs|
    ensures multiset(Without(xs, k)) == multiset(xs) - multiset{xs[k]}
  {
    assert xs == xs[..k] + [xs[k]] + xs[k + 1..];
  }

  lemma TieChain<T(!new)>(leq: (T, T) -> bool, a: T, b: T, c: T)
    requires TotalPreorder(leq)
    requires Tied(leq, a, b) && Tied(leq, b, c)
    ensures Tied(leq, a, c) && Tied(leq, c, a)
  {
    assert Chains(leq, a, b, c) && Chains(leq, c, b, a);
  }

  /** Two sorted arrangements of the same members agree up to ties at every position. */
  lemma {:induction false} SortedPointwise<T(!new)>(leq: (T, T) -> bool, xs: seq<T>, ys: seq<T>)
    requires TotalPreorder(leq) && Sorted(leq, xs) && Sorted(leq, ys)
    requires multiset(xs) == multiset(ys)
    ensures |xs| == |ys| && forall i | 0 <= i < |xs| :: Tied(leq, xs[i], ys[i])
  {
    assert |multiset(xs)| == |xs| && |multiset(ys)| == |ys|;
    if xs != [] {
      assert xs[0] in multiset(ys);
      var k :| 0 <= k < |ys| && ys[k] == xs[0];
      HeadsTie(leq, xs, ys, k);
      SortedPointwise(leq, xs[1..], Without(ys, k));
      ShiftTies(leq, xs, ys, k);
    }
  }

  lemma ShiftTies<T(!new)>(leq: (T, T) -> bool, xs: seq<T>, ys: seq<T>, k: nat)
    requires TotalPreorder(leq)
    requires 0 < |xs| == |ys| && k < |ys|
    requires forall i | 0 <= i <= k :: Tied(leq, xs[0], ys[i]) && Tied(leq, ys[i], xs[0])
    requires forall i | 0 <= i < |xs| - 1 :: Tied(leq, xs[1..][i], Without(ys, k)[i])
    ensures forall i | 0 <= i < |xs| :: Tied(leq, xs[i], ys[i])
  {
    forall i | 1 <= i < |xs| ensures Tied(leq, xs[i], ys[i]) {
      assert Tied(leq, xs[1..][i - 1], Without(ys, k)[i - 1]);
      if i <= k {
        TieChain(leq, ys[i - 1], xs[0], ys[i]);
        TieChain(leq, xs[i], ys[i - 1], ys[i]);
      }
    }
  }

  lemma SortedWithout<T(!new)>(leq: (T, T) -> bool, xs: seq<T>, k: nat)
    requires Sorted(leq, xs) && k < |xs|
    ensures Sorted(leq, Without(xs, k))
  {
    var zs := Without(xs, k);
    forall i, j | 0 <= i < j < |zs| ensures leq(zs[i], zs[j]) {
      assert zs[i] == xs[if i < k then i else i + 1] && zs[j] == xs[if j < k then j else j + 1];
    }
  }

  lemma HeadLeast<T(!new)>(leq: (T, T) -> bool, xs: seq<T>, x: T)
    requires TotalPreorder(leq) && Sorted(leq, xs) && x in multiset(xs)
    ensures leq(xs[0], x)
  {
    var j :| 0 <= j < |xs| && xs[j] == x;
    assert Comparable(leq, x, x);
  }

  lemma HeadsTie<T(!new)>(leq: (T, T) -> bool, xs: seq<T>, ys: seq<T>, k: nat)
    requires TotalPreorder(leq) && Sorted(leq, xs) && Sorted(leq, ys)
    requires multiset(xs) == multiset(ys)
    requires xs != [] && k < |ys| && ys[k] == xs[0]
    ensures forall i | 0 <= i <= k :: Tied(leq, xs[0], ys[i]) && Tied(leq, ys[i], xs[0])
    ensures Sorted(leq, xs[1..]) && Sorted(leq, Without(ys, k))
    ensures multiset(xs[1..]) == multiset(Without(ys, k))
  {
    WithoutMultiset(ys, k);
    WithoutMultiset(xs, 0);
    assert Without(xs, 0) == xs[1..];
    SortedWithout(leq, xs, 0);
    SortedWithout(leq, ys, k);
    HeadsTieUpTo(leq, xs, ys, k);
  }

  lemma HeadsTieUpTo<T(!new)>(leq: (T, T) -> bool, xs: seq<T>, ys: seq<T>, k: nat)
    requires TotalPreorder(leq) && Sorted(leq, xs) && Sorted(leq, ys)
    requires multiset(xs) == multiset(ys)
    requires xs != [] && k < |ys| && ys[k] == xs[0]
    ensures forall i | 0 <= i <= k :: Tied(leq, xs[0], ys[i]) && Tied(leq, ys[i], xs[0])
  {
    forall i | 0 <= i <= k ensures leq(xs[0], ys[i]) && leq(ys[i], xs[0]) {
      assert ys[i] in multiset(ys);
      HeadLeast(leq, xs, ys[i]);
      assert Comparable(leq, ys[i], ys[i]);
    }
  }

  /** Where no two different members tie, the sorted arrangement is unique. */
  lemma SortUnique<T(!new)>(leq: (T, T) -> bool, xs: seq<T>, ys: seq<T>)
    requires TotalPreorder(leq)
    requires multiset(xs) == multiset(ys)
    requires forall a, b | a in xs && b in xs && Tied(leq, a, b) :: a == b
    ensures StableSort(leq, xs) == StableSort(leq, ys)
  {
    var p, q := StableSort(leq, xs), StableSort(leq, ys);
    SortMultiset(leq, xs);
    SortMultiset(leq, ys);
    SortSorted(leq, xs);
    SortSorted(leq, ys);
    SortedPointwise(leq, p, q);
    forall i | 0 <= i < |p| ensures p[i] == q[i] {
      assert p[i] in multiset(xs) && q[i] in multiset(xs);
      assert Tied(leq, p[i], q[i]);
    }
  }

  lemma FilterCons<T>(p: T -> bool, x: T, xs: seq<T>)
    ensures Filter(p, [x] + xs) == (if p(x) then [x] else []) + Filter(p, xs)
  {
    assert ([x] + xs)[1..] == xs;
  }

  lemma FilterSwap<T>(p: T -> bool, x: T, y: T, xs: seq<T>)
    requires !p(x) || !p(y)
    ensures Filter(p, [x] + ([y] + xs)) == Filter(p, [y] + ([x] + xs))
  {
    FilterCons(p, x, [y] + xs);
    FilterCons(p, y, [x] + xs);
    FilterCons(p, x, xs);
    FilterCons(p, y, xs);
    var f := Filter(p, xs);
    assert [] + f == f && [] + ([x] + f) == [x] + f && [] + ([y] + f) == [y] + f;
  }

  lemma {:induction false} InsertFilter<T>(leq: (T, T) -> bool, p: T -> bool, x: T, xs: seq<T>)
    requires forall a, b | p(a) && p(b) :: leq(a, b)
    ensures Filter(p, Insert(leq, x, xs)) == Filter(p, [x] + xs)
  {
    if xs == [] {
      assert [x] + xs == [x];
    } else if !leq(x, xs[0]) {
      var y, ys := xs[0], xs[1..];
      InsertFilter(leq, p, x, ys);
      FilterCons(p, y, Insert(leq, x, ys));
      FilterCons(p, y, [x] + ys);
      FilterSwap(p, x, y, ys);
      assert [y] + ys == xs;
    }
  }

  /** Stability: members of one tie class come out in the order they went in. */
  lemma {:induction false} SortStable<T>(leq: (T, T) -> bool, p: T -> bool, xs: seq<T>)
    requires forall a, b | p(a) && p(b) :: leq(a, b)
    ensures Filter(p, StableSort(leq, xs)) == Filter(p, xs)
  {
    if xs != [] {
      SortStable(leq, p, xs[1..]);
      InsertFilter(leq, p, xs[0], StableSort(leq, xs[1..]));
      FilterCons(p, xs[0], StableSort(leq, xs[1..]));
    }
  }

  lemma {:induction false} FilterConcat<T>(p: T -> bool, xs: seq<T>, ys: seq<T>)
    ensures Filter(p, xs + ys) == Filter(p, xs) + Filter(p, ys)
  {
    if xs == [] {
      assert xs + ys == ys;
    } else {
      assert (xs + ys)[1..] == xs[1..] + ys;
      FilterConcat(p, xs[1..], ys);
    }
  }

  lemma {:induction false} FilterReverse<T>(p: T -> bool, xs: seq<T>)
    ensures Filter(p, Reverse(xs)) == Reverse(Filter(p, xs))
  {
    if xs != [] {
      FilterReverse(p, xs[1..]);
      FilterConcat(p, Reverse(xs[1..]), [xs[0]]);
      var f := Filter(p, xs[1..]);
      if p(xs[0]) {
        assert Filter(p, [xs[0]]) == [xs[0]];
        assert ([xs[0]] + f)[1..] == f;
      } else {
        assert Filter(p, xs) == [] + f == f;
        assert Reverse(f) + [] == Reverse(f);
      }
    }
  }

  lemma {:induction false} ReverseMultiset<T>(xs: seq<T>)
    ensures multiset(Reverse(xs)) == multiset(xs)
  {
    if xs != [] {
      HeadTail(xs);
      ReverseMultiset(xs[1..]);
    }
  }

  lemma {:induction false} ReverseEnds<T>(xs: seq<T>)
    requires xs != []
    ensures Reverse(xs)[0] == xs[|xs| - 1]
  {
    if |xs| > 1 {
      ReverseEnds(xs[1..]);
    }
  }

  lemma {:induction false} FilterMember<T>(p: T -> bool, xs: seq<T>, x: T)
    ensures x in Filter(p, xs) <==> p(x) && x in xs
  {
    if xs != [] {
      HeadTail(xs);
      FilterMember(p, xs[1..], x);
    }
  }

  /** Splitting by a test and putting the halves together loses nothing. */
  lemma {:induction false} FilterPartition<T>(p: T -> bool, q: T -> bool, xs: seq<T>)
    requires forall x :: p(x) <==> !q(x)
    ensures multiset(Filter(p, xs)) + multiset(Filter(q, xs)) == multiset(xs)
  {
    if xs != [] {
      HeadTail(xs);
      FilterPartition(p, q, xs[1..]);
    }
  }

  // ----- what a stable sort determines -----

  function Map<T, U>(h: T -> U, xs: seq<T>): (r: seq<U>)
    ensures |r| == |xs| && forall i | 0 <= i < |xs| :: r[i] == h(xs[i])
  {
    seq(|xs|, i requires 0 <= i < |xs| => h(xs[i]))
  }

  function TiesWith<T>(leq: (T, T) -> bool, x: T): T -> bool {
    y => Tied(leq, x, y)
  }

  /** The members that tie with `x`, in order, seen through `h`. */
  function Class<T, U>(leq: (T, T) -> bool, h: T -> U, x: T, xs: seq<T>): seq<U> {
    Map(h, Filter(TiesWith(leq, x), xs))
  }

  ghost predicate SameClasses<T(!new), U>(leq: (T, T) -> bool, h: T -> U, xs: seq<T>, ys: seq<T>) {
    forall x :: Class(leq, h, x, xs) == Class(leq, h, x, ys)
  }

  lemma MapConcat<T, U>(h: T -> U, xs: seq<T>, ys: seq<T>)
    ensures Map(h, xs + ys) == Map(h, xs) + Map(h, ys)
  {
  }

  lemma ClassCons<T, U>(leq: (T, T) -> bool, h: T -> U, x: T, xs: seq<T>)
    requires xs != []
    ensures Class(leq, h, x, xs) ==
            (if Tied(leq, x, xs[0]) then [h(xs[0])] else []) + Class(leq, h, x, xs[1..])
  {
    var c := TiesWith(leq, x);
    MapConcat(h, if c(xs[0]) then [xs[0]] else [], Filter(c, xs[1..]));
  }

  ghost predicate PointwiseTied<T>(leq: (T, T) -> bool, xs: seq<T>, ys: seq<T>) {
    |xs| == |ys| && forall i | 0 <= i < |xs| :: Tied(leq, xs[i], ys[i])
  }

  lemma TieAgrees<T(!new)>(leq: (T, T) -> bool, x: T, a: T, b: T)
    requires TotalPreorder(leq) && Tied(leq, a, b)
    ensures Tied(leq, x, a) <==> Tied(leq, x, b)
  {
    if Tied(leq, x, a) { TieChain(leq, x, a, b); }
    if Tied(leq, x, b) { TieChain(leq, x, b, a); }
  }

  lemma {:induction false} ClassOfEqual<T(!new), U>(leq: (T, T) -> bool, h: T -> U, x: T, xs: seq<T>, ys: seq<T>)
    requires TotalPreorder(leq) && PointwiseTied(leq, xs, ys) && Map(h, xs) == Map(h, ys)
    ensures Class(leq, h, x, xs) == Class(leq, h, x, ys)
  {
    if xs != [] {
      ClassCons(leq, h, x, xs);
      ClassCons(leq, h, x, ys);
      TieAgrees(leq, x, xs[0], ys[0]);
      assert Map(h, xs)[0] == Map(h, ys)[0];
      assert Map(h, xs[1..]) == Map(h, xs)[1..] && Map(h, ys[1..]) == Map(h, ys)[1..];
      ClassOfEqual(leq, h, x, xs[1..], ys[1..]);
    }
  }

  lemma ClassesOfTail<T(!new), U>(leq: (T, T) -> bool, h: T -> U, xs: seq<T>, ys: seq<T>)
    requires TotalPreorder(leq) && PointwiseTied(leq, xs, ys) && SameClasses(leq, h, xs, ys) && xs != []
    ensures h(xs[0]) == h(ys[0]) && SameClasses(leq, h, xs[1..], ys[1..])
  {
    forall x ensures Class(leq, h, x, xs[1..]) == Class(leq, h, x, ys[1..]) {
      assert Class(leq, h, x, xs) == Class(leq, h, x, ys);
      ClassCons(leq, h, x, xs);
      ClassCons(leq, h, x, ys);
      TieAgrees(leq, x, xs[0], ys[0]);
      var n := if Tied(leq, x, xs[0]) then 1 else 0;
      assert Class(leq, h, x, xs)[n..] == Class(leq, h, x, xs[1..]);
      assert Class(leq, h, x, ys)[n..] == Class(leq, h, x, ys[1..]);
    }
    var z := xs[0];
    assert Class(leq, h, z, xs) == Class(leq, h, z, ys);
    assert Comparable(leq, z, z);
    ClassCons(leq, h, z, xs);
    ClassCons(leq, h, z, ys);
  }

  lemma {:induction false} EqualOfClasses<T(!new), U>(leq: (T, T) -> bool, h: T -> U, xs: seq<T>, ys: seq<T>)
    requires TotalPreorder(leq) && PointwiseTied(leq, xs, ys) && SameClasses(leq, h, xs, ys)
    ensures Map(h, xs) == Map(h, ys)
  {
    if xs != [] {
      ClassesOfTail(leq, h, xs, ys);
      EqualOfClasses(leq, h, xs[1..], ys[1..]);
      assert xs == [xs[0]] + xs[1..] && ys == [ys[0]] + ys[1..];
      MapConcat(h, [xs[0]], xs[1..]);
      MapConcat(h, [ys[0]], ys[1..]);
    }
  }

  lemma ClassOfSort<T(!new), U>(leq: (T, T) -> bool, h: T -> U, x: T, xs: seq<T>)
    requires TotalPreorder(leq)
    ensures Class(leq, h, x, StableSort(leq, xs)) == Class(leq, h, x, xs)
  {
    var c := TiesWith(leq, x);
    forall a, b | c(a) && c(b) ensures leq(a, b) {
      TieChain(leq, a, x, b);
    }
    SortStable(leq, c, xs);
  }

  /** Two arrangements of the same members sort alike, seen through `h`, exactly when every class
      of tied members comes in the same order in both. */
  lemma SortExact<T(!new), U>(leq: (T, T) -> bool, h: T -> U, xs: seq<T>, ys: seq<T>)
    requires TotalPreorder(leq) && multiset(xs) == multiset(ys)
    ensures Map(h, StableSort(leq, xs)) == Map(h, StableSort(leq, ys)) <==> SameClasses(leq, h, xs, ys)
  {
    var p, q := StableSort(leq, xs), StableSort(leq, ys);
    SortMultiset(leq, xs);
    SortMultiset(leq, ys);
    SortSorted(leq, xs);
    SortSorted(leq, ys);
    SortedPointwise(leq, p, q);
    forall x ensures Class(leq, h, x, p) == Class(leq, h, x, xs) && Class(leq, h, x, q) == Class(leq, h, x, ys) {
      ClassOfSort(leq, h, x, xs);
      ClassOfSort(leq, h, x, ys);
    }
    if SameClasses(leq, h, xs, ys) {
      EqualOfClasses(leq, h, p, q);
    }
    if Map(h, p) == Map(h, q) {
      forall x ensures Class(leq, h, x, xs) == Class(leq, h, x, ys) {
        ClassOfEqual(leq, h, x, p, q);
      }
    }
  }

  lemma {:induction false} MapReverse<T, U>(h: T -> U, xs: seq<T>)
    ensures Map(h, Reverse(xs)) == Reverse(Map(h, xs))
  {
    if xs != [] {
      MapReverse(h, xs[1..]);
      MapConcat(h, Reverse(xs[1..]), [xs[0]]);
      assert Map(h, xs)[1..] == Map(h, xs[1..]);
    }
  }
}
