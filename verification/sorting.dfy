/** The library sorts of the source (sort.Slice, sort.SliceStable, sort.Strings),
    as one stable insertion sort, and the uniqueness of a strictly sorted permutation. */
module Sorting {

  ghost predicate AtMost<T>(less: (T, T) -> bool, x: T, y: T) {
    !less(y, x)
  }

  /** `less` orders two values one way at most, and "at most" is transitive. */
  ghost predicate WeakOrder<T(!new)>(less: (T, T) -> bool) {
    && (forall x, y :: less(x, y) ==> AtMost(less, x, y))
    && (forall x, y, z {:trigger AtMost(less, x, y), AtMost(less, y, z)} ::
          AtMost(less, x, y) && AtMost(less, y, z) ==> AtMost(less, x, z))
  }

  /** Every value of `s` is in order with every later one; ties keep the relation `before`. */
  ghost predicate Ordered<T>(s: seq<T>, less: (T, T) -> bool, before: (T, T) -> bool) {
    forall i, j :: 0 <= i < j < |s| ==> InOrder(less, before, s[i], s[j])
  }

  ghost predicate InOrder<T>(less: (T, T) -> bool, before: (T, T) -> bool, x: T, y: T) {
    less(x, y) || (AtMost(less, x, y) && before(x, y))
  }

  function Insert<T>(x: T, s: seq<T>, less: (T, T) -> bool): (r: seq<T>)
    ensures multiset(r) == multiset{x} + multiset(s)
  {
    if s == [] then [x]
    else if less(s[0], x) then
      assert s == [s[0]] + s[1..];
      [s[0]] + Insert(x, s[1..], less)
    else [x] + s
  }

  function StableSort<T>(s: seq<T>, less: (T, T) -> bool): (r: seq<T>)
    ensures multiset(r) == multiset(s)
    ensures |r| == |s|
  {
    if s == [] then []
    else
      assert s == [s[0]] + s[1..];
      var r := Insert(s[0], StableSort(s[1..], less), less);
      assert |multiset(r)| == |multiset(s)|;
      r
  }

  /** A value at most the least of `s` and before every tie goes in front. */
  lemma InFront<T(!new)>(x: T, s: seq<T>, less: (T, T) -> bool, before: (T, T) -> bool, j: nat)
    requires WeakOrder(less) && Ordered(s, less, before) && j < |s|
    requires AtMost(less, x, s[0]) && before(x, s[j])
    ensures InOrder(less, before, x, s[j])
  {
    if j > 0 {
      assert InOrder(less, before, s[0], s[j]);
      assert AtMost(less, s[0], s[j]);
    }
    assert AtMost(less, x, s[j]);
  }

  lemma {:induction false} InsertOrdered<T(!new)>(x: T, s: seq<T>, less: (T, T) -> bool, before: (T, T) -> bool)
    requires WeakOrder(less)
    requires Ordered(s, less, before)
    requires forall y :: y in s ==> before(x, y)
    ensures Ordered(Insert(x, s, less), less, before)
  {
    if s == [] {
    } else if less(s[0], x) {
      var rest := Insert(x, s[1..], less);
      InsertOrdered(x, s[1..], less, before);
      forall j | 0 <= j < |rest| ensures InOrder(less, before, s[0], rest[j]) {
        assert rest[j] in multiset(rest);
        if rest[j] != x {
          assert rest[j] in multiset(s[1..]);
        }
      }
    } else {
      forall j | 0 <= j < |s| ensures InOrder(less, before, x, s[j]) {
        InFront(x, s, less, before, j);
      }
    }
  }

  /** A stable sort: values are ascending, and tied values keep their first order. */
  lemma {:induction false} StableSortOrdered<T(!new)>(s: seq<T>, less: (T, T) -> bool, before: (T, T) -> bool)
    requires WeakOrder(less)
    requires forall i, j :: 0 <= i < j < |s| ==> before(s[i], s[j])
    ensures Ordered(StableSort(s, less), less, before)
  {
    if s != [] {
      var t := StableSort(s[1..], less);
      StableSortOrdered(s[1..], less, before);
      forall y | y in t ensures before(s[0], y) {
        assert y in multiset(t);
        assert y in s[1..];
      }
      InsertOrdered(s[0], t, less, before);
    }
  }

  ghost predicate Ascending<T>(s: seq<T>, lt: (T, T) -> bool) {
    forall i, j :: 0 <= i < j < |s| ==> lt(s[i], s[j])
  }

  ghost predicate Asymmetric<T(!new)>(lt: (T, T) -> bool) {
    forall x, y :: lt(x, y) ==> !lt(y, x)
  }

  lemma SameLeast<T(!new)>(s: seq<T>, t: seq<T>, lt: (T, T) -> bool)
    requires Asymmetric(lt) && Ascending(s, lt) && Ascending(t, lt)
    requires s != [] && t != [] && s[0] in t && t[0] in s
    ensures s[0] == t[0]
  {
  }

  lemma TailElements<T>(s: seq<T>)
    requires s != []
    ensures multiset(s[1..]) == multiset(s) - multiset{s[0]}
  {
    assert s == [s[0]] + s[1..];
  }

  /** A strictly ascending arrangement of given values is the only one. */
  lemma {:induction false} AscendingUnique<T(!new)>(s: seq<T>, t: seq<T>, lt: (T, T) -> bool)
    requires Asymmetric(lt) && Ascending(s, lt) && Ascending(t, lt)
    requires multiset(s) == multiset(t)
    ensures s == t
  {
    assert |multiset(s)| == |s| && |multiset(t)| == |t|;
    if s != [] {
      assert s[0] in multiset(t) && t[0] in multiset(s);
      SameLeast(s, t, lt);
      TailElements(s);
      TailElements(t);
      AscendingUnique(s[1..], t[1..], lt);
      assert s == [s[0]] + s[1..] && t == [t[0]] + t[1..];
    }
  }

  ghost predicate Distinct<T>(s: seq<T>) {
    forall i, j :: 0 <= i < j < |s| ==> s[i] != s[j]
  }

  lemma {:induction false} DistinctCount<T>(s: seq<T>, x: T)
    requires Distinct(s)
    ensures multiset(s)[x] == if x in s then 1 else 0
  {
    if s != [] {
      DistinctCount(s[1..], x);
      assert s == [s[0]] + s[1..];
    }
  }

  /** Two arrangements of the same values, none repeated, are permutations of each other. */
  lemma SameMembers<T>(s: seq<T>, t: seq<T>)
    requires Distinct(s) && Distinct(t) && forall x :: x in s <==> x in t
    ensures multiset(s) == multiset(t)
  {
    forall x ensures multiset(s)[x] == multiset(t)[x] {
      DistinctCount(s, x);
      DistinctCount(t, x);
    }
  }

  /** A permutation of values none of which is repeated repeats none. */
  lemma SameMembersApart<T>(s: seq<T>, t: seq<T>, i: nat, j: nat)
    requires Distinct(t) && multiset(s) == multiset(t) && i < j < |s|
    ensures s[i] != s[j]
  {
    DistinctCount(t, s[i]);
    var front, back := s[..j], s[j..];
    assert s == front + back && s[i] in front && s[j] in back;
    assert multiset(s) == multiset(front) + multiset(back);
    assert s[i] in multiset(front) && s[j] in multiset(back);
  }
}
