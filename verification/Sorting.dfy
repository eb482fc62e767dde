/** Sorting by a comparison: what any sort gives, and when it is unique. */
module Sorting {
  /** No later element comes before an earlier one. */
  ghost predicate Ordered<T>(less: (T, T) -> bool, list: seq<T>) {
    forall i, j :: 0 <= i < j < |list| ==> !less(list[j], list[i])
  }

  /** The laws of a comparison that sorting relies on. */
  ghost predicate Lawful<T(!new)>(less: (T, T) -> bool) {
    && (forall x, y :: less(x, y) ==> !less(y, x))
    && (forall x, y, z :: !less(y, x) && !less(z, y) ==> !less(z, x))
  }

  /** Elements that are not ordered either way are the same. */
  ghost predicate Separates<T>(less: (T, T) -> bool, list: seq<T>) {
    forall i, j :: 0 <= i < |list| && 0 <= j < |list| && !less(list[i], list[j]) && !less(list[j], list[i]) ==>
      list[i] == list[j]
  }

  function Insert<T>(less: (T, T) -> bool, x: T, list: seq<T>): seq<T> {
    if list == [] then [x]
    else if less(list[0], x) then [list[0]] + Insert(less, x, list[1..])
    else [x] + list
  }

  function Sort<T>(less: (T, T) -> bool, list: seq<T>): seq<T> {
    if list == [] then [] else Insert(less, list[0], Sort(less, list[1..]))
  }

  lemma Uncons<T>(list: seq<T>)
    requires list != []
    ensures multiset(list) == multiset{list[0]} + multiset(list[1..])
  {
    assert list == [list[0]] + list[1..];
  }

  lemma SameRest<T>(a: seq<T>, b: seq<T>)
    requires multiset(a) == multiset(b) && a != [] && b != [] && a[0] == b[0]
    ensures multiset(a[1..]) == multiset(b[1..])
  {
    Uncons(a);
    Uncons(b);
    assert multiset(a[1..]) == multiset(a) - multiset{a[0]};
  }

  lemma {:induction false} InsertAdds<T>(less: (T, T) -> bool, x: T, list: seq<T>)
    ensures multiset(Insert(less, x, list)) == multiset{x} + multiset(list)
  {
    if list != [] && less(list[0], x) {
      InsertAdds(less, x, list[1..]);
      Uncons(list);
      Uncons(Insert(less, x, list));
    }
  }

  lemma {:induction false} InsertOrders<T(!new)>(less: (T, T) -> bool, x: T, list: seq<T>)
    requires Lawful(less) && Ordered(less, list)
    ensures Ordered(less, Insert(less, x, list))
  {
    if list != [] && less(list[0], x) {
      var rest := Insert(less, x, list[1..]);
      InsertOrders(less, x, list[1..]);
      InsertAdds(less, x, list[1..]);
      forall j | 0 <= j < |rest| ensures !less(rest[j], list[0]) {
        assert rest[j] in multiset(rest);
        assert rest[j] == x || rest[j] in list[1..];
      }
      assert Insert(less, x, list) == [list[0]] + rest;
    } else if list != [] {
      forall j | 0 <= j < |list| ensures !less(list[j], x) {
        assert j > 0 ==> !less(list[j], list[0]);
      }
    }
  }

  /** A sort gives an ordered permutation. */
  lemma {:induction false} SortFacts<T(!new)>(less: (T, T) -> bool, list: seq<T>)
    requires Lawful(less)
    ensures Ordered(less, Sort(less, list)) && multiset(Sort(less, list)) == multiset(list)
  {
    if list != [] {
      SortFacts(less, list[1..]);
      InsertOrders(less, list[0], Sort(less, list[1..]));
      InsertAdds(less, list[0], Sort(less, list[1..]));
      Uncons(list);
    }
  }

  lemma SameFirst<T>(less: (T, T) -> bool, a: seq<T>, b: seq<T>)
    requires Ordered(less, a) && Ordered(less, b) && a != [] && b != []
    requires b[0] in a && a[0] in b && Separates(less, a)
    ensures a[0] == b[0]
  {
    var i :| 0 <= i < |a| && a[i] == b[0];
    var j :| 0 <= j < |b| && b[j] == a[0];
    assert i > 0 ==> !less(a[i], a[0]);
    assert j > 0 ==> !less(b[j], b[0]);
  }

  /** There is only one ordered permutation: whatever the algorithm, this is the result. */
  lemma {:induction false} OrderedUnique<T(!new)>(less: (T, T) -> bool, a: seq<T>, b: seq<T>)
    requires Ordered(less, a) && Ordered(less, b) && multiset(a) == multiset(b)
    requires Separates(less, a)
    ensures a == b
    decreases a
  {
    assert |multiset(a)| == |a| && |multiset(b)| == |b|;
    if a != [] {
      SharedFirsts(a, b);
      SameFirst(less, a, b);
      SameRest(a, b);
      RestOrdered(less, a);
      RestOrdered(less, b);
      OrderedUnique(less, a[1..], b[1..]);
      assert a == [a[0]] + a[1..] && b == [b[0]] + b[1..];
    }
  }

  lemma SharedFirsts<T>(a: seq<T>, b: seq<T>)
    requires multiset(a) == multiset(b) && a != [] && b != []
    ensures a[0] in b && b[0] in a
  {
    assert a[0] in multiset(a) && b[0] in multiset(b);
  }

  lemma RestOrdered<T>(less: (T, T) -> bool, list: seq<T>)
    requires list != []
    ensures Ordered(less, list) ==> Ordered(less, list[1..])
    ensures Separates(less, list) ==> Separates(less, list[1..])
  {
  }

  function Filter<T>(keep: T -> bool, list: seq<T>): seq<T> {
    if list == [] then []
    else (if keep(list[0]) then [list[0]] else []) + Filter(keep, list[1..])
  }

  lemma {:induction false} FilterMembers<T(!new)>(keep: T -> bool, list: seq<T>, x: T)
    ensures x in Filter(keep, list) <==> x in list && keep(x)
    ensures multiset(Filter(keep, list))[x] == if keep(x) then multiset(list)[x] else 0
  {
    if list != [] {
      FilterMembers(keep, list[1..], x);
      Uncons(list);
      assert x in list <==> x == list[0] || x in list[1..];
      assert multiset(Filter(keep, list)) ==
             (if keep(list[0]) then multiset{list[0]} else multiset{}) + multiset(Filter(keep, list[1..]));
    }
  }

  lemma {:induction false} FilterOrdered<T(!new)>(less: (T, T) -> bool, keep: T -> bool, list: seq<T>)
    requires Ordered(less, list)
    ensures Ordered(less, Filter(keep, list))
  {
    if list != [] {
      FilterOrdered(less, keep, list[1..]);
      var rest := Filter(keep, list[1..]);
      forall j | 0 <= j < |rest| ensures !less(rest[j], list[0]) {
        FilterMembers(keep, list[1..], rest[j]);
      }
    }
  }

  lemma {:induction false} FilterAppend<T>(keep: T -> bool, a: seq<T>, x: T)
    ensures Filter(keep, a + [x]) == Filter(keep, a) + (if keep(x) then [x] else [])
    decreases a
  {
    var all, end := a + [x], if keep(x) then [x] else [];
    if a == [] {
      assert all == [x] && Filter(keep, [x]) == end + Filter(keep, [x][1..]);
    } else {
      assert all[0] == a[0] && all[1..] == a[1..] + [x];
      FilterAppend(keep, a[1..], x);
      var head := if keep(a[0]) then [a[0]] else [];
      assert Filter(keep, all) == head + (Filter(keep, a[1..]) + end);
    }
  }

  /** Filtering a sorted list gives the sorted filtered list. */
  lemma FilterOfSort<T(!new)>(less: (T, T) -> bool, keep: T -> bool, list: seq<T>)
    requires Lawful(less) && Separates(less, list)
    ensures Filter(keep, Sort(less, list)) == Sort(less, Filter(keep, list))
  {
    SortFacts(less, list);
    SortFacts(less, Filter(keep, list));
    var filtered, sorted := Filter(keep, Sort(less, list)), Sort(less, Filter(keep, list));
    FilterOrdered(less, keep, Sort(less, list));
    forall x ensures multiset(filtered)[x] == multiset(sorted)[x] {
      FilterMembers(keep, Sort(less, list), x);
      FilterMembers(keep, list, x);
    }
    assert multiset(filtered) == multiset(sorted);
    forall i | 0 <= i < |filtered| ensures filtered[i] in list {
      FilterMembers(keep, Sort(less, list), filtered[i]);
      assert filtered[i] in multiset(Sort(less, list));
    }
    OrderedUnique(less, filtered, sorted);
  }
}
