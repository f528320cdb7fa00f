/** Lists: mapping, sums, stable sorting, filtering, ascending keys and the order of text. */
module Sequences {

  // ----- Mapping -----

  function Mapped<S, T>(items: seq<S>, f: S -> T): (r: seq<T>)
    ensures |r| == |items| && forall i | 0 <= i < |items| :: r[i] == f(items[i])
  {
    seq(|items|, i requires 0 <= i < |items| => f(items[i]))
  }

  // ----- Sums -----

  function Sum<T>(items: seq<T>, f: T -> real): real {
    if items == [] then 0.0 else Sum(items[..|items| - 1], f) + f(items[|items| - 1])
  }

  lemma {:induction false} SumOfSameTerms<S, T>(a: seq<S>, f: S -> real, b: seq<T>, g: T -> real)
    requires |a| == |b| && forall i | 0 <= i < |a| :: f(a[i]) == g(b[i])
    ensures Sum(a, f) == Sum(b, g)
    decreases |a|
  {
    if a != [] {
      SumOfSameTerms(a[..|a| - 1], f, b[..|b| - 1], g);
    }
  }

  lemma {:induction false} SumOfConcat<T>(a: seq<T>, b: seq<T>, f: T -> real)
    ensures Sum(a + b, f) == Sum(a, f) + Sum(b, f)
    decreases |b|
  {
    if b == [] {
      assert a + b == a;
    } else {
      assert (a + b)[..|a + b| - 1] == a + b[..|b| - 1];
      SumOfConcat(a, b[..|b| - 1], f);
    }
  }

  lemma {:induction false} SumOfNothing<T>(items: seq<T>, f: T -> real)
    requires forall x | x in items :: f(x) == 0.0
    ensures Sum(items, f) == 0.0
  {
    if items != [] {
      SumOfNothing(items[..|items| - 1], f);
    }
  }

  lemma {:induction false} SumIsMonotone<T>(items: seq<T>, f: T -> real, g: T -> real)
    requires forall x | x in items :: f(x) <= g(x)
    ensures Sum(items, f) <= Sum(items, g)
  {
    if items != [] {
      SumIsMonotone(items[..|items| - 1], f, g);
    }
  }

  lemma SumOfOne<T>(x: T, f: T -> real)
    ensures Sum([x], f) == f(x)
  {
    assert [x][..0] == [];
  }

  // ----- Stable sorting -----

  function Insert<T>(x: T, sorted: seq<T>, leq: (T, T) -> bool): (r: seq<T>)
    ensures |r| == |sorted| + 1
  {
    if sorted == [] || leq(x, sorted[0]) then [x] + sorted
    else [sorted[0]] + Insert(x, sorted[1..], leq)
  }

  /** Equal elements keep their order: each is inserted before those that follow it. */
  function Sort<T>(items: seq<T>, leq: (T, T) -> bool): (r: seq<T>)
    ensures |r| == |items|
  {
    if items == [] then [] else Insert(items[0], Sort(items[1..], leq), leq)
  }

  lemma {:induction false} InsertPermutes<T>(x: T, sorted: seq<T>, leq: (T, T) -> bool)
    ensures multiset(Insert(x, sorted, leq)) == multiset(sorted) + multiset{x}
  {
    if sorted != [] && !leq(x, sorted[0]) {
      InsertPermutes(x, sorted[1..], leq);
      assert sorted == [sorted[0]] + sorted[1..];
    }
  }

  lemma {:induction false} SortPermutes<T>(items: seq<T>, leq: (T, T) -> bool)
    ensures multiset(Sort(items, leq)) == multiset(items)
  {
    if items != [] {
      SortPermutes(items[1..], leq);
      InsertPermutes(items[0], Sort(items[1..], leq), leq);
      assert items == [items[0]] + items[1..];
    }
  }

  lemma SortKeepsMembers<T>(items: seq<T>, leq: (T, T) -> bool, x: T)
    ensures x in Sort(items, leq) <==> x in items
  {
    SortPermutes(items, leq);
    assert x in multiset(Sort(items, leq)) <==> x in multiset(items);
  }

  lemma {:induction false} InsertSum<T>(x: T, sorted: seq<T>, leq: (T, T) -> bool, f: T -> real)
    ensures Sum(Insert(x, sorted, leq), f) == f(x) + Sum(sorted, f)
  {
    SumOfOne(x, f);
    if sorted == [] || leq(x, sorted[0]) {
      SumOfConcat([x], sorted, f);
    } else {
      var rest := Insert(x, sorted[1..], leq);
      InsertSum(x, sorted[1..], leq, f);
      SumOfConcat([sorted[0]], rest, f);
      SumOfConcat([sorted[0]], sorted[1..], f);
      assert sorted == [sorted[0]] + sorted[1..];
    }
  }

  /** Sorting does not change what a list adds up to. */
  lemma {:induction false} SortSum<T>(items: seq<T>, leq: (T, T) -> bool, f: T -> real)
    ensures Sum(Sort(items, leq), f) == Sum(items, f)
  {
    if items != [] {
      SortSum(items[1..], leq, f);
      InsertSum(items[0], Sort(items[1..], leq), leq, f);
      SumOfOne(items[0], f);
      SumOfConcat([items[0]], items[1..], f);
      assert items == [items[0]] + items[1..];
    }
  }

  ghost predicate TotalPreorder<T(!new)>(leq: (T, T) -> bool) {
    && (forall x, y :: leq(x, y) || leq(y, x))
    && (forall x, y, z :: leq(x, y) && leq(y, z) ==> leq(x, z))
  }

  ghost predicate Sorted<T>(items: seq<T>, leq: (T, T) -> bool) {
    forall i, j | 0 <= i < j < |items| :: leq(items[i], items[j])
  }

  /** What bounds a list and the new element from below bounds the list with it inserted. */
  lemma {:induction false} InsertBound<T(!new)>(x: T, items: seq<T>, inserted: seq<T>, leq: (T, T) -> bool, low: T)
    requires multiset(inserted) == multiset(items) + multiset{x}
    requires leq(low, x) && forall y | y in items :: leq(low, y)
    ensures forall y | y in inserted :: leq(low, y)
  {
    forall y | y in inserted
      ensures leq(low, y)
    {
      assert y in multiset(inserted);
      assert y == x || y in multiset(items);
    }
  }

  lemma {:induction false} InsertKeepsSorted<T(!new)>(x: T, sorted: seq<T>, leq: (T, T) -> bool)
    requires TotalPreorder(leq) && Sorted(sorted, leq)
    ensures Sorted(Insert(x, sorted, leq), leq)
  {
    if sorted != [] && !leq(x, sorted[0]) {
      var rest := Insert(x, sorted[1..], leq);
      InsertKeepsSorted(x, sorted[1..], leq);
      InsertPermutes(x, sorted[1..], leq);
      InsertBound(x, sorted[1..], rest, leq, sorted[0]);
    }
  }

  lemma {:induction false} SortSorts<T(!new)>(items: seq<T>, leq: (T, T) -> bool)
    requires TotalPreorder(leq)
    ensures Sorted(Sort(items, leq), leq)
  {
    if items != [] {
      SortSorts(items[1..], leq);
      InsertKeepsSorted(items[0], Sort(items[1..], leq), leq);
    }
  }

  // ----- Filtering and ascending keys -----

  function Filter<T>(items: seq<T>, keep: T -> bool): seq<T> {
    if items == [] then []
    else
      var last := items[|items| - 1];
      Filter(items[..|items| - 1], keep) + if keep(last) then [last] else []
  }

  lemma {:induction false} FilterKeepsMatches<T>(items: seq<T>, keep: T -> bool, x: T)
    ensures x in Filter(items, keep) <==> x in items && keep(x)
  {
    if items != [] {
      FilterKeepsMatches(items[..|items| - 1], keep, x);
      assert items == items[..|items| - 1] + [items[|items| - 1]];
    }
  }

  lemma {:induction false} FilterOfConcat<T>(a: seq<T>, b: seq<T>, keep: T -> bool)
    ensures Filter(a + b, keep) == Filter(a, keep) + Filter(b, keep)
    decreases |b|
  {
    if b == [] {
      assert a + b == a;
    } else {
      assert (a + b)[..|a + b| - 1] == a + b[..|b| - 1];
      FilterOfConcat(a, b[..|b| - 1], keep);
    }
  }

  lemma {:induction false} FilterOfAll<T>(items: seq<T>, keep: T -> bool)
    requires forall i | 0 <= i < |items| :: keep(items[i])
    ensures Filter(items, keep) == items
  {
    if items != [] {
      FilterOfAll(items[..|items| - 1], keep);
    }
  }

  lemma {:induction false} FilterOfNone<T>(items: seq<T>, keep: T -> bool)
    requires forall i | 0 <= i < |items| :: !keep(items[i])
    ensures Filter(items, keep) == []
  {
    if items != [] {
      FilterOfNone(items[..|items| - 1], keep);
    }
  }

  /** Splitting a condition into two that exclude each other splits the list. */
  lemma {:induction false} FiltersPartition<T>(items: seq<T>, p: T -> bool, q: T -> bool, either: T -> bool)
    requires forall x | x in items :: either(x) == (p(x) || q(x)) && !(p(x) && q(x))
    ensures multiset(Filter(items, either)) == multiset(Filter(items, p)) + multiset(Filter(items, q))
  {
    if items != [] {
      FiltersPartition(items[..|items| - 1], p, q, either);
      assert items[|items| - 1] in items;
    }
  }

  lemma {:induction false} SumOfFiltered<T>(items: seq<T>, keep: T -> bool, f: T -> real, g: T -> real)
    requires forall x | x in items :: g(x) == if keep(x) then f(x) else 0.0
    ensures Sum(Filter(items, keep), f) == Sum(items, g)
  {
    if items != [] {
      var prior, last := items[..|items| - 1], items[|items| - 1];
      assert last in items;
      SumOfFiltered(prior, keep, f, g);
      if keep(last) {
        SumOfConcat(Filter(prior, keep), [last], f);
        SumOfOne(last, f);
      } else {
        assert Filter(items, keep) == Filter(prior, keep);
      }
    }
  }

  ghost predicate StrictlyAscending(s: seq<int>) {
    forall i, j | 0 <= i < j < |s| :: s[i] < s[j]
  }

  lemma SomeMember(s: set<int>) returns (y: int)
    requires s != {}
    ensures y in s
  {
    assert (forall x :: x !in s) ==> s == {};
    y :| y in s;
  }

  lemma {:induction false} LeastExists(s: set<int>)
    requires s != {}
    ensures exists m | m in s :: forall x | x in s :: m <= x
  {
    var y := SomeMember(s);
    var rest := s - {y};
    if rest == {} {
      assert s == {y};
      assert forall x | x in s :: y <= x;
    } else {
      LeastExists(rest);
      var m :| m in rest && forall x | x in rest :: m <= x;
      var least := if y < m then y else m;
      assert s == rest + {y};
      assert least in s && forall x | x in s :: least <= x;
    }
  }

  /** The elements of a set in ascending order. */
  function InOrder(s: set<int>): (r: seq<int>)
    ensures StrictlyAscending(r)
    ensures forall x :: x in r <==> x in s
  {
    if s == {} then []
    else
      LeastExists(s);
      var least :| least in s && forall x | x in s :: least <= x;
      var rest := InOrder(s - {least});
      assert forall x | x in rest :: least < x;
      [least] + rest
  }

  // ----- Sorting is stable -----

  lemma {:induction false} FilterFirst<T>(x: T, items: seq<T>, keep: T -> bool)
    ensures Filter([x] + items, keep) == (if keep(x) then [x] else []) + Filter(items, keep)
  {
    FilterOfConcat([x], items, keep);
    assert [x][..0] == [] && Filter([x], keep) == if keep(x) then [x] else [];
  }

  lemma {:induction false} InsertIsStable<T(!new)>(x: T, sorted: seq<T>, leq: (T, T) -> bool, alike: T -> bool)
    requires forall a, b :: alike(a) && alike(b) ==> leq(a, b)
    ensures Filter(Insert(x, sorted, leq), alike) == (if alike(x) then [x] else []) + Filter(sorted, alike)
  {
    hide Filter;
    if sorted == [] || leq(x, sorted[0]) {
      FilterFirst(x, sorted, alike);
    } else {
      InsertIsStable(x, sorted[1..], leq, alike);
      FilterFirst(sorted[0], Insert(x, sorted[1..], leq), alike);
      assert sorted == [sorted[0]] + sorted[1..];
      FilterFirst(sorted[0], sorted[1..], alike);
    }
  }

  /** Elements the order does not tell apart stay in their original order. */
  lemma {:induction false} SortIsStable<T(!new)>(items: seq<T>, leq: (T, T) -> bool, alike: T -> bool)
    requires forall a, b :: alike(a) && alike(b) ==> leq(a, b)
    ensures Filter(Sort(items, leq), alike) == Filter(items, alike)
  {
    hide Filter;
    if items != [] {
      SortIsStable(items[1..], leq, alike);
      InsertIsStable(items[0], Sort(items[1..], leq), leq, alike);
      FilterFirst(items[0], items[1..], alike);
      assert items == [items[0]] + items[1..];
    }
  }

  // ----- Lexicographic order on text -----

  predicate TextLeq(a: string, b: string) {
    if a == [] then true
    else if b == [] then false
    else if a[0] != b[0] then a[0] < b[0]
    else TextLeq(a[1..], b[1..])
  }

  lemma {:induction false} TextOrderIsTotal(a: string, b: string)
    ensures TextLeq(a, b) || TextLeq(b, a)
    ensures TextLeq(a, b) && TextLeq(b, a) ==> a == b
  {
    if a != [] && b != [] && a[0] == b[0] {
      TextOrderIsTotal(a[1..], b[1..]);
    }
  }

  lemma {:induction false} TextOrderIsTransitive(a: string, b: string, c: string)
    requires TextLeq(a, b) && TextLeq(b, c)
    ensures TextLeq(a, c)
  {
    if a != [] && b != [] && c != [] && a[0] == b[0] && b[0] == c[0] {
      TextOrderIsTransitive(a[1..], b[1..], c[1..]);
    }
  }
}
