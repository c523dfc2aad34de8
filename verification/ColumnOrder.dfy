/** Ordering a list by one column, missing values last and ties in one order whichever way it is asked for. */
module ColumnOrder {
  import opened Wrappers
  import opened StableSorting

  /** A missing value follows every present one; a descending sort reverses only the present ones.
      Python sorts by comparing these pairs, the larger first when it reverses. */
  datatype Rank<V> = Rank(group: int, value: Option<V>)

  function RankMissingLast<V>(value: Option<V>, descending: bool): Rank<V> {
    if descending then Rank(if value.None? then 0 else 1, value) else Rank(if value.None? then 1 else 0, value)
  }

  predicate RankLe<V>(x: Rank<V>, y: Rank<V>, le: (V, V) -> bool) {
    x.group < y.group || (x.group == y.group && (x.value.None? || y.value.None? || le(x.value.value, y.value.value)))
  }

  /** The order one `list.sort` with this key, reversed or not, is stable for. */
  function ColumnLe<T, V>(value: T -> Option<V>, le: (V, V) -> bool, descending: bool): (T, T) -> bool {
    (x, y) =>
      if descending then RankLe(RankMissingLast(value(y), true), RankMissingLast(value(x), true), le)
      else RankLe(RankMissingLast(value(x), false), RankMissingLast(value(y), false), le)
  }

  function Reversed<T>(xs: seq<T>): seq<T> {
    if xs == [] then [] else [xs[|xs| - 1]] + Reversed(xs[..|xs| - 1])
  }

  lemma {:induction false} ReversedElements<T>(xs: seq<T>)
    ensures multiset(Reversed(xs)) == multiset(xs) && |Reversed(xs)| == |xs|
    ensures forall i :: 0 <= i < |xs| ==> Reversed(xs)[i] == xs[|xs| - 1 - i]
  {
    if xs != [] {
      ReversedElements(xs[..|xs| - 1]);
      assert xs == xs[..|xs| - 1] + [xs[|xs| - 1]];
    }
  }

  lemma {:induction false} ReversedTies<T(!new)>(xs: seq<T>, z: T, le: (T, T) -> bool)
    ensures Ties(Reversed(xs), z, le) == Reversed(Ties(xs, z, le))
  {
    if xs != [] {
      var front, last := xs[..|xs| - 1], xs[|xs| - 1];
      ReversedTies(front, z, le);
      TiesConcat([last], Reversed(front), z, le);
      var rest := Ties(front, z, le);
      assert (rest + [last])[..|rest|] == rest;
      assert [last][..0] == [];
    }
  }

  lemma {:induction false} ReversedTwice<T>(xs: seq<T>)
    ensures Reversed(Reversed(xs)) == xs
  {
    ReversedElements(xs);
    ReversedElements(Reversed(xs));
  }

  /** Reversing, sorting and reversing again, as `reverse=True` does, is a stable sort the other way. */
  lemma ReverseSortIsStable<T(!new)>(xs: seq<T>, le: (T, T) -> bool)
    requires TotalPreorder(le)
    ensures Reversed(Sort(Reversed(xs), le)) == Sort(xs, (x, y) => le(y, x))
  {
    var ge := (x, y) => le(y, x);
    var sorted := Sort(Reversed(xs), le);
    SortIsStable(Reversed(xs), le);
    SortIsStable(xs, ge);
    ReversedElements(sorted);
    forall i, j | 0 <= i < j < |sorted| ensures ge(Reversed(sorted)[i], Reversed(sorted)[j]) {
      assert le(sorted[|sorted| - 1 - j], sorted[|sorted| - 1 - i]);
    }
    forall z ensures Ties(Reversed(sorted), z, ge) == Ties(Sort(xs, ge), z, ge) {
      ReversedTies(sorted, z, le);
      ReversedTies(xs, z, le);
      ReversedTwice(Ties(xs, z, le));
      SameTies(Reversed(sorted), z, le, ge);
      SameTies(xs, z, le, ge);
    }
    StableSortUnique(Reversed(sorted), Sort(xs, ge), ge);
  }

  lemma {:induction false} SameTies<T(!new)>(xs: seq<T>, z: T, le: (T, T) -> bool, ge: (T, T) -> bool)
    requires forall x, y :: ge(x, y) == le(y, x)
    ensures Ties(xs, z, ge) == Ties(xs, z, le)
  {
    if xs != [] {
      SameTies(xs[..|xs| - 1], z, le, ge);
    }
  }

  function SortByColumn<T, V>(
    items: seq<T>, value: T -> Option<V>, le: (V, V) -> bool, tie: (T, T) -> bool, descending: bool): seq<T>
  {
    Sort(Sort(items, tie), ColumnLe(value, le, descending))
  }

  // -- What it means -----------------------------------------------------------------------------

  /** A missing value comes last either way; of two present values, the one asked for comes first. */
  predicate Precedes<V>(x: Option<V>, y: Option<V>, le: (V, V) -> bool, descending: bool) {
    if x.None? then y.None?
    else y.None? || (if descending then le(y.value, x.value) else le(x.value, y.value))
  }

  lemma ColumnLeMeans<T, V>(value: T -> Option<V>, le: (V, V) -> bool, descending: bool, x: T, y: T)
    ensures ColumnLe(value, le, descending)(x, y) <==> Precedes(value(x), value(y), le, descending)
  {
  }

  lemma ColumnIsPreorder<T(!new), V(!new)>(value: T -> Option<V>, le: (V, V) -> bool, descending: bool)
    requires TotalPreorder(le)
    ensures TotalPreorder(ColumnLe(value, le, descending))
  {
    var column := ColumnLe(value, le, descending);
    forall x, y ensures column(x, y) || column(y, x) {
      ColumnLeMeans(value, le, descending, x, y);
      ColumnLeMeans(value, le, descending, y, x);
    }
    forall x, y, z | column(x, y) && column(y, z) ensures column(x, z) {
      ColumnLeMeans(value, le, descending, x, y);
      ColumnLeMeans(value, le, descending, y, z);
      ColumnLeMeans(value, le, descending, x, z);
    }
  }

  /** First by the column, and among its ties by the tie-break. */
  function ThenBy<T>(column: (T, T) -> bool, tie: (T, T) -> bool): (T, T) -> bool {
    (x, y) => column(x, y) && (column(y, x) ==> tie(x, y))
  }

  lemma ThenByIsPreorder<T(!new)>(column: (T, T) -> bool, tie: (T, T) -> bool)
    requires TotalPreorder(column) && TotalPreorder(tie)
    ensures TotalPreorder(ThenBy(column, tie))
  {
  }

  lemma {:induction false} TiesThenBy<T(!new)>(xs: seq<T>, z: T, column: (T, T) -> bool, tie: (T, T) -> bool)
    ensures Ties(xs, z, ThenBy(column, tie)) == Ties(Ties(xs, z, column), z, tie)
    ensures Ties(xs, z, ThenBy(column, tie)) == Ties(Ties(xs, z, tie), z, column)
  {
    if xs != [] {
      var front, last := xs[..|xs| - 1], xs[|xs| - 1];
      TiesThenBy(front, z, column, tie);
      TiesOneMore(Ties(front, z, column), last, z, tie);
      TiesOneMore(Ties(front, z, tie), last, z, column);
    }
  }

  lemma TiesOneMore<T(!new)>(xs: seq<T>, x: T, z: T, le: (T, T) -> bool)
    ensures Ties(xs + [x], z, le) == if le(x, z) && le(z, x) then Ties(xs, z, le) + [x] else Ties(xs, z, le)
  {
  }

  lemma {:induction false} TiedInOrder<T(!new)>(xs: seq<T>, i: nat, j: nat, column: (T, T) -> bool, tie: (T, T) -> bool)
    requires TotalPreorder(column) && i < j < |xs| && column(xs[j], xs[i]) && column(xs[i], xs[j])
    requires Sorted(Ties(xs, xs[i], column), tie)
    ensures tie(xs[i], xs[j])
  {
    var front, n := xs[..|xs| - 1], |xs| - 1;
    var ties := Ties(xs, xs[i], column);
    if j < n {
      var before := Ties(front, xs[i], column);
      assert before == ties[..|before|];
      assert Sorted(before, tie) by {
        forall a, b | 0 <= a < b < |before| ensures tie(before[a], before[b]) {
          assert before[a] == ties[a] && before[b] == ties[b];
        }
      }
      TiedInOrder(front, i, j, column, tie);
    } else {
      TiesMember(front, xs[i], xs[i], column);
      assert front[i] in front;
      var a :| 0 <= a < |Ties(front, xs[i], column)| && Ties(front, xs[i], column)[a] == xs[i];
      assert ties[a] == xs[i] && ties[|ties| - 1] == xs[j];
    }
  }

  lemma {:induction false} TiesOfSorted<T(!new)>(xs: seq<T>, z: T, column: (T, T) -> bool, tie: (T, T) -> bool)
    requires Sorted(xs, tie)
    ensures Sorted(Ties(xs, z, column), tie)
  {
    if xs != [] {
      var front, last := xs[..|xs| - 1], xs[|xs| - 1];
      TiesOfSorted(front, z, column, tie);
      var before := Ties(front, z, column);
      forall a | 0 <= a < |before| ensures tie(before[a], last) {
        TiesMember(front, z, before[a], column);
        var i :| 0 <= i < |front| && front[i] == before[a];
        assert xs[i] == before[a];
      }
    }
  }

  /** Two stable passes, tie-break then column, are one stable sort by the column and then the tie-break. */
  lemma TwoPassesAreOne<T(!new)>(items: seq<T>, column: (T, T) -> bool, tie: (T, T) -> bool)
    requires TotalPreorder(column) && TotalPreorder(tie)
    ensures Sort(Sort(items, tie), column) == Sort(items, ThenBy(column, tie))
  {
    hide TotalPreorder, Sort, Ties;
    var once, twice := Sort(items, tie), Sort(Sort(items, tie), column);
    var both := ThenBy(column, tie);
    ThenByIsPreorder(column, tie);
    SortIsStable(items, tie);
    SortIsStable(once, column);
    SortIsStable(items, both);
    assert Sorted(twice, both) by { TwoPassesSorted(items, column, tie); }
    forall z ensures Ties(twice, z, both) == Ties(Sort(items, both), z, both) {
      TiesThenBy(twice, z, column, tie);
      TiesThenBy(once, z, column, tie);
      TiesThenBy(items, z, column, tie);
    }
    StableSortUnique(twice, Sort(items, both), both);
  }

  lemma TwoPassesSorted<T(!new)>(items: seq<T>, column: (T, T) -> bool, tie: (T, T) -> bool)
    requires TotalPreorder(column) && TotalPreorder(tie)
    ensures Sorted(Sort(Sort(items, tie), column), ThenBy(column, tie))
  {
    hide TotalPreorder, Sort, Ties;
    var once, twice := Sort(items, tie), Sort(Sort(items, tie), column);
    SortSorts(items, tie);
    SortIsStable(once, column);
    forall i, j | 0 <= i < j < |twice| ensures ThenBy(column, tie)(twice[i], twice[j]) {
      if column(twice[j], twice[i]) {
        TiesOfSorted(once, twice[i], column, tie);
        TiedInOrder(twice, i, j, column, tie);
      }
    }
  }

  /** The list ordered by a column: every item once, missing values last, and ties in tie-break order. */
  lemma SortedByColumn<T(!new), V(!new)>(
    items: seq<T>, value: T -> Option<V>, le: (V, V) -> bool, tie: (T, T) -> bool, descending: bool, i: nat, j: nat)
    requires TotalPreorder(le) && TotalPreorder(tie)
    ensures var sorted := SortByColumn(items, value, le, tie, descending);
      && multiset(sorted) == multiset(items)
      && (i < j < |sorted| ==>
          && Precedes(value(sorted[i]), value(sorted[j]), le, descending)
          && (Precedes(value(sorted[j]), value(sorted[i]), le, descending) ==> tie(sorted[i], sorted[j])))
  {
    hide TotalPreorder, Sort, ColumnLe;
    var column := ColumnLe(value, le, descending);
    ColumnIsPreorder(value, le, descending);
    TwoPassesSorted(items, column, tie);
    var sorted := SortByColumn(items, value, le, tie, descending);
    if i < j < |sorted| {
      assert ThenBy(column, tie)(sorted[i], sorted[j]);
      ColumnLeMeans(value, le, descending, sorted[i], sorted[j]);
      ColumnLeMeans(value, le, descending, sorted[j], sorted[i]);
    }
  }

  /** Items of one value are listed in one order, whichever way the column is asked for. */
  lemma TiesKeepOneOrder<T(!new), V(!new)>(
    items: seq<T>, value: T -> Option<V>, le: (V, V) -> bool, tie: (T, T) -> bool, z: T)
    requires TotalPreorder(le) && TotalPreorder(tie)
    ensures Ties(SortByColumn(items, value, le, tie, true), z, ColumnLe(value, le, true)) ==
      Ties(SortByColumn(items, value, le, tie, false), z, ColumnLe(value, le, false))
  {
    hide TotalPreorder, Sort, Ties, ColumnLe;
    ColumnIsPreorder(value, le, true);
    ColumnIsPreorder(value, le, false);
    SortTies(Sort(items, tie), z, ColumnLe(value, le, true));
    SortTies(Sort(items, tie), z, ColumnLe(value, le, false));
    TiesEitherWay(Sort(items, tie), value, le, z);
  }

  lemma {:induction false} TiesEitherWay<T(!new), V(!new)>(xs: seq<T>, value: T -> Option<V>, le: (V, V) -> bool, z: T)
    ensures Ties(xs, z, ColumnLe(value, le, true)) == Ties(xs, z, ColumnLe(value, le, false))
  {
    if xs != [] {
      var last := xs[|xs| - 1];
      TiesEitherWay(xs[..|xs| - 1], value, le, z);
      hide ColumnLe;
      ColumnLeMeans(value, le, true, last, z);
      ColumnLeMeans(value, le, true, z, last);
      ColumnLeMeans(value, le, false, last, z);
      ColumnLeMeans(value, le, false, z, last);
    }
  }

  /** With a tie-break that tells every two items apart, the order the items came in plays no part. */
  lemma ArrangementPlaysNoPart<T(!new), V(!new)>(
    items: seq<T>, others: seq<T>, value: T -> Option<V>, le: (V, V) -> bool, tie: (T, T) -> bool, descending: bool)
    requires TotalPreorder(tie) && multiset(items) == multiset(others)
    requires forall x, y :: x in items && y in items && tie(x, y) && tie(y, x) ==> x == y
    ensures SortByColumn(items, value, le, tie, descending) == SortByColumn(others, value, le, tie, descending)
  {
    SortIgnoresArrangement(items, others, tie);
  }
}
