/** Python's `sorted` and `list.sort`: a stable sort under a total preorder. */
module StableSorting {

  ghost predicate TotalPreorder<T(!new)>(le: (T, T) -> bool) {
    && (forall x, y :: le(x, y) || le(y, x))
    && (forall x, y, z :: le(x, y) && le(y, z) ==> le(x, z))
  }

  ghost predicate Sorted<T>(xs: seq<T>, le: (T, T) -> bool) {
    forall i, j :: 0 <= i < j < |xs| ==> le(xs[i], xs[j])
  }

  /** The elements of `xs` a sort cannot tell from `z`, in the order they stand. */
  function Ties<T>(xs: seq<T>, z: T, le: (T, T) -> bool): seq<T> {
    if xs == [] then []
    else
      var rest := Ties(xs[..|xs| - 1], z, le);
      var last := xs[|xs| - 1];
      if le(last, z) && le(z, last) then rest + [last] else rest
  }

  /** `ys` is `xs` sorted stably: ordered, with every tie class as it stood in `xs`. */
  ghost predicate StablySorted<T(!new)>(xs: seq<T>, ys: seq<T>, le: (T, T) -> bool) {
    Sorted(ys, le) && forall z :: Ties(ys, z, le) == Ties(xs, z, le)
  }

  /** Put `x` after every element of the sorted `xs` that does not exceed it. */
  function Insert<T>(xs: seq<T>, x: T, le: (T, T) -> bool): seq<T> {
    if xs == [] || le(xs[|xs| - 1], x) then xs + [x]
    else Insert(xs[..|xs| - 1], x, le) + [xs[|xs| - 1]]
  }

  function Sort<T>(xs: seq<T>, le: (T, T) -> bool): (ys: seq<T>)
    ensures multiset(ys) == multiset(xs)
  {
    if xs == [] then []
    else
      assert xs == xs[..|xs| - 1] + [xs[|xs| - 1]];
      InsertElements(Sort(xs[..|xs| - 1], le), xs[|xs| - 1], le);
      Insert(Sort(xs[..|xs| - 1], le), xs[|xs| - 1], le)
  }

  lemma {:induction false} InsertElements<T>(xs: seq<T>, x: T, le: (T, T) -> bool)
    ensures multiset(Insert(xs, x, le)) == multiset(xs) + multiset{x}
  {
    if xs != [] && !le(xs[|xs| - 1], x) {
      InsertElements(xs[..|xs| - 1], x, le);
      assert xs == xs[..|xs| - 1] + [xs[|xs| - 1]];
    }
  }

  lemma {:induction false} InsertSorted<T(!new)>(xs: seq<T>, x: T, le: (T, T) -> bool)
    requires TotalPreorder(le) && Sorted(xs, le)
    ensures Sorted(Insert(xs, x, le), le)
  {
    if xs != [] && !le(xs[|xs| - 1], x) {
      var front, last := xs[..|xs| - 1], xs[|xs| - 1];
      InsertSorted(front, x, le);
      InsertElements(front, x, le);
      var placed := Insert(front, x, le);
      forall i | 0 <= i < |placed| ensures le(placed[i], last) {
        assert placed[i] in multiset(placed);
        assert placed[i] in front || placed[i] == x;
      }
    } else if xs != [] {
      var last := xs[|xs| - 1];
      assert forall i :: 0 <= i < |xs| ==> le(xs[i], last);
    }
  }

  lemma {:induction false} TiesConcat<T>(xs: seq<T>, ys: seq<T>, z: T, le: (T, T) -> bool)
    ensures Ties(xs + ys, z, le) == Ties(xs, z, le) + Ties(ys, z, le)
  {
    if ys == [] {
      assert xs + ys == xs;
    } else {
      TiesConcat(xs, ys[..|ys| - 1], z, le);
      assert (xs + ys)[..|xs + ys| - 1] == xs + ys[..|ys| - 1];
    }
  }

  lemma {:induction false} InsertTies<T(!new)>(xs: seq<T>, x: T, z: T, le: (T, T) -> bool)
    requires TotalPreorder(le) && Sorted(xs, le)
    ensures Ties(Insert(xs, x, le), z, le) == Ties(xs + [x], z, le)
  {
    if xs != [] && !le(xs[|xs| - 1], x) {
      var front, last := xs[..|xs| - 1], xs[|xs| - 1];
      InsertTies(front, x, z, le);
      assert xs == front + [last];
      TiesConcat(front, [x], z, le);
      TiesConcat(Insert(front, x, le), [last], z, le);
      TiesConcat(xs, [x], z, le);
      TiesConcat(front, [last], z, le);
      // `last` exceeds `x`, so at most one of them ties with `z`.
      assert Ties([last], z, le) == [] || Ties([x], z, le) == [];
    }
  }

  lemma {:induction false} SortSorts<T(!new)>(xs: seq<T>, le: (T, T) -> bool)
    requires TotalPreorder(le)
    ensures Sorted(Sort(xs, le), le)
  {
    hide TotalPreorder;
    if xs != [] {
      SortSorts(xs[..|xs| - 1], le);
      InsertSorted(Sort(xs[..|xs| - 1], le), xs[|xs| - 1], le);
    }
  }

  lemma {:induction false} SortTies<T(!new)>(xs: seq<T>, z: T, le: (T, T) -> bool)
    requires TotalPreorder(le)
    ensures Ties(Sort(xs, le), z, le) == Ties(xs, z, le)
  {
    hide *;
    if xs == [] {
      NothingTies(z, le);
    } else {
      SortTies(xs[..|xs| - 1], z, le);
      SortSorts(xs[..|xs| - 1], le);
      InsertedTies(Sort(xs[..|xs| - 1], le), xs[..|xs| - 1], xs[|xs| - 1], z, le);
      SortInserts(xs, le);
      assert xs == xs[..|xs| - 1] + [xs[|xs| - 1]];
    }
  }

  lemma NothingTies<T(!new)>(z: T, le: (T, T) -> bool)
    ensures Sort([], le) == [] && Ties([], z, le) == []
  {
  }

  lemma SortInserts<T(!new)>(xs: seq<T>, le: (T, T) -> bool)
    requires xs != []
    ensures Sort(xs, le) == Insert(Sort(xs[..|xs| - 1], le), xs[|xs| - 1], le)
  {
  }

  lemma InsertedTies<T(!new)>(sorted: seq<T>, xs: seq<T>, x: T, z: T, le: (T, T) -> bool)
    requires TotalPreorder(le) && Sorted(sorted, le) && Ties(sorted, z, le) == Ties(xs, z, le)
    ensures Ties(Insert(sorted, x, le), z, le) == Ties(xs + [x], z, le)
  {
    hide *;
    InsertTies(sorted, x, z, le);
    TiesConcat(sorted, [x], z, le);
    TiesConcat(xs, [x], z, le);
  }

  lemma SortIsStable<T(!new)>(xs: seq<T>, le: (T, T) -> bool)
    requires TotalPreorder(le)
    ensures StablySorted(xs, Sort(xs, le), le)
  {
    hide TotalPreorder;
    SortSorts(xs, le);
    forall z ensures Ties(Sort(xs, le), z, le) == Ties(xs, z, le) {
      SortTies(xs, z, le);
    }
  }

  lemma {:induction false} TiesHead<T(!new)>(xs: seq<T>, z: T, le: (T, T) -> bool)
    requires xs != [] && le(xs[0], z) && le(z, xs[0])
    ensures Ties(xs, z, le) == [xs[0]] + Ties(xs[1..], z, le)
  {
    TiesConcat(xs[..1], xs[1..], z, le);
    assert xs == xs[..1] + xs[1..];
    assert xs[..1][..0] == [];
  }

  lemma {:induction false} TiesMember<T(!new)>(xs: seq<T>, z: T, x: T, le: (T, T) -> bool)
    ensures x in Ties(xs, z, le) <==> x in xs && le(x, z) && le(z, x)
  {
    if xs != [] {
      TiesMember(xs[..|xs| - 1], z, x, le);
      assert xs == xs[..|xs| - 1] + [xs[|xs| - 1]];
    }
  }

  lemma TiesOfRest<T(!new)>(xs: seq<T>, ys: seq<T>, z: T, le: (T, T) -> bool)
    requires xs != [] && ys != [] && xs[0] == ys[0] && Ties(xs, z, le) == Ties(ys, z, le)
    ensures Ties(xs[1..], z, le) == Ties(ys[1..], z, le)
  {
    hide Ties;
    TiesConcat(xs[..1], xs[1..], z, le);
    TiesConcat(ys[..1], ys[1..], z, le);
    assert xs == xs[..1] + xs[1..] && ys == ys[..1] + ys[1..];
    assert xs[..1] == ys[..1];
    assert Ties(xs[1..], z, le) == Ties(xs, z, le)[|Ties(xs[..1], z, le)|..];
    assert Ties(ys[1..], z, le) == Ties(ys, z, le)[|Ties(ys[..1], z, le)|..];
  }

  /** A stable sort has one result: order and tie classes leave nothing to choose. */
  lemma {:induction false} StableSortUnique<T(!new)>(xs: seq<T>, ys: seq<T>, le: (T, T) -> bool)
    requires TotalPreorder(le) && Sorted(xs, le) && Sorted(ys, le)
    requires forall z :: Ties(xs, z, le) == Ties(ys, z, le)
    ensures xs == ys
    decreases |xs|
  {
    if xs == [] {
      if ys != [] {
        TiesMember(ys, ys[0], ys[0], le);
      }
    } else {
      hide Ties;
      var x := xs[0];
      TiesMember(xs, x, x, le);
      TiesMember(ys, x, x, le);
      var y := ys[0];
      TiesMember(ys, y, y, le);
      TiesMember(xs, y, y, le);
      assert le(x, y) && le(y, x);
      TiesHead(xs, x, le);
      TiesHead(ys, x, le);
      assert x == Ties(xs, x, le)[0] == Ties(ys, x, le)[0] == y;
      forall z ensures Ties(xs[1..], z, le) == Ties(ys[1..], z, le) {
        TiesOfRest(xs, ys, z, le);
      }
      StableSortUnique(xs[1..], ys[1..], le);
    }
  }

  /** Elements that a total order tells apart are sorted to one result from any arrangement. */
  lemma SortIgnoresArrangement<T(!new)>(xs: seq<T>, ys: seq<T>, le: (T, T) -> bool)
    requires TotalPreorder(le)
    requires forall x, y :: x in xs && y in xs && le(x, y) && le(y, x) ==> x == y
    requires multiset(xs) == multiset(ys)
    ensures Sort(xs, le) == Sort(ys, le)
  {
    SortIsStable(xs, le);
    SortIsStable(ys, le);
    forall z ensures Ties(xs, z, le) == Ties(ys, z, le) {
      TiesOfEqualElements(xs, ys, z, le);
    }
    StableSortUnique(Sort(xs, le), Sort(ys, le), le);
  }

  lemma {:induction false} TiesCount<T(!new)>(xs: seq<T>, z: T, x: T, le: (T, T) -> bool)
    ensures multiset(Ties(xs, z, le))[x] == if le(x, z) && le(z, x) then multiset(xs)[x] else 0
  {
    if xs != [] {
      TiesCount(xs[..|xs| - 1], z, x, le);
      assert multiset(xs) == multiset(xs[..|xs| - 1]) + multiset{xs[|xs| - 1]} by {
        assert xs == xs[..|xs| - 1] + [xs[|xs| - 1]];
      }
    }
  }

  lemma TiesOfEqualElements<T(!new)>(xs: seq<T>, ys: seq<T>, z: T, le: (T, T) -> bool)
    requires TotalPreorder(le)
    requires forall x, y :: x in xs && y in xs && le(x, y) && le(y, x) ==> x == y
    requires multiset(xs) == multiset(ys)
    ensures Ties(xs, z, le) == Ties(ys, z, le)
  {
    hide Ties, TotalPreorder;
    var a, b := Ties(xs, z, le), Ties(ys, z, le);
    forall x ensures multiset(a)[x] == multiset(b)[x] {
      TiesCount(xs, z, x, le);
      TiesCount(ys, z, x, le);
    }
    assert multiset(a) == multiset(b);
    assert |a| == |multiset(a)| == |multiset(b)| == |b|;
    forall i | 0 <= i < |a| ensures a[i] == b[i] {
      TiesMember(xs, z, a[i], le);
      TiesMember(ys, z, b[i], le);
      assert b[i] in multiset(ys);
      assert b[i] in xs;
      EqualTies(a[i], b[i], z, le);
    }
  }

  lemma EqualTies<T(!new)>(x: T, y: T, z: T, le: (T, T) -> bool)
    requires TotalPreorder(le) && le(x, z) && le(z, x) && le(y, z) && le(z, y)
    ensures le(x, y) && le(y, x)
  {
  }
}
