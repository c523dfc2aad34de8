/** Filtering and ordering a local collection, and walking it a page at a time. */
module IssuePages {
  import opened Wrappers
  import opened StableSorting
  import opened ColumnOrder

  const MAX_PAGE_SIZE: nat := 100

  datatype Column =
    Number | Priority | Labels | ProjectLabel | Assignees | Author | Milestone | Type | Comments | Created | LastAction

  /** What a request asks to be ordered by: nothing in particular, a column, or something unknown. */
  datatype Ordering = ProviderDefault | ByColumn(column: Column, descending: bool) | Unsupported

  /** A search's own sort overrides the ordering. */
  datatype SearchSort = SearchSort(created: bool, descending: bool)

  datatype Request = Request(
    pageSize: nat,
    ordering: Ordering,
    sort: Option<SearchSort>,
    refused: bool,
    sameConfiguration: bool)

  datatype Refusal = ConfigurationChanged | SearchRefused | UnsupportedOrdering | InvalidContinuation

  /** The documents as read, with what a search and a column make of each. */
  datatype Collection<!T, !V> = Collection(
    records: seq<T>,
    matches: T -> bool,
    value: (T, Column) -> Option<V>,
    le: (V, V) -> bool,
    tie: (T, T) -> bool)

  datatype Page<T> = Page(items: seq<T>, matched: nat, next: Option<nat>)

  predicate ValidRequest(request: Request) { 1 <= request.pageSize <= MAX_PAGE_SIZE }

  /** The ordering a page follows. Nothing is left in the order it was read in. */
  function Effective(request: Request): Ordering {
    match request.sort
    case Some(sort) => ByColumn(if sort.created then Created else LastAction, sort.descending)
    case None => if request.ordering == ProviderDefault then ByColumn(LastAction, true) else request.ordering
  }

  function Filtered<T>(records: seq<T>, matches: T -> bool): seq<T> {
    if records == [] then []
    else
      var rest := Filtered(records[..|records| - 1], matches);
      if matches(records[|records| - 1]) then rest + [records[|records| - 1]] else rest
  }

  function ValueOf<T, V>(all: Collection<T, V>, column: Column): T -> Option<V> { x => all.value(x, column) }

  /** The whole result of a request: what matches, in the column's order. */
  function Ordered<T, V>(all: Collection<T, V>, request: Request): seq<T>
    requires Effective(request).ByColumn?
  {
    var ordering := Effective(request);
    SortByColumn(Filtered(all.records, all.matches), ValueOf(all, ordering.column), all.le, all.tie,
                 ordering.descending)
  }

  function Least(a: nat, b: nat): nat { if a <= b then a else b }

  function PageAt<T>(sorted: seq<T>, offset: nat, size: nat): Page<T>
    requires offset <= |sorted|
  {
    var end := Least(offset + size, |sorted|);
    Page(sorted[offset..end], |sorted|, if end < |sorted| then Some(end) else None)
  }

  /** One page: of the whole result, from its start or from where a continuation left off. */
  function Fetched<T, V>(all: Collection<T, V>, request: Request, token: Option<nat>): Result<Page<T>, Refusal> {
    if !request.sameConfiguration then Failure(ConfigurationChanged)
    else if request.refused then Failure(SearchRefused)
    else if !Effective(request).ByColumn? then Failure(UnsupportedOrdering)
    else if token.Some? && token.value >= |Ordered(all, request)| then Failure(InvalidContinuation)
    else Success(PageAt(Ordered(all, request), token.GetOr(0), request.pageSize))
  }

  lemma TwoSorts<T, V>(items: seq<T>, value: T -> Option<V>, le: (V, V) -> bool, tie: (T, T) -> bool, descending: bool)
    ensures Sort(Sort(items, tie), ColumnLe(value, le, descending)) == SortByColumn(items, value, le, tie, descending)
  {
  }

  method FetchPage<T, V>(all: Collection<T, V>, request: Request, token: Option<nat>)
    returns (page: Result<Page<T>, Refusal>)
    requires ValidRequest(request)
    ensures page == Fetched(all, request, token)
  {
    hide SortByColumn, Sort, ColumnLe, ValueOf;
    if !request.sameConfiguration { return Failure(ConfigurationChanged); }
    if request.refused { return Failure(SearchRefused); }
    var records: seq<T> := [];
    for i := 0 to |all.records|
      invariant records == Filtered(all.records[..i], all.matches)
    {
      assert all.records[..i + 1][..i] == all.records[..i];
      if all.matches(all.records[i]) {
        records := records + [all.records[i]];
      }
    }
    assert all.records[..|all.records|] == all.records;
    var ordering := if request.ordering == ProviderDefault then ByColumn(LastAction, true) else request.ordering;
    if request.sort.Some? {
      var column := if request.sort.value.created then Created else LastAction;
      ordering := ByColumn(column, request.sort.value.descending);
    }
    if !ordering.ByColumn? { return Failure(UnsupportedOrdering); }
    TwoSorts(records, ValueOf(all, ordering.column), all.le, all.tie, ordering.descending);
    records := Sort(records, all.tie);
    records := Sort(records, ColumnLe(ValueOf(all, ordering.column), all.le, ordering.descending));
    var offset := token.GetOr(0);
    if token.Some? && offset >= |records| { return Failure(InvalidContinuation); }
    var end := if offset + request.pageSize < |records| then offset + request.pageSize else |records|;
    page := Success(Page(records[offset..end], |records|, if end < |records| then Some(end) else None));
  }

  // -- Walking continuations ---------------------------------------------------------------------

  /** Every page from `token` on, each continuation followed in turn. */
  function Walked<T, V>(all: Collection<T, V>, request: Request, token: Option<nat>): Result<seq<Page<T>>, Refusal>
    requires ValidRequest(request)
    decreases if Effective(request).ByColumn? && token.GetOr(0) < |Ordered(all, request)|
              then |Ordered(all, request)| - token.GetOr(0) else 0
  {
    match Fetched(all, request, token)
    case Failure(refusal) => Failure(refusal)
    case Success(page) =>
      if page.next.None? then Success([page])
      else
        match Walked(all, request, page.next)
        case Failure(refusal) => Failure(refusal)
        case Success(rest) => Success([page] + rest)
  }

  function Items<T>(pages: seq<Page<T>>): seq<T> {
    if pages == [] then [] else pages[0].items + Items(pages[1..])
  }

  /** `count` pages of `size` are as few as hold `n` items; an empty result still has one. */
  predicate FewestPages(count: nat, n: nat, size: nat) {
    count >= 1 && n <= count * size && (count > 1 ==> (count - 1) * size < n)
  }

  lemma OnePageMore(count: nat, n: nat, size: nat)
    requires n > size && FewestPages(count, n - size, size)
    ensures FewestPages(1 + count, n, size)
  {
  }

  lemma OnePageIsEnough(n: nat, size: nat)
    requires n <= size
    ensures FewestPages(1, n, size)
  {
  }

  /** The source still has the configuration it was opened with, takes the search, and is asked for
      an order it knows. A search's own sort is always one, whatever else was asked for. */
  predicate Answerable(request: Request) {
    request.sameConfiguration && !request.refused && (request.sort.Some? || request.ordering != Unsupported)
  }

  /** A page that is answered, and how the walk goes on from it. */
  lemma OnePageWalked<T, V>(all: Collection<T, V>, request: Request, token: Option<nat>)
    requires ValidRequest(request) && Answerable(request)
    requires token.Some? ==> token.value < |Ordered(all, request)|
    ensures var page := PageAt(Ordered(all, request), token.GetOr(0), request.pageSize);
      && Fetched(all, request, token) == Success(page)
      && (page.next.None? ==> Walked(all, request, token) == Success([page]))
      && (page.next.Some? ==> page.next.value < |Ordered(all, request)|)
      && (page.next.Some? && Walked(all, request, page.next).Success? ==>
          Walked(all, request, token) == Success([page] + Walked(all, request, page.next).value))
  {
    hide Ordered;
  }

  /** A walk from any place in the result yields the rest of it, in as few pages as hold it. */
  lemma {:induction false} WalkFrom<T, V>(all: Collection<T, V>, request: Request, token: Option<nat>)
    requires ValidRequest(request) && Answerable(request)
    requires token.Some? ==> token.value < |Ordered(all, request)|
    ensures Walked(all, request, token).Success?
    ensures var pages, sorted := Walked(all, request, token).value, Ordered(all, request);
      && Items(pages) == sorted[token.GetOr(0)..]
      && FewestPages(|pages|, |sorted| - token.GetOr(0), request.pageSize)
      && forall page :: page in pages ==> |page.items| <= request.pageSize && page.matched == |sorted|
    decreases |Ordered(all, request)| - token.GetOr(0)
  {
    hide Ordered, Items, FewestPages, Fetched, Walked;
    var sorted, offset, size := Ordered(all, request), token.GetOr(0), request.pageSize;
    var page := PageAt(sorted, offset, size);
    OnePageWalked(all, request, token);
    if page.next.Some? {
      WalkFrom(all, request, page.next);
      var rest := Walked(all, request, page.next).value;
      OnePageMore(|rest|, |sorted| - offset, size);
      MoreItems(page, rest);
      assert sorted[offset..] == page.items + sorted[page.next.value..];
    } else {
      assert FewestPages(1, |sorted| - offset, size) by { OnePageIsEnough(|sorted| - offset, size); }
      MoreItems(page, []);
      assert [page] + [] == [page];
    }
  }

  lemma MoreItems<T>(page: Page<T>, rest: seq<Page<T>>)
    ensures Items([page] + rest) == page.items + Items(rest)
    ensures Items<T>([]) == []
  {
  }

  lemma {:induction false} FilteredKeepsMatches<T(!new)>(records: seq<T>, matches: T -> bool, x: T)
    ensures multiset(Filtered(records, matches))[x] == if matches(x) then multiset(records)[x] else 0
  {
    if records != [] {
      FilteredKeepsMatches(records[..|records| - 1], matches, x);
      assert multiset(records) == multiset(records[..|records| - 1]) + multiset{records[|records| - 1]} by {
        assert records == records[..|records| - 1] + [records[|records| - 1]];
      }
    }
  }

  /** In a column's order: missing values last, and of one value by the tie-break. */
  predicate InColumnOrder<T, V>(all: Collection<T, V>, first: T, second: T, column: Column, descending: bool) {
    var a, b := all.value(first, column), all.value(second, column);
    && Precedes(a, b, all.le, descending)
    && (Precedes(b, a, all.le, descending) ==> all.tie(first, second))
  }

  /** What a request asks of two items when the first is listed before the second. */
  predicate AsAsked<T, V>(all: Collection<T, V>, request: Request, first: T, second: T) {
    && (request.sort == Some(SearchSort(true, true)) ==> InColumnOrder(all, first, second, Created, true))
    && (request.sort == Some(SearchSort(true, false)) ==> InColumnOrder(all, first, second, Created, false))
    && (request.sort == Some(SearchSort(false, true)) ==> InColumnOrder(all, first, second, LastAction, true))
    && (request.sort == Some(SearchSort(false, false)) ==> InColumnOrder(all, first, second, LastAction, false))
    && (request.sort.None? && request.ordering.ByColumn? ==>
        InColumnOrder(all, first, second, request.ordering.column, request.ordering.descending))
    && (request.sort.None? && request.ordering.ProviderDefault? ==>
        InColumnOrder(all, first, second, LastAction, true))
  }

  /** From page one over an unchanged collection: every match exactly once, each page in the order
      asked for after the one before it, in the fewest pages. */
  lemma WalkIsTheWholeResult<T(!new), V(!new)>(all: Collection<T, V>, request: Request, x: T, i: nat, j: nat)
    requires ValidRequest(request) && Answerable(request)
    requires TotalPreorder(all.le) && TotalPreorder(all.tie)
    ensures Walked(all, request, None).Success?
    ensures var pages := Walked(all, request, None).value;
      var items := Items(pages);
      && multiset(items)[x] == (if all.matches(x) then multiset(all.records)[x] else 0)
      && FewestPages(|pages|, |items|, request.pageSize)
      && (i < j < |items| ==> AsAsked(all, request, items[i], items[j]))
  {
    hide TotalPreorder, SortByColumn, Filtered, Walked, FewestPages, Precedes;
    var ordering := Effective(request);
    WalkFrom(all, request, None);
    assert Ordered(all, request)[0..] == Ordered(all, request);
    SortedByColumn(Filtered(all.records, all.matches), ValueOf(all, ordering.column), all.le, all.tie,
                   ordering.descending, i, j);
    FilteredKeepsMatches(all.records, all.matches, x);
  }

  /** What is refused, and for which of the reasons: a changed configuration before an unanswerable
      search, that before an unknown ordering, and that before a continuation that is past the matches. */
  lemma RefusedForTheFirstReason<T, V>(all: Collection<T, V>, request: Request, token: Option<nat>)
    requires ValidRequest(request)
    ensures var page, known := Fetched(all, request, token), request.sort.Some? || request.ordering != Unsupported;
      && (page == Failure(ConfigurationChanged) <==> !request.sameConfiguration)
      && (page == Failure(SearchRefused) <==> request.sameConfiguration && request.refused)
      && (page == Failure(UnsupportedOrdering) <==> request.sameConfiguration && !request.refused && !known)
      && (page == Failure(InvalidContinuation) <==>
          Answerable(request) && token.Some? && token.value >= |Filtered(all.records, all.matches)|)
  {
    hide SortByColumn;
    if Answerable(request) {
      var ordering := Effective(request);
      SortedKeepsLength(Filtered(all.records, all.matches), ValueOf(all, ordering.column), all.le, all.tie,
                        ordering.descending);
    }
  }

  lemma SortedKeepsLength<T, V>(
    items: seq<T>, value: T -> Option<V>, le: (V, V) -> bool, tie: (T, T) -> bool, descending: bool)
    ensures |SortByColumn(items, value, le, tie, descending)| == |items|
  {
    hide *;
    TwoSorts(items, value, le, tie, descending);
    assert |multiset(Sort(items, tie))| == |multiset(items)|;
    assert |multiset(Sort(Sort(items, tie), ColumnLe(value, le, descending)))| == |multiset(Sort(items, tie))|;
  }

  /** A continuation fails exactly when the result has shrunk to where it left off, or before. */
  lemma ContinuationIsGoodWhileItFits<T, V>(all: Collection<T, V>, request: Request, token: nat)
    requires ValidRequest(request) && Answerable(request)
    ensures Fetched(all, request, Some(token)).Success? <==> token < |Ordered(all, request)|
    ensures Fetched(all, request, Some(token)).Success? ==> Fetched(all, request, Some(token)).value.items != []
    ensures Fetched(all, request, None).Success?
    ensures var first := Fetched(all, request, None).value;
      first.next.Some? ==> first.next.value > 0 && Fetched(all, request, first.next).Success?
  {
    hide Ordered;
  }
}
