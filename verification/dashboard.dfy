/** The search page: favorite toggling with its write-back to browser storage,
    the initial favorite load, the query parameters of a search, the page
    count, and the page reset when the breed filter or the sort order changes. */
module Dashboard {

  import opened Optional
  import opened IdLists
  import opened Decimal
  import opened Dogs

  /** Number of results requested per page. */
  const PageSize: nat := 20

  datatype SortOrder = Asc | Desc

  /** Query parameters sent with a search. The optional zip-code and age
      parameters of the service are never set by this page. */
  datatype SearchParams = SearchParams(
    breeds: seq<string>,
    sort: string,
    size: nat,
    from: string)

  /** What the search endpoint returns that the page uses. */
  datatype SearchResponse = SearchResponse(resultIds: seq<string>, total: nat)

  /** Component state of the search page. `favorites` is the favorite id set
      in insertion order, as a JavaScript `Set` keeps it. */
  datatype DashboardState = DashboardState(
    breeds: seq<string>,
    selectedBreeds: seq<string>,
    dogs: seq<Dog>,
    favorites: seq<string>,
    sortOrder: SortOrder,
    currentPage: int,
    totalPages: int,
    loading: bool)

  /** A `Set` never holds an id twice. */
  predicate Valid(st: DashboardState) {
    NoDup(st.favorites)
  }

  /** Result of a toggle: the new state and the id list written to storage. */
  datatype Toggled = Toggled(state: DashboardState, written: seq<string>)

  /** The requests a search makes and the state it leaves behind.
      `bulkRequest` is None when the search call failed and no record
      lookup was made. */
  datatype SearchStep = SearchStep(
    query: SearchParams,
    bulkRequest: Option<seq<string>>,
    state: DashboardState)

  // ---------------------------------------------------------------------
  // Sort key

  function OrderText(order: SortOrder): string {
    match order
    case Asc => "asc"
    case Desc => "desc"
  }

  /** The `sort` parameter: the field name, a colon, then the direction. */
  function SortKey(order: SortOrder): (k: string)
    ensures |k| > 6 && k[..6] == "breed:"
    ensures k[6..] == OrderText(order)
  {
    "breed:" + OrderText(order)
  }

  /** Reads a sort parameter back into the order it names. */
  function ParseSortKey(k: string): Option<SortOrder> {
    if |k| >= 6 && k[..6] == "breed:" then
      if k[6..] == "asc" then Some(Asc)
      else if k[6..] == "desc" then Some(Desc)
      else None
    else None
  }

  /** Every sort order is recovered from its sort key, so distinct orders
      give distinct keys. */
  lemma SortKeyRoundTrip(order: SortOrder)
    ensures ParseSortKey(SortKey(order)) == Some(order)
  {
  }

  // ---------------------------------------------------------------------
  // Pagination arithmetic

  /** Index of the first result of 1-based page `page`. */
  function Offset(page: int): (r: int)
    ensures page >= 1 ==> r >= 0
    ensures r % PageSize == 0 && r / PageSize == page - 1
  {
    (page - 1) * PageSize
  }

  /** `Math.ceil(total / 20)`: the least number of full pages that hold
      `total` results. It is 0 when there are no results. */
  function TotalPages(total: nat): (r: nat)
    ensures r * PageSize >= total
    ensures r > 0 ==> (r - 1) * PageSize < total
    ensures r == 0 <==> total == 0
  {
    (total + PageSize - 1) / PageSize
  }

  /** A page from 1 on starts inside the result list exactly when it is at
      most the page count. */
  lemma PageStartsInsideResults(total: nat, page: int)
    requires page >= 1
    ensures Offset(page) < total <==> page <= TotalPages(total)
  {
  }

  /** Query parameters for page `page` under the given filter and order. */
  function SearchQuery(selected: seq<string>, order: SortOrder, page: int): (q: SearchParams)
    ensures q.breeds == selected
    ensures q.size == PageSize
    ensures ParseSortKey(q.sort) == Some(order)
    ensures ParseInt(q.from) == Some((page - 1) * PageSize)
  {
    SortKeyRoundTrip(order);
    IntToStringRoundTrip(Offset(page));
    SearchParams(selected, SortKey(order), PageSize, IntToString(Offset(page)))
  }

  /** The query the page issues for its current filter, order and page. */
  function SearchFor(st: DashboardState): (q: SearchParams)
    ensures q.breeds == st.selectedBreeds && q.size == PageSize
    ensures ParseSortKey(q.sort) == Some(st.sortOrder)
    ensures ParseInt(q.from) == Some((st.currentPage - 1) * PageSize)
  {
    SearchQuery(st.selectedBreeds, st.sortOrder, st.currentPage)
  }

  /** Pages 1 and 3 of a Boxer search sorted ascending. */
  lemma SearchQueryExamples()
    ensures SearchQuery(["Boxer"], Asc, 1) == SearchParams(["Boxer"], "breed:asc", 20, "0")
    ensures SearchQuery(["Boxer"], Asc, 3).from == "40"
  {
  }

  // ---------------------------------------------------------------------
  // Mount and favorites

  /** State after mounting, given the stored favorite id list (None when the
      storage key is absent, which reads as an empty list). The first search
      has not completed yet. */
  function Mount(saved: Option<seq<string>>): (st: DashboardState)
    ensures Valid(st)
    ensures Elems(st.favorites) == Elems(saved.ValueOr([]))
    ensures saved.None? ==> st.favorites == []
    ensures NoDup(saved.ValueOr([])) ==> st.favorites == saved.ValueOr([])
    ensures st.breeds == [] && st.dogs == []
    ensures st.selectedBreeds == [] && st.sortOrder == Asc
    ensures st.currentPage == 1 && st.totalPages == 1 && st.loading
  {
    var stored := saved.ValueOr([]);
    assert NoDup(stored) ==> FromList(stored) == stored by {
      if NoDup(stored) {
        FromListOfNoDup(stored);
      }
    }
    DashboardState([], [], [], FromList(stored), Asc, 1, 1, true)
  }

  /** Outcome of the breed-list request: the list on success, no change on
      failure. */
  function BreedsLoaded(st: DashboardState, response: Option<seq<string>>): (r: DashboardState)
    ensures response.Some? ==> r.breeds == response.value
    ensures r == st.(breeds := r.breeds)
    ensures response.None? ==> r == st
  {
    match response
    case Some(list) => st.(breeds := list)
    case None => st
  }

  /** Adds `id` to the favorites if absent, removes it if present, and writes
      the whole new set back to storage. */
  function ToggleFavorite(st: DashboardState, id: string): (r: Toggled)
    requires Valid(st)
    ensures Valid(r.state)
    ensures id in st.favorites ==> Elems(r.state.favorites) == Elems(st.favorites) - {id}
    ensures id !in st.favorites ==> Elems(r.state.favorites) == Elems(st.favorites) + {id}
    ensures forall other :: other != id ==> (other in r.state.favorites <==> other in st.favorites)
    ensures r.state == st.(favorites := r.state.favorites)
    ensures NoDup(r.written) && Elems(r.written) == Elems(r.state.favorites)
  {
    var favorites := if id in st.favorites then Delete(st.favorites, id) else Add(st.favorites, id);
    Toggled(st.(favorites := favorites), favorites)
  }

  /** Toggling an id twice restores the favorite set and the rest of the state. */
  lemma ToggleTwiceRestoresSet(st: DashboardState, id: string)
    requires Valid(st)
    ensures var twice := ToggleFavorite(ToggleFavorite(st, id).state, id).state;
      Elems(twice.favorites) == Elems(st.favorites) && twice == st.(favorites := twice.favorites)
  {
  }

  /** The written lists of a double toggle. For an id that was absent the
      second write equals the list before the first toggle; for an id that
      was present the id comes back at the end of the list. */
  lemma ToggleTwiceWrites(st: DashboardState, id: string)
    requires Valid(st)
    ensures id !in st.favorites ==> ToggleFavorite(ToggleFavorite(st, id).state, id).written == st.favorites
    ensures id in st.favorites ==> ToggleFavorite(ToggleFavorite(st, id).state, id).written == Without(st.favorites, id) + [id]
  {
    var once := ToggleFavorite(st, id).state.favorites;
    if id !in st.favorites {
      assert once == st.favorites + [id];
      assert Without(once, id) == st.favorites by {
        WithoutAppendAbsent(st.favorites, id);
      }
    } else {
      assert once == Without(st.favorites, id);
    }
  }

  /** What a toggle writes is read back by the next mount as exactly the
      in-memory favorite set, in the same order. */
  lemma ToggleThenRemount(st: DashboardState, id: string)
    requires Valid(st)
    ensures Mount(Some(ToggleFavorite(st, id).written)).favorites == ToggleFavorite(st, id).state.favorites
  {
    FromListOfNoDup(ToggleFavorite(st, id).written);
  }

  // ---------------------------------------------------------------------
  // Filter, order and page changes

  /** New breed selection: the page goes back to 1. */
  function SelectBreeds(st: DashboardState, values: seq<string>): (r: DashboardState)
    ensures r.selectedBreeds == values && r.currentPage == 1
    ensures r == st.(selectedBreeds := values, currentPage := 1)
  {
    st.(selectedBreeds := values, currentPage := 1)
  }

  /** New sort order: the page goes back to 1. */
  function ChangeSort(st: DashboardState, order: SortOrder): (r: DashboardState)
    ensures r.sortOrder == order && r.currentPage == 1
    ensures r == st.(sortOrder := order, currentPage := 1)
  {
    st.(sortOrder := order, currentPage := 1)
  }

  /** The pagination control selects page `page`. */
  function ChangePage(st: DashboardState, page: int): (r: DashboardState)
    ensures r.currentPage == page
    ensures r == st.(currentPage := page)
  {
    st.(currentPage := page)
  }

  /** After a filter or order change, whatever page was showing, the next
      search asks for the first 20 results under the new filter or order. */
  lemma ResetQueriesFirstPage(st: DashboardState, values: seq<string>, order: SortOrder)
    ensures SearchFor(SelectBreeds(st, values)).from == "0"
    ensures SearchFor(SelectBreeds(st, values)).breeds == values
    ensures ParseSortKey(SearchFor(SelectBreeds(st, values)).sort) == Some(st.sortOrder)
    ensures SearchFor(ChangeSort(st, order)).from == "0"
    ensures SearchFor(ChangeSort(st, order)).breeds == st.selectedBreeds
    ensures ParseSortKey(SearchFor(ChangeSort(st, order)).sort) == Some(order)
  {
  }

  // ---------------------------------------------------------------------
  // Search

  /** One run of the search: the search call with the current query, then on
      success a record lookup of the returned ids. Either call failing leaves
      the shown dogs and page count as they were; loading is cleared either way. */
  function RunSearch(st: DashboardState, search: Option<SearchResponse>, details: Option<seq<Dog>>): (r: SearchStep)
    ensures r.query == SearchFor(st)
    ensures search.None? ==> r.bulkRequest.None?
    ensures search.Some? ==> r.bulkRequest == Some(search.value.resultIds)
    ensures search.Some? && details.Some? ==>
      r.state.dogs == details.value && r.state.totalPages == TotalPages(search.value.total)
    ensures !(search.Some? && details.Some?) ==>
      r.state.dogs == st.dogs && r.state.totalPages == st.totalPages
    ensures !r.state.loading
    ensures r.state == st.(dogs := r.state.dogs, totalPages := r.state.totalPages, loading := false)
  {
    var query := SearchFor(st);
    match search
    case None => SearchStep(query, None, st.(loading := false))
    case Some(response) =>
      match details
      case None => SearchStep(query, Some(response.resultIds), st.(loading := false))
      case Some(records) =>
        SearchStep(query, Some(response.resultIds),
          st.(dogs := records, totalPages := TotalPages(response.total), loading := false))
  }

  /** An empty search result sets the page count to 0 while the current page
      stays 1: the count is not clamped to at least one page. */
  lemma EmptyResultLeavesNoPages(st: DashboardState, details: seq<Dog>)
    requires st.currentPage == 1
    ensures RunSearch(st, Some(SearchResponse([], 0)), Some(details)).state.totalPages == 0
    ensures RunSearch(st, Some(SearchResponse([], 0)), Some(details)).state.currentPage == 1
  {
  }
}
