/** The template browser: the filter state, the request made for each page
    of the infinite list, the rule that chains one page to the next, and
    the list and total shown from the pages loaded so far. */
module TemplatesPage {
  import opened Wrappers
  import opened Types
  import opened Api

  const PageSize: int := 12
  const AllCategories: string := "All"
  const Newest: string := "newest"

  /** The `getTemplates` arguments for one page: the fixed page size, the
      search only when there is one, the category only when it is not
      `All`. */
  function QueryFor(search: string, category: string, page: int): (q: TemplateQuery)
    ensures q.page == Some(page) && q.limit == Some(PageSize)
    ensures q.search.None? <==> search == ""
    ensures q.search.Some? ==> q.search.value == search
    ensures q.category.None? <==> category == AllCategories
    ensures q.category.Some? ==> q.category.value == category
  {
    TemplateQuery(Some(page), Some(PageSize),
                  if search == "" then None else Some(search),
                  if category == AllCategories then None else Some(category))
  }

  /** The cache key of the list. The sort order is part of it although it
      is never sent. */
  datatype QueryKey = QueryKey(search: string, category: string, sortBy: string)

  function RequestFor(key: QueryKey, page: int): TemplateQuery {
    QueryFor(key.search, key.category, page)
  }

  /** Changing only the sort order refetches the very same requests. */
  lemma SortNotSent(a: QueryKey, b: QueryKey, page: int)
    requires a.search == b.search && a.category == b.category && a.sortBy != b.sortBy
    ensures a != b && RequestFor(a, page) == RequestFor(b, page)
  {
  }

  /** `getNextPageParam`. */
  function NextPageParam<T>(last: PaginatedResponse<T>): (next: Option<int>)
    ensures next.Some? <==> last.hasMore
    ensures next.Some? ==> next.value == last.page + 1
  {
    if last.hasMore then Some(last.page + 1) else None
  }

  /** The page the backend returns for `page` of a collection of `total`
      templates, as `getTemplates` shapes it. */
  function Reply(search: string, category: string, page: int, total: int, data: seq<Template>): PaginatedResponse<Template> {
    PageOf(QueryFor(search, category, page), BackendPage(Some(data), Some(total)))
  }

  /** The pages requested from `page` on, each next page following from the
      previous reply, while the collection holds `total` templates. */
  function Chain(search: string, category: string, total: int, page: int): (pages: seq<int>)
    requires page >= 1
    decreases if total - (page - 1) * PageSize > 0 then total - (page - 1) * PageSize else 0
  {
    match NextPageParam(Reply(search, category, page, total, []))
    case None => [page]
    case Some(n) => [page] + Chain(search, category, total, n)
  }

  lemma {:induction false} ChainFrom(search: string, category: string, total: int, page: int)
    requires page >= 1
    ensures var pages := Chain(search, category, total, page);
            |pages| >= 1 &&
            (forall i :: 0 <= i < |pages| ==> pages[i] == page + i) &&
            (page + |pages| - 1) * PageSize >= total &&
            (|pages| > 1 ==> (page + |pages| - 2) * PageSize < total)
    decreases if total - (page - 1) * PageSize > 0 then total - (page - 1) * PageSize else 0
  {
    var r := Reply(search, category, page, total, []);
    assert r.page == page && r.limit == PageSize && r.total == total;
    if r.hasMore {
      ChainFrom(search, category, total, page + 1);
      var rest := Chain(search, category, total, page + 1);
      assert Chain(search, category, total, page) == [page] + rest;
    } else {
      assert Chain(search, category, total, page) == [page];
    }
  }

  /** Starting at page 1, pages 1..k are requested, where k is the first
      page with k * 12 >= total (and at least the first page). */
  lemma PagesRequested(search: string, category: string, total: int)
    ensures var pages := Chain(search, category, total, 1);
            |pages| >= 1 &&
            (forall i :: 0 <= i < |pages| ==> pages[i] == i + 1) &&
            |pages| * PageSize >= total &&
            (|pages| > 1 ==> (|pages| - 1) * PageSize < total)
  {
    ChainFrom(search, category, total, 1);
  }

  /** `loadMore`: the next page is fetched only when there is one and no
      fetch is under way. */
  function LoadMore<T>(pages: seq<PaginatedResponse<T>>, isFetchingNextPage: bool): (fetch: Option<int>)
    ensures fetch.Some? <==> pages != [] && pages[|pages| - 1].hasMore && !isFetchingNextPage
    ensures fetch.Some? ==> fetch.value == pages[|pages| - 1].page + 1
  {
    if pages != [] && !isFetchingNextPage then NextPageParam(pages[|pages| - 1]) else None
  }

  /** `flatMap` of the pages' data, in page order. */
  function Flatten<T>(pages: seq<PaginatedResponse<T>>): seq<T> {
    if pages == [] then [] else pages[0].data + Flatten(pages[1..])
  }

  lemma {:induction false} FlattenConcat<T>(a: seq<PaginatedResponse<T>>, b: seq<PaginatedResponse<T>>)
    ensures Flatten(a + b) == Flatten(a) + Flatten(b)
  {
    if a == [] {
      assert a + b == b;
    } else {
      assert (a + b)[1..] == a[1..] + b;
      FlattenConcat(a[1..], b);
    }
  }

  /** The list shown: every loaded page's data in page order, nothing
      before the first page arrives. */
  function AllTemplates<T>(data: Option<seq<PaginatedResponse<T>>>): seq<T> {
    if data.Some? then Flatten(data.value) else []
  }

  /** Loading one more page appends exactly its data to the list shown. */
  lemma LoadedPageAppends<T>(pages: seq<PaginatedResponse<T>>, p: PaginatedResponse<T>)
    ensures AllTemplates(Some(pages + [p])) == AllTemplates(Some(pages)) + p.data
  {
    FlattenConcat(pages, [p]);
    assert Flatten([p]) == p.data + Flatten([p][1..]);
    assert Flatten([p][1..]) == [];
  }

  /** The number of templates shown is the sum of the page sizes. */
  function DataCount<T>(pages: seq<PaginatedResponse<T>>): nat {
    if pages == [] then 0 else |pages[0].data| + DataCount(pages[1..])
  }

  lemma {:induction false} FlattenLength<T>(pages: seq<PaginatedResponse<T>>)
    ensures |Flatten(pages)| == DataCount(pages)
  {
    if pages != [] {
      FlattenLength(pages[1..]);
    }
  }

  /** The total shown: the first page's total, or 0 before any page. */
  function TotalTemplates<T>(data: Option<seq<PaginatedResponse<T>>>): (n: int)
    ensures data.None? || data.value == [] ==> n == 0
    ensures data.Some? && data.value != [] ==> n == data.value[0].total
  {
    if data.Some? && data.value != [] then data.value[0].total else 0
  }

  /** The three filters of the page. The search box's text reaches the
      request only through its debounced copy, which catches up with it once
      the text has stayed the same for 300 ms. */
  class Filters {
    var search: string
    var debouncedSearch: string
    var category: string
    var sortBy: string

    constructor ()
      ensures search == "" && debouncedSearch == "" && category == AllCategories && sortBy == Newest
    {
      search, debouncedSearch, category, sortBy := "", "", AllCategories, Newest;
    }

    /** `hasActiveFilters`, which reads the search box, not its debounced
        copy. */
    predicate HasActiveFilters()
      reads this
      ensures !HasActiveFilters() ==> search == "" && category == AllCategories && sortBy == Newest
    {
      search != "" || category != AllCategories || sortBy != Newest
    }

    /** The cache key, built from the debounced search. */
    function Key(): QueryKey
      reads this
    {
      QueryKey(debouncedSearch, category, sortBy)
    }

    /** Typing in the search box. */
    method SetSearch(text: string)
      modifies this`search
      ensures search == text
    {
      search := text;
    }

    /** The debounce timer firing: the debounced copy takes the box's text. */
    method SettleSearch()
      modifies this`debouncedSearch
      ensures debouncedSearch == search
    {
      debouncedSearch := search;
    }

    /** `clearFilters`: back to the initial state, with no filter active.
        The debounced search follows only when the timer fires. */
    method ClearFilters()
      modifies this`search, this`category, this`sortBy
      ensures search == "" && category == AllCategories && sortBy == Newest
      ensures !HasActiveFilters()
    {
      search := "";
      category := AllCategories;
      sortBy := Newest;
    }
  }

  /** Once the debounce has settled, no filter is active exactly when every
      page request carries neither search nor category and the order is
      newest first. */
  lemma InactiveFiltersRequestEverything(f: Filters, page: int)
    requires f.debouncedSearch == f.search
    ensures !f.HasActiveFilters() <==>
            RequestFor(f.Key(), page) == TemplateQuery(Some(page), Some(PageSize), None, None) && f.sortBy == Newest
  {
  }

  /** Before the debounce settles they can disagree: right after the filters
      are cleared no filter is active, yet the request still carries the old
      search. */
  lemma ClearedSearchStillSent(f: Filters, page: int)
    requires !f.HasActiveFilters() && f.debouncedSearch != ""
    ensures RequestFor(f.Key(), page).search == Some(f.debouncedSearch)
    ensures RequestFor(f.Key(), page) != TemplateQuery(Some(page), Some(PageSize), None, None)
  {
  }
}
