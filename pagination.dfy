/** The pagination containers (pagination.dto.ts): a request that defaults its page and
    page size, and a result that stores the items and the metadata it is given. The
    metadata is computed elsewhere (by the database layer's pagination extension, which is
    not part of this model) and is neither computed nor checked here. */
module Pagination {
  import opened Wrappers

  /** `PaginationRequestDto`. */
  datatype PaginationRequest = PaginationRequest(page: int, limit: int)

  const DefaultPage := 1
  const DefaultLimit := 10

  /** The constructor: an omitted page is 1 and an omitted limit is 10; a supplied value is
      kept, even 0, because only a missing value is replaced. */
  function NewPaginationRequest(page: Option<int>, limit: Option<int>): (r: PaginationRequest)
    ensures page.None? ==> r.page == DefaultPage
    ensures limit.None? ==> r.limit == DefaultLimit
    ensures page.Some? ==> r.page == page.value
    ensures limit.Some? ==> r.limit == limit.value
  {
    PaginationRequest(page.GetOr(DefaultPage), limit.GetOr(DefaultLimit))
  }

  /** Rebuilding a request from its own values gives it back, and supplying the defaults
      explicitly is the same as omitting them. */
  lemma RequestRoundTrip(r: PaginationRequest)
    ensures NewPaginationRequest(Some(r.page), Some(r.limit)) == r
    ensures NewPaginationRequest(None, None) == NewPaginationRequest(Some(1), Some(10))
  {
  }

  /** The cases of the request's tests: no arguments, (2, 25), and a zero page and limit. */
  lemma RequestExamples()
    ensures NewPaginationRequest(None, None) == PaginationRequest(1, 10)
    ensures NewPaginationRequest(Some(2), Some(25)) == PaginationRequest(2, 25)
    ensures NewPaginationRequest(Some(0), Some(0)) == PaginationRequest(0, 0)
  {
  }

  /** `PaginationMeta`: `prev`/`next` are null on the first/last page. */
  datatype PaginationMeta = PaginationMeta(
    total: int, lastPage: int, currentPage: int, perPage: int, prev: Option<int>, next: Option<int>)

  /** `PaginatedResult`. */
  datatype PaginatedResult<T> = PaginatedResult(items: seq<T>, meta: PaginationMeta)

  /** `PaginatedResult.create`: exactly the given items, in order, and the given meta. */
  function Create<T>(items: seq<T>, meta: PaginationMeta): (r: PaginatedResult<T>)
    ensures r.items == items && r.meta == meta
  {
    PaginatedResult(items, meta)
  }

  /** Every result is what `Create` makes of its own parts, and `Create` keeps its
      arguments apart: different arguments give different results. */
  lemma CreateIsInjective<T>(r: PaginatedResult<T>, items: seq<T>, meta: PaginationMeta)
    ensures Create(r.items, r.meta) == r
    ensures Create(items, meta) == r <==> items == r.items && meta == r.meta
  {
  }

  /** The metadata is not checked against the items: an empty page with a total of 0 and
      a last page of 1 is stored as it is, and so is one whose total disagrees with it. */
  lemma MetaNotChecked<T>()
    ensures var r := Create<T>([], PaginationMeta(0, 1, 1, 10, None, None));
      |r.items| == 0 && r.meta.total == 0 && r.meta.lastPage == 1
    ensures Create<T>([], PaginationMeta(100, 10, 1, 10, None, Some(2))).meta.total == 100
  {
  }
}
