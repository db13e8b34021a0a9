/**
 * The guest list query (`src/features/guests/useGuests.js`): the filter,
 * order and page read from the search parameters on the guests page, the
 * number of pages, and the neighbouring pages fetched ahead of time.
 */
module UseGuests {
  import opened Wrappers
  import opened Text

  /** `filter`: null for every booking status, or one status of the guest's bookings. */
  datatype Filter = AnyStatus | StatusIs(value: string)

  /** `sortBy`: a field and, when the parameter has one, a direction. */
  datatype SortBy = SortBy(field: string, direction: Option<string>)

  /** The key of a guests query; a `None` part is `undefined` (off the guests page). */
  datatype GuestsQuery = GuestsQuery(filter: Option<Filter>, sortBy: Option<SortBy>, page: Option<int>)

  /**
   * `+s` for the strings this model reads: an optional sign and decimal
   * digits, or the empty string, which is 0; anything else is NaN (`None`).
   */
  function ToNumber(s: string): (n: Option<int>)
    ensures s == "" ==> n == Some(0)
    ensures AllDigits(s) ==> n == Some(DecimalValue(s))
    ensures n.Some? && n.value < 0 ==> s[0] == '-'
  {
    if s == "" then Some(0)
    else if AllDigits(s) then Some(DecimalValue(s))
    else if (s[0] == '+' || s[0] == '-') && |s| >= 2 && AllDigits(s[1..]) then
      var magnitude: int := DecimalValue(s[1..]);
      Some(if s[0] == '-' then -magnitude else magnitude)
    else None
  }

  /** `+searchParams.get('page') || 1`: a missing parameter reads as 0, and 0 or NaN fall back to 1. */
  function PageOf(param: Option<string>): (page: int)
    ensures page != 0
  {
    var n := ToNumber(if param.Some? then param.value else "");
    if n.None? || n.value == 0 then 1 else n.value
  }

  /** The page read back from a page number written in decimal is that number; no parameter is page 1. */
  lemma {:induction false} PageOfDecimal(n: nat)
    ensures PageOf(None) == 1
    ensures n >= 1 ==> PageOf(Some(NatToDecimal(n))) == n
    ensures n == 0 ==> PageOf(Some(NatToDecimal(n))) == 1
  {
    DecimalRoundTrip(n);
  }

  /** A page parameter reads as a page of at least 1 unless it is written with a minus sign. */
  lemma PageIsPositiveUnlessSigned(param: string)
    requires param == "" || param[0] != '-'
    ensures PageOf(Some(param)) >= 1
  {
  }

  /** `sortByValue.split('-')` destructured into field and direction. */
  function ParseSortBy(value: string): (sortBy: SortBy)
    ensures '-' !in sortBy.field
    ensures '-' !in value ==> sortBy == SortBy(value, None)
  {
    var parts := Split(value, '-');
    SplitPiecesHaveNoSeparator(value, '-');
    var sortBy := SortBy(parts[0], if |parts| >= 2 then Some(parts[1]) else None);
    if '-' !in value then SplitNoSeparator(value, '-'); sortBy else sortBy
  }

  /** A field and a direction joined with '-' split back into themselves. */
  lemma {:induction false} SortByRoundTrip(field: string, direction: string)
    requires '-' !in field && '-' !in direction
    ensures ParseSortBy(field + "-" + direction) == SortBy(field, Some(direction))
  {
    SplitAtSeparator(field, '-', direction);
    SplitNoSeparator(field, '-');
    SplitNoSeparator(direction, '-');
    assert field + "-" + direction == field + ['-'] + direction;
  }

  /**
   * Reading the search parameters: nothing is set off the guests page; on
   * it, the filter is null for a missing, empty or 'all' value, the order
   * defaults to 'fullName-asc', and the page to 1.
   */
  method ParseSearchParams(pathname: string, bookingsParam: Option<string>, sortByParam: Option<string>, pageParam: Option<string>)
    returns (query: GuestsQuery)
    ensures pathname != "/guests" ==> query == GuestsQuery(None, None, None)
    ensures pathname == "/guests" ==> query.filter.Some? && query.sortBy.Some? && query.page.Some?
    ensures pathname == "/guests" ==>
      (query.filter.value == AnyStatus <==> bookingsParam.None? || bookingsParam.value in {"", "all"})
    ensures pathname == "/guests" && query.filter.value.StatusIs? ==> query.filter.value.value == bookingsParam.value
    ensures pathname == "/guests" ==>
      query.sortBy.value == ParseSortBy(if sortByParam.None? || sortByParam.value == "" then "fullName-asc" else sortByParam.value)
    ensures pathname == "/guests" ==> query.page.value == PageOf(pageParam)
  {
    var filter: Option<Filter> := None;
    var sortBy: Option<SortBy> := None;
    var page: Option<int> := None;
    if pathname == "/guests" {
      var filterValue := if bookingsParam.Some? && bookingsParam.value != "" then bookingsParam.value else "all";
      filter := Some(if filterValue == "all" then AnyStatus else StatusIs(filterValue));
      var sortByValue := if sortByParam.Some? && sortByParam.value != "" then sortByParam.value else "fullName-asc";
      sortBy := Some(ParseSortBy(sortByValue));
      page := Some(PageOf(pageParam));
    }
    query := GuestsQuery(filter, sortBy, page);
  }

  /** The default order is by full name, ascending. */
  lemma DefaultSortIsFullNameAscending()
    ensures ParseSortBy("fullName-asc") == SortBy("fullName", Some("asc"))
  {
    SortByRoundTrip("fullName", "asc");
    assert "fullName" + "-" + "asc" == "fullName-asc";
  }

  /** `Math.ceil(count / PAGE_SIZE)`; an unknown count (still loading) gives NaN. */
  function PageCount(count: Option<nat>, pageSize: nat): (pageCount: Option<int>)
    requires pageSize >= 1
    ensures pageCount.Some? <==> count.Some?
    ensures pageCount.Some? ==> pageCount.value >= 0
    ensures pageCount.Some? ==>
      (pageCount.value - 1) * pageSize < count.value <= pageCount.value * pageSize || (count.value == 0 && pageCount.value == 0)
  {
    if count.None? then None else Some((count.value + pageSize - 1) / pageSize)
  }

  /** Exactly the pages needed: none for no guests, and the last page is not empty. */
  lemma {:induction false} PageCountIsCeiling(count: nat, pageSize: nat)
    requires pageSize >= 1
    ensures var pc := PageCount(Some(count), pageSize).value;
      (pc == 0 <==> count == 0) && pc * pageSize >= count && (pc >= 1 ==> (pc - 1) * pageSize < count)
  {
    var pc := PageCount(Some(count), pageSize).value;
    assert pc * pageSize <= count + pageSize - 1 < (pc + 1) * pageSize;
  }

  /** `page < pageCount`: comparisons with undefined or NaN are false. */
  predicate PrefetchesNext(page: Option<int>, pageCount: Option<int>) {
    page.Some? && pageCount.Some? && page.value < pageCount.value
  }

  /** `page > 1`. */
  predicate PrefetchesPrevious(page: Option<int>) {
    page.Some? && page.value > 1
  }

  /** From a page within the list, both prefetched neighbours lie within the list. */
  lemma NeighboursInRange(page: int, pageCount: int)
    requires 1 <= page <= pageCount
    ensures PrefetchesNext(Some(page), Some(pageCount)) ==> 1 <= page + 1 <= pageCount
    ensures PrefetchesPrevious(Some(page)) ==> 1 <= page - 1 <= pageCount
    ensures !PrefetchesNext(Some(page), Some(pageCount)) <==> page == pageCount
    ensures !PrefetchesPrevious(Some(page)) <==> page == 1
  {
  }

  /** The query cache, as the list of queries fetched ahead of time. */
  class QueryClient {
    var prefetched: seq<GuestsQuery>

    constructor()
      ensures prefetched == []
    {
      prefetched := [];
    }

    method PrefetchQuery(query: GuestsQuery)
      modifies this
      ensures prefetched == old(prefetched) + [query]
    {
      prefetched := prefetched + [query];
    }
  }

  /**
   * `useGuests` once the count is known or not: the page count, and the
   * next page then the previous page fetched ahead when they exist.
   */
  method UseGuests(
    client: QueryClient, pathname: string, bookingsParam: Option<string>, sortByParam: Option<string>,
    pageParam: Option<string>, count: Option<nat>, pageSize: nat)
    returns (query: GuestsQuery, pageCount: Option<int>)
    requires pageSize >= 1
    modifies client
    ensures pageCount == PageCount(count, pageSize)
    ensures client.prefetched == old(client.prefetched)
      + (if PrefetchesNext(query.page, pageCount) then [query.(page := Some(query.page.value + 1))] else [])
      + (if PrefetchesPrevious(query.page) then [query.(page := Some(query.page.value - 1))] else [])
    ensures pathname != "/guests" ==> client.prefetched == old(client.prefetched)
  {
    query := ParseSearchParams(pathname, bookingsParam, sortByParam, pageParam);
    pageCount := PageCount(count, pageSize);
    if PrefetchesNext(query.page, pageCount) {
      client.PrefetchQuery(query.(page := Some(query.page.value + 1)));
    }
    if PrefetchesPrevious(query.page) {
      client.PrefetchQuery(query.(page := Some(query.page.value - 1)));
    }
  }
}
