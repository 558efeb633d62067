/**
 * The admin client list (`src/pages/admin/ClientList.jsx`): its filter and
 * pagination state, the request it sends for a page of clients, and the
 * numbered page buttons with the `...` marks between them.
 */
module ClientList {
  import opened Common
  import opened Assoc
  import opened Query

  datatype Pagination = Pagination(currentPage: int, totalPages: int, totalClients: int, hasNext: bool, hasPrev: bool)

  datatype State = State(filters: Filters, pagination: Pagination)

  const PAGE_SIZE := 10

  /** The filters the page starts with and `clearFilters` restores. */
  const DEFAULT_FILTERS: Filters := [("search", Str("")), ("sortBy", Str("createdAt")), ("sortOrder", Str("desc"))]

  const INITIAL := State(DEFAULT_FILTERS, Pagination(1, 1, 0, false, false))

  /** `handleFilterChange(key, value)`: one filter takes the new value and the list
      goes back to its first page. */
  function HandleFilterChange(st: State, key: string, value: Value): (r: State)
    ensures Lookup(r.filters, key) == Some(value)
    ensures forall k :: k != key ==> Lookup(r.filters, k) == Lookup(st.filters, k)
    ensures r.pagination.currentPage == 1
    ensures r.pagination == st.pagination.(currentPage := r.pagination.currentPage)
  {
    State(Put(st.filters, key, value), st.pagination.(currentPage := 1))
  }

  /** `handlePageChange(page)`: only the current page moves. */
  function HandlePageChange(st: State, page: int): (r: State)
    ensures r.filters == st.filters
    ensures r.pagination.currentPage == page
    ensures r.pagination.(currentPage := st.pagination.currentPage) == st.pagination
  {
    st.(pagination := st.pagination.(currentPage := page))
  }

  /** `clearFilters`: back to the default filters on the first page. */
  function ClearFilters(st: State): (r: State)
    ensures Lookup(r.filters, "search") == Some(Str(""))
    ensures Lookup(r.filters, "sortBy") == Some(Str("createdAt"))
    ensures Lookup(r.filters, "sortOrder") == Some(Str("desc"))
    ensures Keys(r.filters) == ["search", "sortBy", "sortOrder"]
    ensures r.pagination.currentPage == 1
    ensures r.pagination.(currentPage := st.pagination.currentPage) == st.pagination
  {
    State(DEFAULT_FILTERS, st.pagination.(currentPage := 1))
  }

  /** `{ page: currentPage, limit: 10, ...filters }`: the parameters of `getClients`.
      A filter of the same name would override the page or the limit. */
  function FetchRequest(st: State): (r: Filters)
    ensures "page" !in Keys(st.filters) ==> Lookup(r, "page") == Some(Num(st.pagination.currentPage))
    ensures "limit" !in Keys(st.filters) ==> Lookup(r, "limit") == Some(Num(PAGE_SIZE))
    ensures forall k :: k in Keys(st.filters) ==> Lookup(r, k) == Lookup(st.filters, k)
    ensures forall k :: k != "page" && k != "limit" && k !in Keys(st.filters) ==> Lookup(r, k).None?
  {
    var base := [("page", Num(st.pagination.currentPage)), ("limit", Num(PAGE_SIZE))];
    assert Keys(base) == ["page", "limit"];
    assert base[..1] == [("page", Num(st.pagination.currentPage))];
    assert Lookup(base, "page") == Some(Num(st.pagination.currentPage));
    Spread(base, st.filters)
  }

  /** A filter change followed by a page change asks for that page with the new
      filter value, and every other filter as before. */
  lemma FilterThenPageRequest(st: State, key: string, value: Value, page: int)
    ensures var req := FetchRequest(HandlePageChange(HandleFilterChange(st, key, value), page));
      && Lookup(req, key) == Some(value)
      && (forall k :: k in Keys(st.filters) && k != key ==> Lookup(req, k) == Lookup(st.filters, k))
      && ("page" !in Keys(st.filters) && key != "page" ==> Lookup(req, "page") == Some(Num(page)))
  {
    var f := Put(st.filters, key, value);
    assert Keys(f) == if key in Keys(st.filters) then Keys(st.filters) else Keys(st.filters) + [key];
    assert key in Keys(f);
    assert forall k :: k in Keys(st.filters) ==> k in Keys(f);
  }

  /** Clearing the filters asks for the first page of ten, newest first, with an
      empty search; clearing again changes nothing. */
  lemma ClearedRequest(st: State)
    ensures var req := FetchRequest(ClearFilters(st));
      && Lookup(req, "page") == Some(Num(1))
      && Lookup(req, "limit") == Some(Num(PAGE_SIZE))
      && Lookup(req, "search") == Some(Str(""))
      && Lookup(req, "sortBy") == Some(Str("createdAt"))
      && Lookup(req, "sortOrder") == Some(Str("desc"))
    ensures ClearFilters(ClearFilters(st)) == ClearFilters(st)
  {
    var c := ClearFilters(st);
    assert "search" in Keys(c.filters) && "sortBy" in Keys(c.filters) && "sortOrder" in Keys(c.filters);
  }

  // ---------------------------------------------------------------------------
  // Page buttons
  // ---------------------------------------------------------------------------

  function Abs(x: int): nat {
    if x < 0 then -x else x
  }

  /** The filter of the page buttons: the first page, the last page and every
      page at most two away from the current one. */
  predicate Shown(p: int, total: int, current: int) {
    p == 1 || p == total || Abs(p - current) <= 2
  }

  predicate Ascending(w: seq<int>) {
    forall i, j :: 0 <= i < j < |w| ==> w[i] < w[j]
  }

  /** The shown pages from `p` up to `total`, in order. */
  function WindowFrom(p: int, total: int, current: int): (w: seq<int>)
    ensures forall x :: x in w <==> p <= x <= total && Shown(x, total, current)
    ensures Ascending(w)
    decreases total - p + 1
  {
    if p > total then []
    else
      var rest := WindowFrom(p + 1, total, current);
      assert forall j :: 0 <= j < |rest| ==> rest[j] in rest;
      if Shown(p, total, current) then [p] + rest else rest
  }

  /** `Array.from({length: totalPages}, (_, i) => i + 1).filter(...)`: the page
      buttons of the list. */
  function PageWindow(total: int, current: int): (w: seq<int>)
    ensures forall x :: x in w <==> 1 <= x <= total && Shown(x, total, current)
    ensures Ascending(w)
  {
    WindowFrom(1, total, current)
  }

  /** The window is the only ascending list of the shown pages: it is fully
      described by which pages it contains. */
  lemma {:induction false} AscendingUnique(a: seq<int>, b: seq<int>)
    requires Ascending(a) && Ascending(b)
    requires forall x :: x in a <==> x in b
    ensures a == b
    decreases |a|
  {
    assert a != [] ==> a[0] in a;
    assert b != [] ==> b[0] in b;
    if a != [] && b != [] {
      assert a[0] == b[0] by {
        assert b[0] in a && a[0] in b;
        var i :| 0 <= i < |a| && a[i] == b[0];
        var j :| 0 <= j < |b| && b[j] == a[0];
        assert a[0] <= a[i] && b[0] <= b[j];
      }
      forall x ensures x in a[1..] <==> x in b[1..] {
        if x in a[1..] {
          var i :| 1 <= i < |a| && a[i] == x;
          assert x != a[0];
          assert x in b;
          var j :| 0 <= j < |b| && b[j] == x;
          assert j != 0;
          assert b[1..][j - 1] == x;
        }
        if x in b[1..] {
          var j :| 1 <= j < |b| && b[j] == x;
          assert x != b[0];
          assert x in a;
          var i :| 0 <= i < |a| && a[i] == x;
          assert i != 0;
          assert a[1..][i - 1] == x;
        }
      }
      AscendingUnique(a[1..], b[1..]);
    }
  }

  lemma PageWindowUnique(w: seq<int>, total: int, current: int)
    requires Ascending(w)
    requires forall x :: x in w <==> 1 <= x <= total && Shown(x, total, current)
    ensures w == PageWindow(total, current)
  {
    AscendingUnique(w, PageWindow(total, current));
  }

  /** In an ascending list of integers, entries `k` places apart differ by at least `k`. */
  lemma {:induction false} AscendingGap(w: seq<int>, i: int, j: int)
    requires Ascending(w) && 0 <= i <= j < |w|
    ensures w[j] - w[i] >= j - i
    decreases j - i
  {
    if i < j {
      AscendingGap(w, i, j - 1);
    }
  }

  /** At most seven buttons, whatever the current page: the first and the last,
      and five around the current page. */
  lemma WindowSize(total: int, current: int)
    ensures |PageWindow(total, current)| <= 7
  {
    var w := PageWindow(total, current);
    if |w| > 7 {
      var n := |w|;
      assert w[0] in w && w[n - 1] in w && w[1] in w && w[n - 2] in w;
      assert w[0] < w[1] && w[n - 2] < w[n - 1];
      assert Abs(w[1] - current) <= 2;
      assert Abs(w[n - 2] - current) <= 2;
      AscendingGap(w, 1, n - 2);
      assert false;
    }
  }

  /** `index > 0 && array[index - 1] !== page - 1`: an ellipsis is drawn before
      the button at `i`. */
  predicate EllipsisBefore(w: seq<int>, i: int)
    requires 0 <= i < |w|
  {
    i > 0 && w[i - 1] != w[i] - 1
  }

  /** An ellipsis can only follow the first button or precede the last one, so
      there are at most two of them. */
  lemma EllipsisPlaces(total: int, current: int, i: int)
    requires 0 <= i < |PageWindow(total, current)|
    requires EllipsisBefore(PageWindow(total, current), i)
    ensures i == 1 || i == |PageWindow(total, current)| - 1
  {
    var w := PageWindow(total, current);
    var n := |w|;
    if 1 < i < n - 1 {
      assert w[0] in w && w[n - 1] in w && w[i - 1] in w && w[i] in w;
      assert w[0] < w[i - 1] < w[i] < w[n - 1];
      assert Abs(w[i - 1] - current) <= 2 && Abs(w[i] - current) <= 2;
      var x := w[i] - 1;
      assert x in w;
      var k :| 0 <= k < n && w[k] == x;
      assert false;
    }
  }

  /** The page buttons always offer the first page, the last page and the
      current one when it is in range. */
  lemma WindowHasAnchors(total: int, current: int)
    requires 1 <= current <= total
    ensures 1 in PageWindow(total, current)
    ensures total in PageWindow(total, current)
    ensures current in PageWindow(total, current)
  {
  }

  /** A list of at most four pages shows every page. */
  lemma SmallListShowsAll(total: int, current: int, p: int)
    requires total <= 4 && 1 <= current <= total && 1 <= p <= total
    ensures p in PageWindow(total, current)
  {
  }
}
