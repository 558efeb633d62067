/**
 * The admin team list (`src/pages/admin/TeamManagement.jsx`): the request
 * filters built from the search box and the status tabs, the handlers that
 * move between pages, the status toggle, the "Showing a to b" line and the
 * expertise chips.
 */
module TeamManagement {
  import opened Common
  import opened Lists
  import opened Assoc
  import opened Query

  const PAGE_SIZE := 10

  datatype State = State(searchTerm: string, statusFilter: string, currentPage: int, totalPages: int, totalItems: int)

  const INITIAL := State("", "all", 1, 1, 0)

  /** The filters of `loadTeamMembers`: page, limit 10 and the search text, plus
      `isActive` unless the "all" tab is chosen. */
  function LoadFilters(st: State): (r: Filters)
    ensures Keys(r) == if st.statusFilter == "all" then ["page", "limit", "search"] else ["page", "limit", "search", "isActive"]
    ensures Lookup(r, "page") == Some(Num(st.currentPage))
    ensures Lookup(r, "limit") == Some(Num(PAGE_SIZE))
    ensures Lookup(r, "search") == Some(Str(st.searchTerm))
    ensures Lookup(r, "isActive").Some? <==> st.statusFilter != "all"
    ensures st.statusFilter != "all" ==> Lookup(r, "isActive") == Some(Bool(st.statusFilter == "active"))
  {
    var base := BaseFilters(st);
    var active := ("isActive", Bool(st.statusFilter == "active"));
    forall k {
      LookupSnoc(base, active.0, active.1, k);
    }
    assert Keys(base + [active]) == Keys(base) + ["isActive"];
    if st.statusFilter != "all" then base + [active] else base
  }

  /** The three filters every load sends. */
  function BaseFilters(st: State): (r: Filters)
    ensures Keys(r) == ["page", "limit", "search"]
    ensures forall k :: Lookup(r, k) == if k == "search" then Some(Str(st.searchTerm))
      else if k == "limit" then Some(Num(PAGE_SIZE)) else if k == "page" then Some(Num(st.currentPage)) else None
  {
    var e1: Filters := [] + [("page", Num(st.currentPage))];
    var e2 := e1 + [("limit", Num(PAGE_SIZE))];
    var base := e2 + [("search", Str(st.searchTerm))];
    forall k ensures Lookup(base, k) == if k == "search" then Some(Str(st.searchTerm))
      else if k == "limit" then Some(Num(PAGE_SIZE)) else if k == "page" then Some(Num(st.currentPage)) else None
    {
      LookupSnoc([], "page", Num(st.currentPage), k);
      LookupSnoc(e1, "limit", Num(PAGE_SIZE), k);
      LookupSnoc(e2, "search", Str(st.searchTerm), k);
    }
    base
  }

  /** The "inactive" tab asks for the inactive members only; the "all" tab does
      not filter on status at all. */
  lemma StatusTabs(st: State)
    ensures st.statusFilter == "inactive" ==> Lookup(LoadFilters(st), "isActive") == Some(Bool(false))
    ensures st.statusFilter == "active" ==> Lookup(LoadFilters(st), "isActive") == Some(Bool(true))
    ensures st.statusFilter == "all" ==> Lookup(LoadFilters(st), "isActive") == None
  {
  }

  /** `handleSearch(e)`: the new search text, back on page 1. */
  function HandleSearch(st: State, term: string): (r: State)
    ensures r.searchTerm == term && r.currentPage == 1
    ensures r.statusFilter == st.statusFilter && r.totalPages == st.totalPages && r.totalItems == st.totalItems
  {
    st.(searchTerm := term, currentPage := 1)
  }

  /** `handleStatusFilter(status)`: the new tab, back on page 1. */
  function HandleStatusFilter(st: State, status: string): (r: State)
    ensures r.statusFilter == status && r.currentPage == 1
    ensures r.searchTerm == st.searchTerm && r.totalPages == st.totalPages && r.totalItems == st.totalItems
  {
    st.(statusFilter := status, currentPage := 1)
  }

  /** `handlePageChange(newPage)`: only the page moves. */
  function HandlePageChange(st: State, page: int): (r: State)
    ensures r.currentPage == page
    ensures r.(currentPage := st.currentPage) == st
  {
    st.(currentPage := page)
  }

  /** A search or tab change always requests the first page, whatever page was shown. */
  lemma NewQueryStartsAtFirstPage(st: State, term: string, status: string)
    ensures Lookup(LoadFilters(HandleSearch(st, term)), "page") == Some(Num(1))
    ensures Lookup(LoadFilters(HandleStatusFilter(st, status)), "page") == Some(Num(1))
    ensures Lookup(LoadFilters(HandleSearch(st, term)), "search") == Some(Str(term))
  {
  }

  /** What `handleToggleStatus(id, currentStatus)` sends and says. */
  datatype Toggle = Toggle(isActive: bool, message: string)

  /** The toast of a status change, `Team member ${word} successfully`. */
  function StatusMessage(word: string): string {
    "Team member " + word + " successfully"
  }

  function ToggleStatus(currentStatus: bool): (r: Toggle)
    ensures r.isActive == !currentStatus
    ensures r.message == StatusMessage(if r.isActive then "activated" else "deactivated")
  {
    Toggle(!currentStatus, StatusMessage(if !currentStatus then "activated" else "deactivated"))
  }

  /** Toggling twice asks for the status the member started with. */
  lemma ToggleTwice(currentStatus: bool)
    ensures ToggleStatus(ToggleStatus(currentStatus).isActive).isActive == currentStatus
  {
  }

  // ---------------------------------------------------------------------------
  // Showing range
  // ---------------------------------------------------------------------------

  /** "Showing `(p - 1) * 10 + 1` to `min(p * 10, totalItems)`". */
  function ShowingRange(page: int, totalItems: int): (r: (int, int))
    ensures r.0 == (page - 1) * PAGE_SIZE + 1
    ensures r.1 <= page * PAGE_SIZE && r.1 <= totalItems
    ensures r.1 == page * PAGE_SIZE || r.1 == totalItems
  {
    ((page - 1) * PAGE_SIZE + 1, Min(page * PAGE_SIZE, totalItems))
  }

  /** The number of pages needed for `totalItems`. */
  function PageCount(totalItems: nat): (r: nat)
    ensures totalItems <= r * PAGE_SIZE
    ensures r == 0 || (r - 1) * PAGE_SIZE < totalItems
  {
    (totalItems + PAGE_SIZE - 1) / PAGE_SIZE
  }

  /** On an existing page the range is non-empty, lies within the items and
      holds at most ten of them. */
  lemma ShowingRangeWithinItems(page: int, totalItems: nat)
    requires 1 <= page <= PageCount(totalItems)
    ensures 1 <= ShowingRange(page, totalItems).0 <= ShowingRange(page, totalItems).1 <= totalItems
    ensures ShowingRange(page, totalItems).1 - ShowingRange(page, totalItems).0 + 1 <= PAGE_SIZE
  {
  }

  /** Consecutive pages show consecutive items: each page starts right after the
      previous one ends. */
  lemma ShowingRangesTile(page: int, totalItems: nat)
    requires 1 <= page < PageCount(totalItems)
    ensures ShowingRange(page + 1, totalItems).0 == ShowingRange(page, totalItems).1 + 1
  {
  }

  /** The last page ends at the last item. */
  lemma LastPageEndsAtTotal(totalItems: nat)
    requires totalItems > 0
    ensures ShowingRange(PageCount(totalItems), totalItems).1 == totalItems
  {
  }

  /** The expertise chips: the first two skills and "+N more" for the rest. */
  function ExpertiseChips(expertise: seq<string>): (r: Preview<string>)
    ensures r.shown == expertise[..Min(2, |expertise|)]
    ensures r.more == |expertise| - |r.shown|
    ensures r.more > 0 <==> |expertise| > 2
  {
    PreviewOf(expertise, 2)
  }

  /** A skill added behind two or more shown ones only raises the "+N more" count. */
  lemma ExtraExpertiseCountsAsMore(expertise: seq<string>, skill: string)
    requires |expertise| >= 2
    ensures ExpertiseChips(expertise + [skill]).shown == ExpertiseChips(expertise).shown
    ensures ExpertiseChips(expertise + [skill]).more == ExpertiseChips(expertise).more + 1
  {
    PreviewGrows(expertise, skill, 2);
  }
}
