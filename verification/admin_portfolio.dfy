/**
 * The admin portfolio list (`src/pages/admin/Portfolio.jsx`): the selection of
 * project ids, the bulk delete guard, the category and status labels, and the
 * numbered page buttons. Its filter object is updated by the handlers of
 * `FilterState`.
 */
module AdminPortfolio {
  import opened Common
  import opened Lists
  import opened Query

  const DEFAULT_FILTERS: Filters := [
    ("search", Str("")), ("category", Str("all")), ("status", Str("all")), ("featured", Str("")),
    ("page", Num(1)), ("limit", Num(10)), ("sortBy", Str("createdAt")), ("sortOrder", Str("desc"))
  ]

  // ---------------------------------------------------------------------------
  // Selection
  // ---------------------------------------------------------------------------

  /** `handleSelectAll()`: when as many ids are selected as there are projects on
      the page, the selection is emptied; otherwise every project is selected. */
  function SelectAll(selected: seq<string>, ids: seq<string>): (r: seq<string>)
    ensures |selected| == |ids| ==> r == []
    ensures |selected| != |ids| ==> r == ids
  {
    if |selected| == |ids| then [] else ids
  }

  /** The header checkbox: as many ids selected as projects shown, and at least one project. */
  predicate HeaderChecked(selected: seq<string>, ids: seq<string>) {
    |selected| == |ids| && |ids| > 0
  }

  /** On a page with projects, clicking the header checkbox flips it, and two
      clicks from a full selection give back every project. */
  lemma SelectAllToggles(selected: seq<string>, ids: seq<string>)
    requires ids != []
    ensures HeaderChecked(SelectAll(selected, ids), ids) <==> !HeaderChecked(selected, ids)
    ensures SelectAll(SelectAll(ids, ids), ids) == ids
  {
  }

  /** `handleSelectItem(id)`: a selected id is removed (every copy of it), an
      unselected one is appended. */
  function SelectItem(selected: seq<string>, id: string): (r: seq<string>)
    ensures id in selected ==> id !in r && Subseq(r, selected)
    ensures id in selected ==> multiset(r) == multiset(selected)[id := 0]
    ensures id !in selected ==> r == selected + [id]
    ensures forall x :: x != id ==> (x in r <==> x in selected)
  {
    if id in selected then RemoveAll(selected, id) else selected + [id]
  }

  /** Clicking the same row twice restores which ids are selected. */
  lemma SelectItemTwice(selected: seq<string>, id: string)
    ensures forall x :: x in SelectItem(SelectItem(selected, id), id) <==> x in selected
  {
    var once := SelectItem(selected, id);
    if id in selected {
      assert id !in once;
      assert id in SelectItem(once, id);
    } else {
      assert id in once;
      assert id !in SelectItem(once, id);
    }
  }

  /** Starting from a selection without `id`, two clicks give back the very same list. */
  lemma SelectItemTwiceExact(selected: seq<string>, id: string)
    requires id !in selected
    ensures SelectItem(SelectItem(selected, id), id) == selected
  {
    RemoveAppended(selected, id);
    RemoveAbsent(selected, id);
  }

  /** What `handleBulkDelete` did: the ids sent to `bulkDelete` (if any), the
      selection afterwards and the error shown (if any). */
  datatype BulkOutcome = BulkOutcome(sent: Option<seq<string>>, selected: seq<string>, error: Option<string>)

  const BULK_DELETE_ERROR := "Failed to delete portfolio projects. Please try again."

  /** `handleBulkDelete()`: nothing happens for an empty selection or a declined
      confirmation; an accepted delete clears the selection, a failed one keeps it
      and shows an error. */
  function HandleBulkDelete(selected: seq<string>, confirmed: bool, apiOk: bool): (r: BulkOutcome)
    ensures selected == [] || !confirmed ==> r == BulkOutcome(None, selected, None)
    ensures r.sent.Some? <==> selected != [] && confirmed
    ensures r.sent.Some? ==> r.sent.value == selected
    ensures r.sent.Some? && apiOk ==> r.selected == [] && r.error.None?
    ensures r.sent.Some? && !apiOk ==> r.selected == selected && r.error == Some(BULK_DELETE_ERROR)
  {
    if selected == [] || !confirmed then BulkOutcome(None, selected, None)
    else if apiOk then BulkOutcome(Some(selected), [], None)
    else BulkOutcome(Some(selected), selected, Some(BULK_DELETE_ERROR))
  }

  /** Nothing is sent for an empty selection, and the selection changes only
      after a request that was sent and accepted. */
  lemma BulkDeleteGuarded(selected: seq<string>, confirmed: bool, apiOk: bool)
    ensures selected == [] ==> HandleBulkDelete(selected, confirmed, apiOk).sent.None?
    ensures HandleBulkDelete(selected, confirmed, apiOk).selected != selected ==>
      HandleBulkDelete(selected, confirmed, apiOk).sent.Some? && apiOk
  {
  }

  // ---------------------------------------------------------------------------
  // Labels
  // ---------------------------------------------------------------------------

  datatype Category = Category(id: string, name: string)

  const CATEGORIES: seq<Category> := [
    Category("all", "All Categories"),
    Category("web-dev", "Web Development"),
    Category("mobile", "Mobile Development"),
    Category("ecommerce", "E-commerce"),
    Category("saas", "SaaS"),
    Category("healthcare", "Healthcare"),
    Category("fintech", "Fintech"),
    Category("education", "Education"),
    Category("other", "Other")
  ]

  /** `categories.find(c => c.id === id)`: the first category with that id. */
  function FindCategory(cats: seq<Category>, id: string): (r: Option<Category>)
    ensures r.Some? ==> r.value in cats && r.value.id == id
    ensures r.None? <==> forall i :: 0 <= i < |cats| ==> cats[i].id != id
    decreases |cats|
  {
    if cats == [] then None
    else if cats[0].id == id then Some(cats[0])
    else
      assert forall i :: 1 <= i < |cats| ==> cats[i] == cats[1..][i - 1];
      FindCategory(cats[1..], id)
  }

  /** `getCategoryName(id)`: the listed name, or the id itself when unlisted. */
  function GetCategoryName(id: string): (r: string)
    ensures (forall i :: 0 <= i < |CATEGORIES| ==> CATEGORIES[i].id != id) ==> r == id
    ensures (exists i :: 0 <= i < |CATEGORIES| && CATEGORIES[i].id == id) ==>
      exists i :: 0 <= i < |CATEGORIES| && CATEGORIES[i] == Category(id, r)
  {
    var c := FindCategory(CATEGORIES, id);
    if c.Some? then c.value.name else id
  }

  ghost predicate DistinctIds(cats: seq<Category>) {
    forall i, j :: 0 <= i < j < |cats| ==> cats[i].id != cats[j].id
  }

  /** With distinct ids, looking up the id of an entry finds that entry. */
  lemma {:induction false} FindListed(cats: seq<Category>, i: int)
    requires DistinctIds(cats) && 0 <= i < |cats|
    ensures FindCategory(cats, cats[i].id) == Some(cats[i])
    decreases |cats|
  {
    if i > 0 {
      assert cats[0].id != cats[i].id;
      assert cats[1..][i - 1] == cats[i];
      FindListed(cats[1..], i - 1);
    }
  }

  /** The first two characters of an id, as one number. */
  function IdCode(id: string): int
    requires |id| >= 2
  {
    id[0] as int * 128 + id[1] as int
  }

  const CATEGORY_CODES: seq<int> := [12524, 15333, 14063, 13027, 14817, 13413, 13161, 13028, 14324]

  lemma CategoryCodesDistinct()
    ensures forall i, j :: 0 <= i < j < |CATEGORY_CODES| ==> CATEGORY_CODES[i] != CATEGORY_CODES[j]
  {
  }

  lemma CategoryIdCodes()
    ensures forall i :: 0 <= i < |CATEGORIES| ==> |CATEGORIES[i].id| >= 2 && IdCode(CATEGORIES[i].id) == CATEGORY_CODES[i]
  {
  }

  lemma CategoryIdsDistinct()
    ensures DistinctIds(CATEGORIES)
  {
    CategoryIdCodes();
    CategoryCodesDistinct();
    assert |CATEGORIES| == |CATEGORY_CODES|;
  }

  /** Every listed id is named by its own entry. */
  lemma CategoryNamesListed(i: int)
    requires 0 <= i < |CATEGORIES|
    ensures GetCategoryName(CATEGORIES[i].id) == CATEGORIES[i].name
  {
    CategoryIdsDistinct();
    FindListed(CATEGORIES, i);
  }

  /** How a status badge looks. */
  datatype Badge = Badge(color: string, text: string)

  const GRAY_BADGE := "bg-gray-100 text-gray-800"

  /** `getStatusBadge(status)`: the configured look of the three known statuses;
      any other status is shown gray under its own name. */
  function StatusBadge(status: string): (r: Badge)
    ensures status == "completed" ==> r == Badge("bg-green-100 text-green-800", "Completed")
    ensures status == "in-progress" ==> r == Badge("bg-blue-100 text-blue-800", "In Progress")
    ensures status == "on-hold" ==> r == Badge("bg-yellow-100 text-yellow-800", "On Hold")
    ensures status !in {"completed", "in-progress", "on-hold"} ==> r == Badge(GRAY_BADGE, status)
  {
    if status == "completed" then Badge("bg-green-100 text-green-800", "Completed")
    else if status == "in-progress" then Badge("bg-blue-100 text-blue-800", "In Progress")
    else if status == "on-hold" then Badge("bg-yellow-100 text-yellow-800", "On Hold")
    else Badge(GRAY_BADGE, status)
  }

  /** Only the unknown statuses are gray. */
  lemma GrayOnlyWhenUnknown(status: string)
    ensures StatusBadge(status).color == GRAY_BADGE <==> status !in {"completed", "in-progress", "on-hold"}
  {
  }

  // ---------------------------------------------------------------------------
  // Page buttons
  // ---------------------------------------------------------------------------

  /** `Array.from({length: Math.min(5, totalPages)}, (_, i) => i + 1)`: the
      numbered buttons (a negative length gives none). */
  function PageButtons(totalPages: int): (r: seq<int>)
    ensures |r| == Max(0, Min(5, totalPages))
    ensures forall i :: 0 <= i < |r| ==> r[i] == i + 1
  {
    var n := Max(0, Min(5, totalPages));
    seq(n, i requires 0 <= i < n => i + 1)
  }

  /** The buttons are exactly pages 1 to `min(5, totalPages)`: a sixth page or
      later has no button of its own. */
  lemma PageButtonsRange(totalPages: int, p: int)
    ensures p in PageButtons(totalPages) <==> 1 <= p <= Min(5, totalPages)
  {
    if 1 <= p <= Min(5, totalPages) {
      assert PageButtons(totalPages)[p - 1] == p;
    }
  }
}
