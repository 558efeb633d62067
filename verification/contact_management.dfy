/**
 * The admin contact list (`src/pages/admin/ContactManagement.jsx`): its filter
 * object (which also carries the page), the selection of contact ids with the
 * header checkbox, the guards around the bulk actions and the badge colours.
 */
module ContactManagement {
  import opened Common
  import opened Lists
  import opened Assoc
  import opened Query
  import opened FilterState
  import ContactApi
  import Strings

  /** One row of the list; only the fields the handlers read. */
  datatype Contact = Contact(id: string, status: string, priority: string)

  datatype State = State(filters: Filters, contacts: seq<Contact>, selected: seq<string>)

  const DEFAULT_FILTERS: Filters := [
    ("search", Str("")), ("status", Str("")), ("priority", Str("")), ("projectType", Str("")),
    ("page", Num(1)), ("limit", Num(10)), ("sortBy", Str("createdAt")), ("sortOrder", Str("desc"))
  ]

  /** The page buttons and the Previous/Next buttons of this page call
      `handleFilterChange('page', n)`: whatever page is asked for, the list
      lands on page 1. */
  lemma PageButtonsStayOnFirstPage(filters: Filters, n: int)
    ensures Lookup(HandleFilterChange(filters, "page", Num(n)), "page") == Some(Num(1))
    ensures n != 1 ==> Lookup(HandleFilterChange(filters, "page", Num(n)), "page") != Some(Num(n))
  {
  }

  /** The step the buttons evidently intend is the page change of the portfolio
      list: it reaches page `n` and keeps every filter. */
  lemma PageChangeReachesPage(filters: Filters, n: int)
    ensures Lookup(HandlePageChange(filters, n), "page") == Some(Num(n))
    ensures forall k :: k != "page" ==> Lookup(HandlePageChange(filters, n), k) == Lookup(filters, k)
  {
  }

  // ---------------------------------------------------------------------------
  // Selection
  // ---------------------------------------------------------------------------

  function Ids(contacts: seq<Contact>): (r: seq<string>)
    ensures |r| == |contacts|
    ensures forall i :: 0 <= i < |contacts| ==> r[i] == contacts[i].id
  {
    seq(|contacts|, i requires 0 <= i < |contacts| => contacts[i].id)
  }

  /** `handleSelectAll(checked)`: every shown contact, in list order, or none. */
  function SelectAll(contacts: seq<Contact>, checked: bool): (r: seq<string>)
    ensures checked ==> |r| == |contacts| && forall i :: 0 <= i < |r| ==> r[i] == contacts[i].id
    ensures !checked ==> r == []
  {
    if checked then Ids(contacts) else []
  }

  /** `handleSelectContact(id, checked)`: checking appends the id (a second check
      would add it twice); unchecking removes every copy and keeps the rest in order. */
  function SelectContact(selected: seq<string>, id: string, checked: bool): (r: seq<string>)
    ensures checked ==> r == selected + [id]
    ensures !checked ==> id !in r && Subseq(r, selected)
    ensures !checked ==> forall i :: 0 <= i < |selected| && selected[i] != id ==> selected[i] in r
    ensures !checked ==> multiset(r) == multiset(selected)[id := 0]
  {
    if checked then selected + [id] else RemoveAll(selected, id)
  }

  /** Checking and then unchecking a box leaves the selection without that id,
      whatever it held before. */
  lemma {:induction false} CheckThenUncheck(selected: seq<string>, id: string)
    ensures SelectContact(SelectContact(selected, id, true), id, false) == RemoveAll(selected, id)
  {
    RemoveAppended(selected, id);
  }

  /** Unchecking an id that was never selected changes nothing. */
  lemma {:induction false} UncheckAbsent(selected: seq<string>, id: string)
    requires id !in selected
    ensures SelectContact(selected, id, false) == selected
  {
    RemoveAbsent(selected, id);
  }

  /** The header checkbox: `selectedContacts.length === contacts.length && contacts.length > 0`. */
  predicate HeaderChecked(selected: seq<string>, contacts: seq<Contact>) {
    |selected| == |contacts| && |contacts| > 0
  }

  /** Ticking the header box checks it exactly when there is a contact; clearing
      it always unchecks it. */
  lemma SelectAllChecksHeader(contacts: seq<Contact>)
    ensures HeaderChecked(SelectAll(contacts, true), contacts) <==> contacts != []
    ensures !HeaderChecked(SelectAll(contacts, false), contacts)
  {
  }

  // ---------------------------------------------------------------------------
  // Bulk actions
  // ---------------------------------------------------------------------------

  /** The request a bulk action sends. */
  datatype Request = BulkUpdate(ids: seq<string>, status: string) | BulkDelete(ids: seq<string>)

  datatype Toast = Warning(text: string) | Success(text: string) | Failure(text: string)

  /** What a bulk action did: the request it sent (if any), the toast it showed
      (if any) and the selection afterwards. */
  datatype Outcome = Outcome(request: Option<Request>, toast: Option<Toast>, selected: seq<string>)

  /** `handleBulkStatusUpdate(status)`; `apiOk` says whether `bulkUpdate` resolved. */
  function HandleBulkStatusUpdate(selected: seq<string>, status: string, apiOk: bool): (r: Outcome)
    ensures selected == [] ==> r == Outcome(None, Some(Warning("Please select contacts to update")), selected)
    ensures selected != [] ==> r.request == Some(BulkUpdate(selected, status))
    ensures selected != [] && apiOk ==> r.selected == [] && r.toast.Some? && r.toast.value.Success?
    ensures selected != [] && !apiOk ==> r.selected == selected && r.toast == Some(Failure("Failed to update contacts"))
  {
    if selected == [] then Outcome(None, Some(Warning("Please select contacts to update")), selected)
    else if apiOk then
      Outcome(Some(BulkUpdate(selected, status)), Some(Success(Strings.IntToString(|selected|) + " contacts updated successfully")), [])
    else Outcome(Some(BulkUpdate(selected, status)), Some(Failure("Failed to update contacts")), selected)
  }

  /** `handleBulkDelete()`; `confirmed` is the answer to `window.confirm`, `apiOk`
      whether `bulkDelete` resolved. */
  function HandleBulkDelete(selected: seq<string>, confirmed: bool, apiOk: bool): (r: Outcome)
    ensures selected == [] ==> r == Outcome(None, Some(Warning("Please select contacts to delete")), selected)
    ensures selected != [] && !confirmed ==> r == Outcome(None, None, selected)
    ensures r.request.Some? <==> selected != [] && confirmed
    ensures r.request.Some? ==> r.request.value == BulkDelete(selected)
    ensures r.request.Some? && apiOk ==> r.selected == [] && r.toast.Some? && r.toast.value.Success?
    ensures r.request.Some? && !apiOk ==> r.selected == selected && r.toast == Some(Failure("Failed to delete contacts"))
  {
    if selected == [] then Outcome(None, Some(Warning("Please select contacts to delete")), selected)
    else if !confirmed then Outcome(None, None, selected)
    else if apiOk then
      Outcome(Some(BulkDelete(selected)), Some(Success(Strings.IntToString(|selected|) + " contacts deleted successfully")), [])
    else Outcome(Some(BulkDelete(selected)), Some(Failure("Failed to delete contacts")), selected)
  }

  /** No bulk action sends a request for an empty selection, and only a sent and
      accepted request clears the selection. */
  lemma BulkActionsGuarded(selected: seq<string>, status: string, confirmed: bool, apiOk: bool)
    ensures selected == [] ==> HandleBulkStatusUpdate(selected, status, apiOk).request.None?
    ensures selected == [] ==> HandleBulkDelete(selected, confirmed, apiOk).request.None?
    ensures HandleBulkStatusUpdate(selected, status, apiOk).selected != selected ==>
      HandleBulkStatusUpdate(selected, status, apiOk).request.Some? && apiOk
    ensures HandleBulkDelete(selected, confirmed, apiOk).selected != selected ==>
      HandleBulkDelete(selected, confirmed, apiOk).request.Some? && apiOk
  {
  }

  // ---------------------------------------------------------------------------
  // Badge colours
  // ---------------------------------------------------------------------------

  const STATUS_COLORS: map<string, string> := map[
    "new" := ContactApi.BLUE,
    "contacted" := ContactApi.YELLOW,
    "in-progress" := ContactApi.PURPLE,
    "quoted" := ContactApi.ORANGE,
    "closed" := ContactApi.GREEN,
    "archived" := ContactApi.GRAY
  ]

  const PRIORITY_COLORS: map<string, string> := map[
    "low" := ContactApi.GRAY,
    "medium" := ContactApi.BLUE,
    "high" := ContactApi.ORANGE,
    "urgent" := ContactApi.RED
  ]

  /** `colors[code] || 'bg-gray-100 text-gray-800'`. */
  function ColorOf(colors: map<string, string>, code: string): (r: string)
    ensures code in colors && colors[code] != "" ==> r == colors[code]
    ensures !(code in colors && colors[code] != "") ==> r == ContactApi.GRAY
  {
    if code in colors && colors[code] != "" then colors[code] else ContactApi.GRAY
  }

  /** `getStatusColor(status)`. */
  function StatusColor(status: string): (r: string)
    ensures status in STATUS_COLORS ==> r == STATUS_COLORS[status]
    ensures status !in STATUS_COLORS ==> r == ContactApi.GRAY
  {
    ColorOf(STATUS_COLORS, status)
  }

  /** `getPriorityColor(priority)`. */
  function PriorityColor(priority: string): (r: string)
    ensures priority in PRIORITY_COLORS ==> r == PRIORITY_COLORS[priority]
    ensures priority !in PRIORITY_COLORS ==> r == ContactApi.GRAY
  {
    ColorOf(PRIORITY_COLORS, priority)
  }

  /** The badge of every status the option list offers has the colour the list
      gives it. */
  lemma StatusColorsMatchOptions(i: int)
    requires 0 <= i < |ContactApi.STATUS_OPTIONS|
    ensures StatusColor(ContactApi.STATUS_OPTIONS[i].value) == ContactApi.STATUS_OPTIONS[i].color
  {
  }

  lemma PriorityColorsMatchOptions(i: int)
    requires 0 <= i < |ContactApi.PRIORITY_OPTIONS|
    ensures PriorityColor(ContactApi.PRIORITY_OPTIONS[i].value) == ContactApi.PRIORITY_OPTIONS[i].color
  {
  }
}
