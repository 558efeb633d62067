/**
 * The filter object shared by the admin contact and portfolio lists: one plain
 * object holding the search fields together with `page` and `limit`, sent as
 * the query of the listing request. Both pages update it with the same two
 * handlers.
 */
module FilterState {
  import opened Common
  import opened Assoc
  import opened Query

  /** `handleFilterChange(key, value)`: `{ ...prev, [key]: value, page: 1 }`.
      The page is written after the key, so it wins even when the key is `page`. */
  function HandleFilterChange(filters: Filters, key: string, value: Value): (r: Filters)
    ensures Lookup(r, "page") == Some(Num(1))
    ensures key != "page" ==> Lookup(r, key) == Some(value)
    ensures forall k :: k != key && k != "page" ==> Lookup(r, k) == Lookup(filters, k)
    ensures Keys(filters) <= Keys(r)
  {
    Put(Put(filters, key, value), "page", Num(1))
  }

  /** `handlePageChange(newPage)`: `{ ...prev, page: newPage }`; nothing else moves. */
  function HandlePageChange(filters: Filters, page: int): (r: Filters)
    ensures Lookup(r, "page") == Some(Num(page))
    ensures forall k :: k != "page" ==> Lookup(r, k) == Lookup(filters, k)
    ensures Keys(filters) <= Keys(r)
  {
    Put(filters, "page", Num(page))
  }

  /** A filter change followed by a page change keeps the filter and shows the
      requested page. */
  lemma FilterThenPage(filters: Filters, key: string, value: Value, page: int)
    requires key != "page"
    ensures Lookup(HandlePageChange(HandleFilterChange(filters, key, value), page), key) == Some(value)
    ensures Lookup(HandlePageChange(HandleFilterChange(filters, key, value), page), "page") == Some(Num(page))
  {
  }

  /** Filter changes never depend on the page they start from. */
  lemma FilterChangeForgetsPage(filters: Filters, key: string, value: Value, page: int)
    requires key != "page"
    ensures forall k :: Lookup(HandleFilterChange(HandlePageChange(filters, page), key, value), k) == Lookup(HandleFilterChange(filters, key, value), k)
  {
  }
}
