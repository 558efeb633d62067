/**
 * A plain JavaScript object used as a record of named values: an ordered list
 * of (key, value) entries. `{ ...obj, [key]: value }` is `Put`, and
 * `{ ...base, ...over }` is `Spread`. Keys keep their insertion order, which is
 * the order `Object.entries` walks (for the non-numeric keys used here).
 */
module Assoc {
  import opened Common

  type Entries<V> = seq<(string, V)>

  function Keys<V>(e: Entries<V>): (r: seq<string>)
    ensures |r| == |e|
    ensures forall i :: 0 <= i < |e| ==> r[i] == e[i].0
  {
    seq(|e|, i requires 0 <= i < |e| => e[i].0)
  }

  /** `obj[k]`: the value stored under `k`. A later entry shadows an earlier one,
      as the later of two writes to one key does. */
  function Lookup<V>(e: Entries<V>, k: string): (r: Option<V>)
    ensures r.None? <==> k !in Keys(e)
    decreases |e|
  {
    if e == [] then None
    else if e[|e| - 1].0 == k then Some(e[|e| - 1].1)
    else
      assert Keys(e) == Keys(e[..|e| - 1]) + [e[|e| - 1].0];
      Lookup(e[..|e| - 1], k)
  }

  /** Adding an entry at the end shadows only its own key. */
  lemma LookupSnoc<V>(e: Entries<V>, k: string, v: V, k': string)
    ensures Lookup(e + [(k, v)], k') == if k' == k then Some(v) else Lookup(e, k')
  {
    assert (e + [(k, v)])[..|e|] == e;
  }

  /** The value of an entry no later entry shadows. */
  lemma {:induction false} LookupAt<V>(e: Entries<V>, i: int)
    requires 0 <= i < |e|
    requires forall j :: i < j < |e| ==> e[j].0 != e[i].0
    ensures Lookup(e, e[i].0) == Some(e[i].1)
    decreases |e|
  {
    var n := |e| - 1;
    if i < n {
      assert e[..n][i] == e[i];
      LookupAt(e[..n], i);
    }
  }

  /** `{ ...obj, [k]: v }`: an existing key keeps its position and takes the new
      value; a new key is appended. */
  function Put<V>(e: Entries<V>, k: string, v: V): (r: Entries<V>)
    ensures Lookup(r, k) == Some(v)
    ensures forall k' :: k' != k ==> Lookup(r, k') == Lookup(e, k')
    ensures Keys(r) == if k in Keys(e) then Keys(e) else Keys(e) + [k]
  {
    if k in Keys(e) then
      var r := seq(|e|, i requires 0 <= i < |e| => if e[i].0 == k then (k, v) else e[i]);
      ReplaceLookup(e, k, v);
      r
    else
      assert Keys(e + [(k, v)]) == Keys(e) + [k];
      assert (e + [(k, v)])[..|e|] == e;
      e + [(k, v)]
  }

  lemma {:induction false} ReplaceLookup<V>(e: Entries<V>, k: string, v: V)
    ensures var r := seq(|e|, i requires 0 <= i < |e| => if e[i].0 == k then (k, v) else e[i]);
      && (k in Keys(e) ==> Lookup(r, k) == Some(v))
      && (forall k' :: k' != k ==> Lookup(r, k') == Lookup(e, k'))
    decreases |e|
  {
    var r := seq(|e|, i requires 0 <= i < |e| => if e[i].0 == k then (k, v) else e[i]);
    if e != [] {
      var n := |e| - 1;
      var r' := seq(n, i requires 0 <= i < n => if e[..n][i].0 == k then (k, v) else e[..n][i]);
      assert r[..n] == r';
      ReplaceLookup(e[..n], k, v);
      assert Keys(e) == Keys(e[..n]) + [e[n].0];
    }
  }

  /** `{ ...base, ...over }`: every key of `over` takes its value from `over`,
      every other key keeps its value from `base`. */
  function Spread<V>(base: Entries<V>, over: Entries<V>): (r: Entries<V>)
    ensures forall k :: Lookup(r, k) == if Lookup(over, k).Some? then Lookup(over, k) else Lookup(base, k)
    ensures Keys(base) <= Keys(r)
    decreases |over|
  {
    if over == [] then base
    else
      var n := |over| - 1;
      var r := Put(Spread(base, over[..n]), over[n].0, over[n].1);
      assert Keys(over) == Keys(over[..n]) + [over[n].0];
      r
  }

  /** No key occurs twice, as in any object built by property writes. */
  predicate DistinctKeys<V>(e: Entries<V>) {
    forall i, j :: 0 <= i < j < |e| ==> e[i].0 != e[j].0
  }

  /** Writing a property keeps the keys distinct. */
  lemma PutDistinct<V>(e: Entries<V>, k: string, v: V)
    requires DistinctKeys(e)
    ensures DistinctKeys(Put(e, k, v))
  {
    var r := Put(e, k, v);
    assert forall i :: 0 <= i < |r| ==> r[i].0 == Keys(r)[i];
    assert forall i :: 0 <= i < |e| ==> e[i].0 == Keys(e)[i];
    if k !in Keys(e) {
      assert forall i :: 0 <= i < |e| ==> Keys(e)[i] in Keys(e);
    }
  }
}
