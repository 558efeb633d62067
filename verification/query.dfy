/**
 * The query-string construction shared by the REST wrappers
 * (`src/utils/contactApi.js` and `src/utils/careerApi.js`): every filter entry
 * whose value is not `undefined`, `null` or `''` is appended to a
 * `URLSearchParams`, and `?` plus the rendered parameters is added to the path
 * only when there is at least one parameter.
 */
module Query {
  import opened Common
  import opened Strings
  import opened Lists
  import opened Assoc

  /** The JavaScript values the pages put into filter objects. */
  datatype Value = Str(s: string) | Num(n: int) | Bool(b: bool) | Undefined | Null

  type Filters = Entries<Value>

  /** JavaScript truthiness: what `if (v)` and `v || fallback` test. */
  predicate Truthy(v: Value) {
    match v
    case Str(s) => s != ""
    case Num(n) => n != 0
    case Bool(b) => b
    case _ => false
  }

  /** One query parameter, already turned into text. */
  type Param = (string, string)

  /** The filter test of the wrappers: `value !== undefined && value !== null && value !== ''`.
      Unlike `||`, it lets 0 and `false` through. */
  predicate Kept(v: Value) {
    !(v.Undefined? || v.Null? || v == Str(""))
  }

  /** `String(value)`, the text `URLSearchParams.append` stores. */
  function Text(v: Value): string {
    match v
    case Str(s) => s
    case Num(n) => IntToString(n)
    case Bool(b) => if b then "true" else "false"
    case Undefined => "undefined"
    case Null => "null"
  }

  /** Every entry turned into a parameter, kept or not. */
  function AllParams(f: Filters): (q: seq<Param>)
    ensures |q| == |f|
    ensures forall i :: 0 <= i < |f| ==> q[i] == (f[i].0, Text(f[i].1))
  {
    seq(|f|, i requires 0 <= i < |f| => (f[i].0, Text(f[i].1)))
  }

  /** The entries `getAll` turns into parameters: exactly the kept ones, in the
      order of the filter object. */
  function KeptEntries(f: Filters): (k: Filters)
    ensures forall i :: 0 <= i < |k| ==> k[i] in f && Kept(k[i].1)
    ensures forall j :: 0 <= j < |f| && Kept(f[j].1) ==> f[j] in k
    ensures Subseq(k, f)
    ensures forall e :: multiset(k)[e] == if Kept(e.1) then multiset(f)[e] else 0
    ensures k == [] <==> forall j :: 0 <= j < |f| ==> !Kept(f[j].1)
  {
    Filter(f, (e: (string, Value)) => Kept(e.1))
  }

  /** The filter looks at the first entry, then at the rest. */
  lemma KeptEntriesCons(e: (string, Value), rest: Filters)
    ensures KeptEntries([e] + rest) == (if Kept(e.1) then [e] else []) + KeptEntries(rest)
  {
    assert ([e] + rest)[1..] == rest;
  }

  /** The parameters `getAll` appends, as text. */
  function Params(f: Filters): seq<Param> {
    AllParams(KeptEntries(f))
  }

  /** `params.toString()`: `key=value` pairs joined by `&` (percent-encoding left out). */
  function Render(q: seq<Param>): (r: string)
    ensures r == "" <==> q == []
  {
    if q == [] then ""
    else if |q| == 1 then q[0].0 + "=" + q[0].1
    else q[0].0 + "=" + q[0].1 + "&" + Render(q[1..])
  }

  /** `${path}${qs ? `?${qs}` : ''}`: the request URL of a filtered listing. */
  function Url(path: string, f: Filters): (r: string)
    ensures |path| <= |r| && r[..|path|] == path
    ensures |r| > |path| <==> KeptEntries(f) != []
    ensures KeptEntries(f) != [] ==> r == path + "?" + Render(Params(f))
    ensures KeptEntries(f) == [] ==> r == path
  {
    var qs := Render(Params(f));
    if qs != "" then path + "?" + qs else path
  }

  /** When every entry is kept, every entry becomes a parameter, in order. */
  lemma AllKeptSent(f: Filters)
    requires forall j :: 0 <= j < |f| ==> Kept(f[j].1)
    ensures Params(f) == AllParams(f)
  {
    FilterAll(f, (e: (string, Value)) => Kept(e.1));
  }

  /** A filter object made of strings, numbers and booleans only: nothing is dropped
      except the empty strings. */
  lemma ZeroAndFalseAreSent(f: Filters)
    requires forall j :: 0 <= j < |f| ==> f[j].1.Num? || f[j].1.Bool?
    ensures Params(f) == AllParams(f)
  {
    FilterAll(f, (e: (string, Value)) => Kept(e.1));
  }
}
