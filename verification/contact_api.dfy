/**
 * The contact REST wrapper (`src/utils/contactApi.js`): the listing URL, the
 * choice of error message for a failed response, the retry schedule around
 * `fetch`, the option lists of the admin forms and the label decoration of a
 * contact record. The network itself is a parameter: `fetch` is a function
 * from the attempt number to what that attempt produced.
 */
module ContactApi {
  import opened Common
  import opened Strings
  import opened Assoc
  import opened Query

  const DEFAULT_BASE_URL := "http://localhost:5000"

  /** `import.meta.env.VITE_BACKEND_URL || 'http://localhost:5000'`. */
  function BaseUrl(env: Option<string>): (r: string)
    ensures env.Some? && env.value != "" ==> r == env.value
    ensures env.None? || env.value == "" ==> r == DEFAULT_BASE_URL
  {
    TextOr(env, DEFAULT_BASE_URL)
  }

  /** `getAll(filters)`: the contacts listing with the kept filters as its query. */
  function GetAllUrl(base: string, f: Filters): (r: string)
    ensures |r| >= |base + "/api/contacts"| && r[..|base + "/api/contacts"|] == base + "/api/contacts"
    ensures KeptEntries(f) == [] ==> r == base + "/api/contacts"
    ensures KeptEntries(f) != [] ==> r == base + "/api/contacts" + "?" + Render(Params(f))
  {
    Url(base + "/api/contacts", f)
  }

  // ---------------------------------------------------------------------------
  // handleResponse
  // ---------------------------------------------------------------------------

  /** The body of a response once `response.json()` has run: a parsed object with
      its `error` field (`None` when absent), or text that is not JSON. */
  datatype Body = Parsed(error: Option<string>) | Unparsable

  datatype Response = Response(ok: bool, status: int, body: Body)

  /** What `handleResponse` resolves to or rejects with. */
  datatype Handled = Data(body: Body) | Failed(message: string)

  const NETWORK_ERROR := "Network error"

  /** `handleResponse(response)`: a successful response yields its body; a failed
      one yields the server's `error` text when it has a non-empty one, the
      status line otherwise, and "Network error" when the body is not JSON. */
  function HandleResponse(resp: Response): (r: Handled)
    ensures resp.ok <==> r.Data?
    ensures resp.ok ==> r.body == resp.body
    ensures !resp.ok && resp.body.Unparsable? ==> r.message == NETWORK_ERROR
    ensures !resp.ok && resp.body.Parsed? && resp.body.error.Some? && resp.body.error.value != ""
      ==> r.message == resp.body.error.value
    ensures !resp.ok && resp.body.Parsed? && (resp.body.error.None? || resp.body.error.value == "")
      ==> r.message == "HTTP error! status: " + IntToString(resp.status)
  {
    if resp.ok then Data(resp.body)
    else
      var errorData := if resp.body.Unparsable? then Some(NETWORK_ERROR) else resp.body.error;
      Failed(TextOr(errorData, "HTTP error! status: " + IntToString(resp.status)))
  }

  /** A failed response never produces an empty message. */
  lemma FailureMessageNonEmpty(resp: Response)
    requires !resp.ok
    ensures HandleResponse(resp).message != ""
  {
  }

  // ---------------------------------------------------------------------------
  // retryFetch
  // ---------------------------------------------------------------------------

  /** What one call of `fetch` produced: a response, or a thrown error. */
  datatype Attempt = Answered(response: Response) | Threw(error: string)

  /** How `retryFetch` settles: with a response, or by rethrowing the last error
      (`None` when there was no attempt at all, i.e. `throw undefined`). */
  datatype Settled = Resolved(response: Response) | Rejected(error: Option<string>)

  const DEFAULT_MAX_RETRIES := 3

  function Pow2(n: nat): (r: nat)
    ensures r >= 1
  {
    if n == 0 then 1 else 2 * Pow2(n - 1)
  }

  /** `Math.pow(2, i) * 1000`: the pause in milliseconds after failed attempt `i`. */
  function Backoff(i: nat): int {
    Pow2(i) * 1000
  }

  /** The pauses after the first `k` failed attempts. */
  function Pauses(k: nat): (r: seq<int>)
    ensures |r| == k
    ensures forall i :: 0 <= i < k ==> r[i] == Backoff(i)
  {
    seq(k, i requires 0 <= i < k => Backoff(i))
  }

  /** The first `n` attempts all threw. */
  predicate AllThrew(fetch: nat -> Attempt, n: nat) {
    forall i: nat :: i < n ==> fetch(i).Threw?
  }

  /** `retryFetch(url, options, maxRetries)`: up to `maxRetries + 1` calls of
      `fetch`, stopping at the first one that does not throw; between a failed
      call `i < maxRetries` and the next one it waits `2^i` seconds. Returns the
      outcome, the number of calls made and the pauses taken. */
  method RetryFetch(fetch: nat -> Attempt, maxRetries: int) returns (r: Settled, calls: nat, pauses: seq<int>)
    ensures calls <= if maxRetries < 0 then 0 else maxRetries + 1
    ensures r.Resolved? ==>
      calls >= 1 && AllThrew(fetch, calls - 1) && fetch(calls - 1) == Answered(r.response)
    ensures r.Rejected? ==>
      AllThrew(fetch, calls) && calls == (if maxRetries < 0 then 0 else maxRetries + 1)
    ensures r.Rejected? && maxRetries >= 0 ==> r.error == Some(fetch(maxRetries).error)
    ensures r.Rejected? && maxRetries < 0 ==> r.error.None?
    ensures r.Resolved? ==> pauses == Pauses(calls - 1)
    ensures r.Rejected? && maxRetries >= 0 ==> pauses == Pauses(maxRetries)
  {
    var lastError: Option<string> := None;
    var i := 0;
    pauses := [];
    while i <= maxRetries
      invariant 0 <= i && (maxRetries >= 0 ==> i <= maxRetries + 1)
      invariant AllThrew(fetch, i)
      invariant pauses == Pauses(if i <= maxRetries then i else Max(maxRetries, 0))
      invariant i > 0 ==> lastError == Some(fetch(i - 1).error)
      invariant i == 0 ==> lastError.None?
      invariant maxRetries < 0 ==> i == 0
      decreases maxRetries - i + 1
    {
      var attempt := fetch(i);
      if attempt.Answered? {
        return Resolved(attempt.response), i + 1, pauses;
      }
      lastError := Some(attempt.error);
      if i < maxRetries {
        pauses := pauses + [Backoff(i)];
      }
      i := i + 1;
    }
    return Rejected(lastError), i, pauses;
  }

  /** With the default of three retries, a network that always throws is tried
      four times, with pauses of one, two and four seconds. */
  lemma DefaultSchedule()
    ensures Pauses(DEFAULT_MAX_RETRIES) == [1000, 2000, 4000]
  {
    assert Pow2(2) == 4;
  }

  // ---------------------------------------------------------------------------
  // Option lists and labels
  // ---------------------------------------------------------------------------

  /** One entry of an option list: the stored code, the label shown (`name`), and the
      badge class (empty for lists without colours). */
  datatype Choice = Choice(value: string, name: string, color: string)

  const BLUE := "bg-blue-100 text-blue-800"
  const YELLOW := "bg-yellow-100 text-yellow-800"
  const PURPLE := "bg-purple-100 text-purple-800"
  const ORANGE := "bg-orange-100 text-orange-800"
  const GREEN := "bg-green-100 text-green-800"
  const GRAY := "bg-gray-100 text-gray-800"
  const RED := "bg-red-100 text-red-800"

  const STATUS_OPTIONS: seq<Choice> := [
    Choice("new", "New", BLUE),
    Choice("contacted", "Contacted", YELLOW),
    Choice("in-progress", "In Progress", PURPLE),
    Choice("quoted", "Quoted", ORANGE),
    Choice("closed", "Closed", GREEN),
    Choice("archived", "Archived", GRAY)
  ]

  const PRIORITY_OPTIONS: seq<Choice> := [
    Choice("low", "Low", GRAY),
    Choice("medium", "Medium", BLUE),
    Choice("high", "High", ORANGE),
    Choice("urgent", "Urgent", RED)
  ]

  const PROJECT_TYPE_OPTIONS: seq<Choice> := [
    Choice("web-development", "Web Development", ""),
    Choice("mobile-app", "Mobile App Development", ""),
    Choice("ecommerce", "E-commerce Solution", ""),
    Choice("digital-marketing", "Digital Marketing", ""),
    Choice("branding", "Branding & Design", ""),
    Choice("consulting", "Digital Consulting", ""),
    Choice("other", "Other", "")
  ]

  /** The codes of an option list are pairwise different. */
  ghost predicate DistinctValues(options: seq<Choice>) {
    forall i, j :: 0 <= i < j < |options| ==> options[i].value != options[j].value
  }

  /** The status list offers six different codes. */
  lemma StatusCodesDistinct()
    ensures |STATUS_OPTIONS| == 6 && DistinctValues(STATUS_OPTIONS)
  {
  }

  lemma PriorityCodesDistinct()
    ensures |PRIORITY_OPTIONS| == 4 && DistinctValues(PRIORITY_OPTIONS)
  {
  }

  const PROJECT_TYPE_LABELS: map<string, string> := map[
    "web-development" := "Web Development",
    "mobile-app" := "Mobile App Development",
    "ecommerce" := "E-commerce Solution",
    "digital-marketing" := "Digital Marketing",
    "branding" := "Branding & Design",
    "consulting" := "Digital Consulting",
    "other" := "Other"
  ]

  const BUDGET_LABELS: map<string, string> := map[
    "5k-15k" := "$5,000 - $15,000",
    "15k-30k" := "$15,000 - $30,000",
    "30k-50k" := "$30,000 - $50,000",
    "50k-100k" := "$50,000 - $100,000",
    "100k+" := "$100,000+",
    "discuss" := "Let's Discuss"
  ]

  const TIMELINE_LABELS: map<string, string> := map[
    "asap" := "ASAP",
    "1-3-months" := "1-3 Months",
    "3-6-months" := "3-6 Months",
    "6-12-months" := "6-12 Months",
    "flexible" := "Flexible Timeline"
  ]

  /** `labels[code] || code`: a known code becomes its (non-empty) label;
      anything else, including a missing field, is passed through as it is. */
  function LabelOf(labels: map<string, string>, code: Value): (r: Value)
    ensures code.Str? && code.s in labels && labels[code.s] != "" ==> r == Str(labels[code.s])
    ensures !(code.Str? && code.s in labels && labels[code.s] != "") ==> r == code
  {
    match code
    case Str(s) => if s in labels && labels[s] != "" then Str(labels[s]) else code
    case _ => code
  }

  /** The field of a record, `undefined` when absent. */
  function Field(contact: Entries<Value>, key: string): Value {
    Lookup(contact, key).GetOr(Undefined)
  }

  const LABEL_KEYS := {"projectTypeLabel", "budgetLabel", "timelineLabel"}

  /** The fields `formatContactData` adds to a contact. */
  const ADDED_KEYS := LABEL_KEYS + {"formattedDate", "formattedDateTime"}

  /** The contact with its three label fields added. */
  function Labelled(contact: Entries<Value>): (r: Entries<Value>)
    ensures forall k :: k !in LABEL_KEYS ==> Lookup(r, k) == Lookup(contact, k)
    ensures Lookup(r, "projectTypeLabel") == Some(LabelOf(PROJECT_TYPE_LABELS, Field(contact, "projectType")))
    ensures Lookup(r, "budgetLabel") == Some(LabelOf(BUDGET_LABELS, Field(contact, "budget")))
    ensures Lookup(r, "timelineLabel") == Some(LabelOf(TIMELINE_LABELS, Field(contact, "timeline")))
  {
    var a := Put(contact, "projectTypeLabel", LabelOf(PROJECT_TYPE_LABELS, Field(contact, "projectType")));
    var b := Put(a, "budgetLabel", LabelOf(BUDGET_LABELS, Field(contact, "budget")));
    Put(b, "timelineLabel", LabelOf(TIMELINE_LABELS, Field(contact, "timeline")))
  }

  /** `formatContactData(contact)`: the contact with three label fields and two
      date fields added. `date` and `dateTime` are what `toLocaleDateString` and
      `toLocaleString` make of `createdAt`; the locale is outside the model. */
  function FormatContactData(contact: Entries<Value>, date: string, dateTime: string): (r: Entries<Value>)
    ensures forall k :: k !in ADDED_KEYS ==> Lookup(r, k) == Lookup(contact, k)
    ensures Lookup(r, "projectTypeLabel") == Some(LabelOf(PROJECT_TYPE_LABELS, Field(contact, "projectType")))
    ensures Lookup(r, "budgetLabel") == Some(LabelOf(BUDGET_LABELS, Field(contact, "budget")))
    ensures Lookup(r, "timelineLabel") == Some(LabelOf(TIMELINE_LABELS, Field(contact, "timeline")))
    ensures Lookup(r, "formattedDate") == Some(Str(date))
    ensures Lookup(r, "formattedDateTime") == Some(Str(dateTime))
  {
    var l := Labelled(contact);
    var r := Put(Put(l, "formattedDate", Str(date)), "formattedDateTime", Str(dateTime));
    DateKeysApart();
    PutTwo(l, "formattedDate", Str(date), "formattedDateTime", Str(dateTime));
    forall k | k !in ADDED_KEYS
      ensures Lookup(r, k) == Lookup(contact, k)
    {
      PutTwoElsewhere(l, "formattedDate", Str(date), "formattedDateTime", Str(dateTime), k);
    }
    PutTwoElsewhere(l, "formattedDate", Str(date), "formattedDateTime", Str(dateTime), "projectTypeLabel");
    PutTwoElsewhere(l, "formattedDate", Str(date), "formattedDateTime", Str(dateTime), "budgetLabel");
    PutTwoElsewhere(l, "formattedDate", Str(date), "formattedDateTime", Str(dateTime), "timelineLabel");
    r
  }

  /** Two writes under different keys are both read back. */
  lemma PutTwo(e: Entries<Value>, k1: string, v1: Value, k2: string, v2: Value)
    requires k1 != k2
    ensures Lookup(Put(Put(e, k1, v1), k2, v2), k1) == Some(v1)
    ensures Lookup(Put(Put(e, k1, v1), k2, v2), k2) == Some(v2)
  {
  }

  /** Two writes leave every other key as it was. */
  lemma PutTwoElsewhere(e: Entries<Value>, k1: string, v1: Value, k2: string, v2: Value, k: string)
    requires k != k1 && k != k2
    ensures Lookup(Put(Put(e, k1, v1), k2, v2), k) == Lookup(e, k)
  {
  }

  /** The two date fields are neither label fields nor each other. */
  lemma DateKeysApart()
    ensures forall k :: k in LABEL_KEYS ==> k != "formattedDate" && k != "formattedDateTime"
    ensures "formattedDate" != "formattedDateTime"
  {
    assert |"formattedDate"| != |"formattedDateTime"|;
    assert "timelineLabel"[0] != "formattedDate"[0];
  }

  /** The labels of the project-type option list and those `formatContactData`
      shows agree, code by code. */
  lemma ProjectTypeLabelsAgree(i: int)
    requires 0 <= i < |PROJECT_TYPE_OPTIONS|
    ensures PROJECT_TYPE_OPTIONS[i].value in PROJECT_TYPE_LABELS
    ensures PROJECT_TYPE_LABELS[PROJECT_TYPE_OPTIONS[i].value] == PROJECT_TYPE_OPTIONS[i].name
  {
  }

  /** A contact of a known project type gets the type's label. */
  lemma KnownCodeLabelled(contact: Entries<Value>, date: string, dateTime: string, code: string)
    requires Lookup(contact, "projectType") == Some(Str(code))
    requires code in PROJECT_TYPE_LABELS && PROJECT_TYPE_LABELS[code] != ""
    ensures Lookup(FormatContactData(contact, date, dateTime), "projectTypeLabel") == Some(Str(PROJECT_TYPE_LABELS[code]))
  {
  }

  /** An unknown budget code is shown as it is. */
  lemma UnknownCodeKept(contact: Entries<Value>, date: string, dateTime: string, code: string)
    requires Lookup(contact, "budget") == Some(Str(code)) && code !in BUDGET_LABELS
    ensures Lookup(FormatContactData(contact, date, dateTime), "budgetLabel") == Some(Str(code))
  {
  }

  /** A contact without a timeline gets an `undefined` timeline label. */
  lemma MissingCodeUndefined(contact: Entries<Value>, date: string, dateTime: string)
    requires Lookup(contact, "timeline").None?
    ensures Lookup(FormatContactData(contact, date, dateTime), "timelineLabel") == Some(Undefined)
  {
  }
}
