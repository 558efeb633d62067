/**
 * The public contact form (`src/pages/contact/components/ContactForm.jsx`): its
 * field values, the error messages `validateForm` produces, the reCAPTCHA token,
 * and what a submission sends and leaves behind. The form data is a plain object
 * of values; the server's answer to `contactApi.submit` is a parameter.
 */
module ContactForm {
  import opened Common
  import opened Strings
  import opened Assoc
  import opened Query
  import ContactApi

  type FormData = Entries<Value>

  /** The values the form starts with and a successful submission restores. */
  const INITIAL_DATA: FormData := [
    ("name", Str("")), ("email", Str("")), ("phone", Str("")), ("company", Str("")),
    ("projectType", Str("")), ("budget", Str("")), ("timeline", Str("")), ("message", Str("")),
    ("terms", Bool(false))
  ]

  const NAME_REQUIRED := "Name is required"
  const EMAIL_REQUIRED := "Email is required"
  const EMAIL_INVALID := "Please enter a valid email"
  const PHONE_REQUIRED := "Phone number is required"
  const PROJECT_TYPE_REQUIRED := "Please select a project type"
  const BUDGET_REQUIRED := "Please select a budget range"
  const MESSAGE_REQUIRED := "Please describe your project"
  const TERMS_REQUIRED := "You must agree to the terms"
  const ROBOT_CHECK := "Please verify that you are not a robot."

  /** The fields `validateForm` can complain about. */
  const CHECKED_FIELDS := {"name", "email", "phone", "projectType", "budget", "message", "terms"}

  /** The form's state: the data, the per-field error texts (a cleared error is
      kept as ""), the reCAPTCHA token ("" when there is none) and the
      reCAPTCHA error text. */
  datatype Form = Form(data: FormData, errors: map<string, string>, token: string, robotError: string)

  const INITIAL := Form(INITIAL_DATA, map[], "", "")

  /** `formData[k]`, `undefined` when the key is absent. */
  function Field(data: FormData, k: string): Value {
    Lookup(data, k).GetOr(Undefined)
  }

  /** The text of a field. The inputs only ever store text in these fields; any
      other value reads as empty. */
  function TextField(data: FormData, k: string): string {
    if Field(data, k).Str? then Field(data, k).s else ""
  }

  // ---------------------------------------------------------------------------
  // The e-mail pattern /\S+@\S+\.\S+/
  // ---------------------------------------------------------------------------

  /** The pattern matches `s` with its `@` at index `a` and its `.` at index `d`:
      a non-blank character before the `@`, at least one character between the
      `@` and the `.`, all of them non-blank, and a non-blank character after
      the `.`. The pattern has no anchors, so anything may surround the match. */
  predicate EmailAt(s: string, a: int, d: int) {
    && 1 <= a && a + 2 <= d && d + 1 < |s|
    && !IsSpace(s[a - 1]) && s[a] == '@' && s[d] == '.' && !IsSpace(s[d + 1])
    && forall k :: a < k < d ==> !IsSpace(s[k])
  }

  /** Searching for the `.` from index `d`, with the characters between the `@`
      at `a` and `d` already known to be non-blank. */
  function DotFrom(s: string, a: int, d: int): (r: bool)
    requires 1 <= a < d <= |s|
    requires s[a] == '@' && !IsSpace(s[a - 1])
    requires forall k :: a < k < d ==> !IsSpace(s[k])
    ensures r <==> exists e :: d <= e && EmailAt(s, a, e)
    decreases |s| - d
  {
    if d + 1 >= |s| then false
    else if IsSpace(s[d]) then
      assert !EmailAt(s, a, d);
      assert forall e :: d < e ==> !EmailAt(s, a, e);
      false
    else if a + 2 <= d && s[d] == '.' && !IsSpace(s[d + 1]) then
      assert EmailAt(s, a, d);
      true
    else
      var r := DotFrom(s, a, d + 1);
      assert !EmailAt(s, a, d);
      r
  }

  /** The pattern matches with its `@` at `a`. */
  function AtSign(s: string, a: int): (r: bool)
    requires 0 <= a < |s|
    ensures r <==> exists e :: EmailAt(s, a, e)
  {
    if 1 <= a && a + 1 < |s| && s[a] == '@' && !IsSpace(s[a - 1]) then DotFrom(s, a, a + 1)
    else false
  }

  /** The pattern matches with its `@` at `a` or later. */
  function MatchFrom(s: string, a: nat): (r: bool)
    ensures r <==> exists a', e :: a <= a' && EmailAt(s, a', e)
    decreases |s| - a
  {
    if a >= |s| then false
    else if AtSign(s, a) then true
    else
      var r := MatchFrom(s, a + 1);
      assert forall a', e :: a <= a' && EmailAt(s, a', e) ==> a' == a || a + 1 <= a';
      r
  }

  /** `/\S+@\S+\.\S+/.test(s)`. */
  function ValidEmail(s: string): (r: bool)
    ensures r <==> exists a, e :: EmailAt(s, a, e)
  {
    MatchFrom(s, 0)
  }

  /** `user@host.tld` with non-blank, non-empty parts passes. */
  lemma PlainAddressAccepted(user: string, host: string, tld: string)
    requires user != "" && host != "" && tld != ""
    requires !IsSpace(user[|user| - 1]) && !IsSpace(tld[0])
    requires forall k :: 0 <= k < |host| ==> !IsSpace(host[k])
    ensures ValidEmail(user + "@" + host + "." + tld)
  {
    var s := user + "@" + host + "." + tld;
    var a := |user|;
    var d := |user| + 1 + |host|;
    assert s[a - 1] == user[|user| - 1];
    assert s[d + 1] == tld[0];
    assert forall k :: a < k < d ==> s[k] == host[k - a - 1];
    assert EmailAt(s, a, d);
  }

  /** Because the pattern is not anchored, text around an accepted address is
      accepted too, blanks and all. */
  lemma SurroundedAddressAccepted(pre: string, s: string, post: string)
    requires ValidEmail(s)
    ensures ValidEmail(pre + s + post)
  {
    var a, d :| EmailAt(s, a, d);
    var t := pre + s + post;
    var n := |pre|;
    assert forall k :: 0 <= k < |s| ==> t[n + k] == s[k];
    assert forall k :: a < k < d ==> !IsSpace(s[k]);
    assert forall k :: n + a < k < n + d ==> t[k] == s[k - n];
    assert EmailAt(t, n + a, n + d);
  }

  /** Without an `@` nothing matches. */
  lemma NoAtRejected(s: string)
    requires '@' !in s
    ensures !ValidEmail(s)
  {
  }

  // ---------------------------------------------------------------------------
  // validateForm
  // ---------------------------------------------------------------------------

  /** What `validateForm` computes: the new error object, the reCAPTCHA error it
      sets (`None` when it leaves that error alone) and its answer. */
  datatype Validation = Validation(errors: map<string, string>, robotError: Option<string>, ok: bool)

  /** `if (!text.trim()) newErrors[k] = msg`. */
  function Required(text: string, msg: string): (r: Option<string>)
    ensures r.Some? <==> AllSpace(text)
    ensures r.Some? ==> r.value == msg
  {
    TrimEmptyIffAllSpace(text);
    if Trim(text) == "" then Some(msg) else None
  }

  /** `if (!value) newErrors[k] = msg`. */
  function Chosen(v: Value, msg: string): (r: Option<string>)
    ensures r.Some? <==> !Truthy(v)
    ensures r.Some? ==> r.value == msg
  {
    if !Truthy(v) then Some(msg) else None
  }

  /** The e-mail test: required first, then the pattern. */
  function EmailError(email: string): (r: Option<string>)
    ensures AllSpace(email) ==> r == Some(EMAIL_REQUIRED)
    ensures !AllSpace(email) ==> (r.Some? <==> !ValidEmail(email))
    ensures !AllSpace(email) && r.Some? ==> r.value == EMAIL_INVALID
  {
    TrimEmptyIffAllSpace(email);
    if Trim(email) == "" then Some(EMAIL_REQUIRED)
    else if !ValidEmail(email) then Some(EMAIL_INVALID)
    else None
  }

  /** The message `validateForm` records for field `k`, if any. */
  function FieldError(data: FormData, k: string): Option<string> {
    match k
    case "name" => Required(TextField(data, "name"), NAME_REQUIRED)
    case "email" => EmailError(TextField(data, "email"))
    case "phone" => Required(TextField(data, "phone"), PHONE_REQUIRED)
    case "projectType" => Chosen(Field(data, "projectType"), PROJECT_TYPE_REQUIRED)
    case "budget" => Chosen(Field(data, "budget"), BUDGET_REQUIRED)
    case "message" => Required(TextField(data, "message"), MESSAGE_REQUIRED)
    case "terms" => Chosen(Field(data, "terms"), TERMS_REQUIRED)
    case _ => None
  }

  /** `validateForm()` on the given data and token: one message per failed
      check, the reCAPTCHA error when there is no token, and success only when
      nothing failed and there is a token. */
  function ValidateForm(data: FormData, token: string): (r: Validation)
    ensures forall k :: k in r.errors <==> k in CHECKED_FIELDS && FieldError(data, k).Some?
    ensures forall k :: k in r.errors ==> r.errors[k] == FieldError(data, k).value
    ensures r.robotError == (if token == "" then Some(ROBOT_CHECK) else None)
    ensures r.ok <==> r.errors == map[] && token != ""
  {
    var errors := map k | k in CHECKED_FIELDS && FieldError(data, k).Some? :: FieldError(data, k).value;
    Validation(errors, if token == "" then Some(ROBOT_CHECK) else None, errors == map[] && token != "")
  }

  /** What a filled-in field looks like, stated without the validator: name,
      phone and message hold a non-blank character, the e-mail matches the
      pattern somewhere, a project type and a budget are chosen and the terms
      are ticked. */
  ghost predicate Filled(data: FormData, k: string) {
    match k
    case "name" => !AllSpace(TextField(data, "name"))
    case "email" => exists a, e :: EmailAt(TextField(data, "email"), a, e)
    case "phone" => !AllSpace(TextField(data, "phone"))
    case "projectType" => Truthy(Field(data, "projectType"))
    case "budget" => Truthy(Field(data, "budget"))
    case "message" => !AllSpace(TextField(data, "message"))
    case "terms" => Truthy(Field(data, "terms"))
    case _ => true
  }

  ghost predicate Complete(data: FormData) {
    forall k :: k in CHECKED_FIELDS ==> Filled(data, k)
  }

  /** A match of the pattern needs non-blank characters. */
  lemma MatchIsNotBlank(s: string)
    requires exists a, e :: EmailAt(s, a, e)
    ensures !AllSpace(s)
  {
    var a, e :| EmailAt(s, a, e);
    assert !IsSpace(s[a]);
  }

  /** Each check fails exactly when its field is not filled in. */
  lemma FieldErrorIffUnfilled(data: FormData, k: string)
    ensures FieldError(data, k).None? <==> Filled(data, k)
  {
    if k == "email" {
      var email := TextField(data, "email");
      if exists a, e :: EmailAt(email, a, e) {
        MatchIsNotBlank(email);
      }
    }
  }

  /** The form validates exactly when it is complete and the reCAPTCHA was solved. */
  lemma ValidateIffComplete(data: FormData, token: string)
    ensures ValidateForm(data, token).ok <==> Complete(data) && token != ""
  {
    var v := ValidateForm(data, token);
    forall k ensures FieldError(data, k).None? <==> Filled(data, k) {
      FieldErrorIffUnfilled(data, k);
    }
    if Complete(data) {
      assert v.errors.Keys == {};
    }
    if v.errors == map[] {
      assert forall k :: k in CHECKED_FIELDS ==> k !in v.errors;
    }
  }

  /** Empty text fields and unmade choices each fail their check. */
  lemma BlankFieldsFail(data: FormData)
    requires TextField(data, "name") == "" && TextField(data, "email") == ""
    requires TextField(data, "phone") == "" && TextField(data, "message") == ""
    requires !Truthy(Field(data, "projectType")) && !Truthy(Field(data, "budget"))
    requires !Truthy(Field(data, "terms"))
    ensures forall k :: k in CHECKED_FIELDS ==> FieldError(data, k).Some?
  {
    assert AllSpace("");
  }

  /** A form whose text fields are empty and whose choices are not made is
      rejected, with every checked field flagged. */
  lemma BlankFormFlagged(data: FormData, token: string)
    requires TextField(data, "name") == "" && TextField(data, "email") == ""
    requires TextField(data, "phone") == "" && TextField(data, "message") == ""
    requires !Truthy(Field(data, "projectType")) && !Truthy(Field(data, "budget"))
    requires !Truthy(Field(data, "terms"))
    ensures !ValidateForm(data, token).ok
    ensures ValidateForm(data, token).errors.Keys == CHECKED_FIELDS
  {
    BlankFieldsFail(data);
    var v := ValidateForm(data, token);
    assert "name" in v.errors;
  }

  /** A field name's length and first character, as one number. */
  function KeyCode(k: string): int
    requires k != ""
  {
    |k| * 128 + k[0] as int
  }

  const INITIAL_KEY_CODES: seq<int> := [622, 741, 752, 995, 1520, 866, 1140, 1005, 756]

  lemma InitialKeyCodes()
    ensures forall i :: 0 <= i < |INITIAL_DATA| ==> INITIAL_DATA[i].0 != "" && KeyCode(INITIAL_DATA[i].0) == INITIAL_KEY_CODES[i]
  {
  }

  lemma InitialKeyCodesDistinct()
    ensures forall i, j :: 0 <= i < j < |INITIAL_KEY_CODES| ==> INITIAL_KEY_CODES[i] != INITIAL_KEY_CODES[j]
  {
  }

  /** The starting data names every field once. */
  lemma InitialKeysDistinct()
    ensures DistinctKeys(INITIAL_DATA)
  {
    InitialKeyCodes();
    InitialKeyCodesDistinct();
    assert |INITIAL_DATA| == |INITIAL_KEY_CODES|;
  }

  /** The starting data: every text field empty. */
  lemma InitialTextBlank()
    ensures TextField(INITIAL_DATA, "name") == "" && TextField(INITIAL_DATA, "email") == ""
    ensures TextField(INITIAL_DATA, "phone") == "" && TextField(INITIAL_DATA, "message") == ""
  {
    InitialTextAt(0);
    InitialTextAt(1);
    InitialTextAt(2);
    InitialTextAt(7);
  }

  lemma InitialTextAt(i: int)
    requires 0 <= i < |INITIAL_DATA| && INITIAL_DATA[i].1 == Str("")
    ensures TextField(INITIAL_DATA, INITIAL_DATA[i].0) == ""
  {
    InitialKeysDistinct();
    LookupAt(INITIAL_DATA, i);
  }

  /** The starting data: nothing chosen, terms unticked. */
  lemma InitialChoicesUnmade()
    ensures !Truthy(Field(INITIAL_DATA, "projectType")) && !Truthy(Field(INITIAL_DATA, "budget"))
    ensures !Truthy(Field(INITIAL_DATA, "terms"))
  {
    InitialKeysDistinct();
    var e := INITIAL_DATA;
    LookupAt(e, 4);
    LookupAt(e, 5);
    LookupAt(e, 8);
  }

  /** The form as it starts, and as a successful submission leaves it, is rejected. */
  lemma InitialFormRejected(token: string)
    ensures !ValidateForm(INITIAL_DATA, token).ok
    ensures ValidateForm(INITIAL_DATA, token).errors.Keys == CHECKED_FIELDS
  {
    InitialTextBlank();
    InitialChoicesUnmade();
    BlankFormFlagged(INITIAL_DATA, token);
  }

  // ---------------------------------------------------------------------------
  // Input handlers
  // ---------------------------------------------------------------------------

  /** `if (errors[name]) setErrors(prev => ({ ...prev, [name]: '' }))`: a shown
      error is cleared, anything else is left as it was. */
  function ClearError(errors: map<string, string>, name: string): (r: map<string, string>)
    ensures name in errors ==> name in r && r[name] == ""
    ensures name !in errors ==> name !in r
    ensures forall k :: k != name ==> (k in r <==> k in errors) && (k in r ==> r[k] == errors[k])
  {
    if name in errors && errors[name] != "" then errors[name := ""] else errors
  }

  /** `handleSelectChange(name, value)`, and `handleInputChange` with `value`
      already chosen from the event: the checked state for a checkbox, the text
      otherwise. */
  function SetValue(f: Form, name: string, value: Value): (r: Form)
    ensures Lookup(r.data, name) == Some(value)
    ensures forall k :: k != name ==> Lookup(r.data, k) == Lookup(f.data, k)
    ensures name !in r.errors || r.errors[name] == ""
    ensures forall k :: k != name ==> (k in r.errors <==> k in f.errors) && (k in r.errors ==> r.errors[k] == f.errors[k])
    ensures r.token == f.token && r.robotError == f.robotError
  {
    f.(data := Put(f.data, name, value), errors := ClearError(f.errors, name))
  }

  /** `handleInputChange(e)` on an input called `name`. */
  function HandleInputChange(f: Form, name: string, text: string, isCheckbox: bool, checked: bool): (r: Form)
    ensures Lookup(r.data, name) == Some(if isCheckbox then Bool(checked) else Str(text))
    ensures forall k :: k != name ==> Lookup(r.data, k) == Lookup(f.data, k)
  {
    SetValue(f, name, if isCheckbox then Bool(checked) else Str(text))
  }

  /** `handleRecaptchaChange(token)`: the token is stored and its error cleared. */
  function HandleRecaptchaChange(f: Form, token: string): (r: Form)
    ensures r.token == token && r.robotError == ""
    ensures r.data == f.data && r.errors == f.errors
  {
    f.(token := token, robotError := "")
  }

  /** Filling in one field leaves the other fields' verdicts alone: a field
      flagged before is still flagged. */
  lemma EditKeepsOtherErrors(f: Form, name: string, value: Value, k: string)
    requires k != name && k in f.errors && f.errors[k] != ""
    ensures k in SetValue(f, name, value).errors
    ensures SetValue(f, name, value).errors[k] == f.errors[k]
  {
  }

  // ---------------------------------------------------------------------------
  // handleSubmit
  // ---------------------------------------------------------------------------

  /** How `contactApi.submit` settled: resolved with the response's `message`
      field (`None` when absent), or rejected with an error's message. */
  datatype Reply = Accepted(note: Option<string>) | Refused(error: string)

  datatype Toast = Success(text: string) | Failure(text: string)

  /** What a submission did: the form afterwards, the object sent to the server
      (if any) and the toast shown (if any). */
  datatype Submission = Submission(form: Form, sent: Option<FormData>, toast: Option<Toast>)

  const THANKS := "Thank you for your inquiry! We'll get back to you within 24 hours."
  const ALREADY_SUBMITTED := "You have already submitted a contact form recently. Please wait 24 hours before submitting again."
  const CHECK_DATA := "Please check your form data and try again."
  const TRY_LATER := "Failed to submit your inquiry. Please try again later."

  /** The toast text for a rejected submission, chosen by what the error says. */
  function FailureText(message: string): (r: string)
    ensures Contains(message, "already submitted") ==> r == ALREADY_SUBMITTED
    ensures !Contains(message, "already submitted") && Contains(message, "Validation failed") ==> r == CHECK_DATA
    ensures !Contains(message, "already submitted") && !Contains(message, "Validation failed") ==> r == TRY_LATER
  {
    if Contains(message, "already submitted") then ALREADY_SUBMITTED
    else if Contains(message, "Validation failed") then CHECK_DATA
    else TRY_LATER
  }

  /** `handleSubmit`: validate; on success send the data with the token, and
      whatever the server says, drop the token. */
  function HandleSubmit(f: Form, reply: Reply): (r: Submission)
    ensures r.sent.Some? <==> ValidateForm(f.data, f.token).ok
    ensures r.sent.None? ==> r.toast.None? && r.form.data == f.data && r.form.token == f.token
    ensures r.sent.None? ==> r.form.errors == ValidateForm(f.data, f.token).errors
    ensures r.sent.None? && f.token == "" ==> r.form.robotError == ROBOT_CHECK
    ensures r.sent.Some? ==> Lookup(r.sent.value, "recaptchaToken") == Some(Str(f.token))
    ensures r.sent.Some? ==> forall k :: k != "recaptchaToken" ==> Lookup(r.sent.value, k) == Lookup(f.data, k)
    ensures r.sent.Some? ==> r.form.token == "" && r.form.errors == map[] && r.toast.Some?
    ensures r.sent.Some? && reply.Accepted? ==>
      r.form.data == INITIAL_DATA && r.toast.value == Success(TextOr(reply.note, THANKS))
    ensures r.sent.Some? && reply.Refused? ==>
      r.form.data == f.data && r.toast.value == Failure(FailureText(reply.error))
  {
    var v := ValidateForm(f.data, f.token);
    var checked := f.(errors := v.errors, robotError := v.robotError.GetOr(f.robotError));
    if !v.ok then Submission(checked, None, None)
    else
      var sent := Put(f.data, "recaptchaToken", Str(f.token));
      match reply
      case Accepted(message) =>
        Submission(checked.(data := INITIAL_DATA, errors := map[], token := ""), Some(sent), Some(Success(TextOr(message, THANKS))))
      case Refused(message) =>
        Submission(checked.(token := ""), Some(sent), Some(Failure(FailureText(message))))
  }

  /** A token is spent by the submission that sends it: submitting again without
      solving the reCAPTCHA anew sends nothing and asks for it. */
  lemma TokenSingleUse(f: Form, first: Reply, second: Reply)
    requires HandleSubmit(f, first).sent.Some?
    ensures HandleSubmit(HandleSubmit(f, first).form, second).sent.None?
    ensures HandleSubmit(HandleSubmit(f, first).form, second).form.robotError == ROBOT_CHECK
  {
  }

  /** A rejected submission keeps what the visitor typed; solving the reCAPTCHA
      again is all it takes to send the same data once more. */
  lemma RetryAfterRefusal(f: Form, message: string, token: string, again: Reply)
    requires HandleSubmit(f, Refused(message)).sent.Some?
    requires token != ""
    ensures HandleSubmit(HandleRecaptchaChange(HandleSubmit(f, Refused(message)).form, token), again).sent.Some?
  {
    ValidateIffComplete(f.data, f.token);
    ValidateIffComplete(f.data, token);
  }

  /** A server refusal whose `error` text mentions a duplicate submission,
      passed on by `handleResponse`, shows the "already submitted" toast. */
  lemma DuplicateRefusalToast(status: int, error: string)
    requires Contains(error, "already submitted")
    ensures var resp := ContactApi.Response(false, status, ContactApi.Parsed(Some(error)));
      FailureText(ContactApi.HandleResponse(resp).message) == ALREADY_SUBMITTED
  {
    var i :| OccursAt(error, "already submitted", i);
    assert error != "";
  }
}
