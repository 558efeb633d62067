# Kayease frontend: a Dafny model of its session manager and page logic

The Kayease frontend is a React site with a small administration area. This
project models the parts of it that are decisions rather than markup, and proves
what they promise:

- **The admin session manager** (`src/utils/auth.js`). It logs in against a
  fixed credential pair and keeps the session in two stores: the cookie jar and
  `localStorage`. On every check it refreshes a session older than 25 minutes
  and logs out one older than 30 minutes or one it cannot read. A session found
  only in `localStorage` is copied back into the cookies. Module `Auth` models
  this; module `Cookies` models the cookie-string parser `getCookie`.
- **The admin lists**:
  - `ClientList`: filters, page buttons and the `...` marks between them;
  - `ContactManagement`: selection, bulk-action guards and badge colours;
  - `AdminPortfolio`: selection, bulk delete, labels and page buttons;
  - `TeamManagement`: request filters, status toggle and "Showing a to b".
  
  The contact and portfolio lists share one filter reducer, modelled once in
  `FilterState`.
- **The public contact form** (`ContactForm`). It covers the validator, with the
  e-mail pattern `\S+@\S+\.\S+` written out as a predicate. It also covers the
  input handlers and what a submission sends and leaves behind.
- **The two REST wrappers** (`ContactApi`, `CareerApi`). They cover:
  - the query string built from a filter object (module `Query`);
  - the retry schedule around `fetch`;
  - the choice of error message;
  - the option lists and the label decoration of a contact.
- **The public pages**:
  - `Careers`: the "posted ... ago" label, the department filter and the job and
    department records;
  - `PortfolioPage`: the category tabs and the project cards;
  - `BlogDetail`: the related-article choice and which view the page shows.

## How the model is built

- **JavaScript objects** used as state or as request filters are ordered
  association lists (`Assoc.Entries`). A later entry shadows an earlier one.
  `{ ...obj, [k]: v }` is `Put`, which keeps an existing key in its place.
  `{ ...a, ...b }` is `Spread`.
- **JavaScript values** in filters are `Query.Value`. Truthiness and the
  wrappers' "not undefined, null or empty" test are spelled out separately,
  because they differ on `0` and `false`.
- **Time** is integer milliseconds, and the current instant is an argument.
  One session check reads the clock once: the separate `new Date()` reads of
  `isSessionExpired` and `refreshSession` within one check are the same `now`.
- **The stores** are maps from key to `Auth.Item`: plain text, a parsed session
  record, or text `JSON.parse` rejects.
- **Everything external is a parameter or a result**: the network, the server's
  answers, `window.confirm`, the reCAPTCHA token, toasts and `navigate`.
  `ContactApi.RetryFetch` takes `fetch` as a function from attempt number to
  outcome and returns the pauses it would take.
- **Common helpers** live in `Common`, `Strings` and `Lists`:
  - `Option`, and the `x || fallback` idiom for text and numbers;
  - JavaScript white space and `trim`;
  - ASCII case mapping;
  - `includes`, and number-to-text;
  - `filter`, `slice(0, n)` and "first n, then +N more" previews.

## Model

| member | source | states |
|---|---|---|
| Auth.Store | src/utils/auth.js:45-50 | after writing a session, both stores hold the token and that same session, and every other key of either store is unchanged |
| Auth.ConfiguredEmailIsLowerCase | src/utils/auth.js:34 | the lower-cased configured email is the configured email itself, so login compares against it directly |
| Auth.NormalizeEmail | src/utils/auth.js:33 | the normalised email is the typed one with the white space around it cut off, lower-cased; it neither starts nor ends with white space |
| Auth.Login | src/utils/auth.js:31-56 | login succeeds exactly when the credentials are accepted. Success yields 'Admin User', the configured email, role 'Admin' and loginTime now, stored in both stores with nothing else touched. Failure yields 'Invalid email or password' and leaves both stores as they were |
| Auth.AcceptedEmails | src/utils/auth.js:33-36 | an email is accepted exactly when it is the configured email in some ASCII letter case, with only white space around it, and the password matches byte for byte (both directions) |
| Auth.CapitalisedEmailAccepted | src/utils/auth.js:33-36 | "Contact@Kayease.com" with the right password logs in |
| Auth.PaddedPasswordRefused | src/utils/auth.js:36 | the password is not trimmed: the right password plus a trailing space is refused |
| Auth.Logout | src/utils/auth.js:58-66 | afterwards neither the token nor the session is in either store, and no other key changed |
| Auth.LogoutIdempotent | src/utils/auth.js:58-66 | logging out twice leaves the same state as logging out once |
| Auth.IsSessionExpired | src/utils/auth.js:69-74 | the integer comparison in milliseconds agrees with the source's exact division: expired exactly when the age in minutes, as a real number, exceeds 30 |
| Auth.ExpiryBoundary | src/utils/auth.js:69-74 | a session exactly 30 minutes old is not expired; one a millisecond older is |
| Auth.RefreshSession | src/utils/auth.js:77-92 | the session is granted with loginTime moved to now and every other field kept. Both stores then hold that session and nothing else changes |
| Auth.CheckCookieSession | src/utils/auth.js:100-131 | the cookie branch grants only a complete session at most 25 minutes old; every refusal logs out |
| Auth.CheckLocalSession | src/utils/auth.js:138-166 | the localStorage branch grants only with a session; every refusal logs out |
| Auth.IsAuthenticated | src/utils/auth.js:94-173 | granted exactly when a user is returned. A granted user is complete and at most 25 minutes old, and the cookies hold the token and that user. A refusal leaves no session pair in either store: it either logged out or found nothing and wrote nothing. No unrelated key changes |
| Auth.RequireAuth | src/utils/auth.js:175-182 | the page is allowed exactly when the check grants; otherwise it is sent to /login; the stores end as the check left them |
| Auth.DeniedStaysDenied | src/utils/auth.js:94-173 | fail closed: after a refused check, any later check is refused and writes nothing |
| Auth.CorruptCookieLogsOut | src/utils/auth.js:100-131 | an unreadable cookie session, or one without loginTime, email or name, is refused and logs out |
| Auth.ExpiredCookieLogsOut | src/utils/auth.js:110-114 | a complete cookie session older than 30 minutes is refused and logs out |
| Auth.AgingCookieSessionIsRefreshed | src/utils/auth.js:116-124 | a cookie session between 25 and 30 minutes old is granted with loginTime now and name, email and role kept, and is rewritten to both stores |
| Auth.YoungCookieSessionIsUntouched | src/utils/auth.js:116-126 | a cookie session at most 25 minutes old is granted as stored and nothing is written |
| Auth.LocalFallbackHeals | src/utils/auth.js:135-166 | without the cookie pair, the check grants exactly when localStorage holds a valid session. It then always refreshes: the session gets loginTime now and is written back to the cookies. So the unrefreshed return at line 160 is never reached |
| Auth.NoSessionRedirects | src/utils/auth.js:168-182 | with no session in either store, the page is sent to /login and nothing is written |
| Auth.LoginThenCheck | src/utils/auth.js:36-52 | a successful login is recognised unchanged by every check in the next 25 minutes |
| Auth.StoredSessionRecognised | src/utils/auth.js:100-126 | a complete session just written to both stores is granted as it is while at most 25 minutes old |
| Auth.GrantedSurvivesFiveMinutes | src/utils/auth.js:94-173 | a granted session is granted again by any check in the following five minutes |
| Cookies.Split | src/utils/auth.js:17 | `split(';')` gives at least one piece, no piece contains ';', and joining the pieces with ';' gives back the input |
| Cookies.DropBlanks | src/utils/auth.js:20 | only leading spaces are removed (not tabs), and all of them |
| Cookies.DropBlanksPadded | src/utils/auth.js:20 | spaces in front of a piece that does not start with a space are exactly what is removed |
| Cookies.Find | src/utils/auth.js:18-23 | nothing is found exactly when no piece, once its spaces are dropped, starts with `name=`. A found value is what follows `name=` in the first such piece: no earlier piece matches |
| Cookies.GetCookie | src/utils/auth.js:15-24 | `null` exactly when no piece of the cookie string starts with `name=` after its leading spaces; otherwise the value of the first piece that does |
| Cookies.NameMatch | src/utils/auth.js:21 | for names without '=', `name=` starts a stored pair exactly when the pair has that name, and the rest of the pair is its value |
| Cookies.CookieRoundTrip | src/utils/auth.js:15-24 | reading a cookie from the `"; "`-joined string the browser builds gives the value of the first cookie of that name, and `null` when there is none |
| Strings.TrimStart | src/utils/auth.js:33 | the start of `trim` drops exactly the leading white space: the dropped prefix is all white space and what remains does not start with white space |
| Strings.TrimEnd | src/utils/auth.js:33 | the end of `trim` drops exactly the trailing white space |
| Strings.Trim | src/utils/auth.js:33 | a trimmed text neither starts nor ends with white space |
| Strings.TrimBounds | src/utils/auth.js:33 | `trim` cuts a middle part out of the text: everything cut off before and after it is white space |
| Strings.ToLower | src/utils/auth.js:33 | lower-casing keeps the length and maps each character on its own |
| Strings.TrimEmptyIffAllSpace | src/pages/contact/components/ContactForm.jsx:84 | `!text.trim()` holds exactly when every character of the text is white space |
| Strings.TrimLowerIsPadded | src/utils/auth.js:33 | `s.toLowerCase().trim()` is a middle part of s, lower-cased, with only white space cut off on either side |
| Strings.PaddedIsTrimLower | src/utils/auth.js:33 | conversely, such a padded, re-cased form of x normalises back to x |
| Strings.Contains | src/pages/contact/components/ContactForm.jsx:137 | `includes` holds exactly when the part occurs at some position of the text |
| Strings.Capitalize | src/pages/careers/index.jsx:91-93 | `charAt(0).toUpperCase() + slice(1)`: same length, first character upper-cased, the rest unchanged |
| Lists.Filter | src/pages/careers/index.jsx:164-167 | `filter` keeps exactly the elements satisfying the test, each as often as it occurs, in their order |
| Lists.RemoveAll | src/pages/admin/ContactManagement.jsx:139-141 | `filter(x => x !== y)` removes every copy of y and keeps every other element as often as it occurs, in order |
| Lists.Take | src/pages/portfolio/index.jsx:115 | `slice(0, k)` is the prefix of length k, or the whole list when shorter |
| Lists.PreviewOf | src/pages/careers/index.jsx:585-597 | the chips are the first min(k, n) items and "+N more" counts exactly the items not shown; the chip appears exactly when there are more than k |
| Lists.PreviewGrows | src/pages/careers/index.jsx:585-597 | one more item behind a full preview leaves the chips as they were and raises the count by one |
| Assoc.Put | src/pages/admin/ContactManagement.jsx:57-63 | `{ ...obj, [k]: v }`: k reads v, every other key reads as before, and an existing key keeps its place while a new one is appended |
| Assoc.Spread | src/pages/admin/ClientList.jsx:38-42 | `{ ...base, ...over }`: a key of `over` reads its value there, any other key reads its value in `base`, and no key of `base` is lost |
| Query.KeptEntries | src/utils/contactApi.js:49-53 | the appended entries are exactly those whose value is not undefined, null or '', each as often as it occurs, in the object's order. There are none exactly when no entry is kept |
| Query.Render | src/utils/contactApi.js:55 | the rendered parameters are empty exactly when there are no parameters |
| Query.Url | src/utils/contactApi.js:55 | the URL starts with the path and has a `?` and query exactly when some entry is kept; otherwise it is the path alone |
| Query.AllKeptSent | src/utils/contactApi.js:49-53 | when every value is kept, every entry becomes a parameter, in order |
| Query.ZeroAndFalseAreSent | src/utils/contactApi.js:50 | numbers and booleans are always sent, 0 and false included |
| ClientList.HandleFilterChange | src/pages/admin/ClientList.jsx:61-64 | the named filter takes the new value, no other filter changes, and the list returns to page 1 with the rest of the pagination kept |
| ClientList.HandlePageChange | src/pages/admin/ClientList.jsx:66-68 | only the current page moves; filters and the other pagination fields are kept |
| ClientList.ClearFilters | src/pages/admin/ClientList.jsx:86-93 | exactly the three default filters (empty search, createdAt, desc) and page 1 |
| ClientList.FetchRequest | src/pages/admin/ClientList.jsx:38-42 | the request holds every current filter, plus page and limit 10 unless a filter of that name overrides them, and nothing else |
| ClientList.FilterThenPageRequest | src/pages/admin/ClientList.jsx:38-68 | after a filter change and then a page change, the request carries the new value, the other filters as before, and the chosen page |
| ClientList.ClearedRequest | src/pages/admin/ClientList.jsx:86-93 | after clearing, the request asks for page 1 of ten with an empty search, newest first; clearing twice is clearing once |
| ClientList.PageWindow | src/pages/admin/ClientList.jsx:335-340 | the buttons are exactly the pages from 1 to the total that are first, last, or within two of the current page, in ascending order |
| ClientList.PageWindowUnique | src/pages/admin/ClientList.jsx:335-340 | any ascending list of exactly those pages is the window, so the window is determined by which pages it shows |
| ClientList.WindowSize | src/pages/admin/ClientList.jsx:335-340 | never more than seven buttons |
| ClientList.EllipsisPlaces | src/pages/admin/ClientList.jsx:341-347 | a `...` can only come right after the first button or right before the last, so there are at most two |
| ClientList.WindowHasAnchors | src/pages/admin/ClientList.jsx:335-340 | the first page, the last page and an in-range current page always have buttons |
| ClientList.SmallListShowsAll | src/pages/admin/ClientList.jsx:335-340 | with at most four pages every page has a button |
| FilterState.HandleFilterChange | src/pages/admin/ContactManagement.jsx:57-63 | the named filter takes the new value unless it is `page`, the page becomes 1 in every case, no other filter changes and no key is lost |
| FilterState.HandlePageChange | src/pages/admin/Portfolio.jsx:85-90 | only the page changes |
| FilterState.FilterThenPage | src/pages/admin/Portfolio.jsx:77-90 | a filter change followed by a page change keeps the filter and shows the requested page |
| FilterState.FilterChangeForgetsPage | src/pages/admin/Portfolio.jsx:77-83 | the result of a filter change does not depend on the page shown before |
| ContactManagement.PageButtonsStayOnFirstPage | src/pages/admin/ContactManagement.jsx:57-63 | the pagination buttons' call `handleFilterChange('page', n)` lands on page 1 for every n, so no page other than 1 can be reached |
| ContactManagement.PageChangeReachesPage | src/pages/admin/ContactManagement.jsx:530 | the evidently intended page change reaches page n and keeps every filter |
| ContactManagement.SelectAll | src/pages/admin/ContactManagement.jsx:128-134 | ticking selects the ids of the shown contacts in list order; clearing empties the selection |
| ContactManagement.SelectContact | src/pages/admin/ContactManagement.jsx:136-142 | checking appends the id without deduplication. Unchecking removes every copy of it and keeps every other id as often as it was selected, in order |
| ContactManagement.CheckThenUncheck | src/pages/admin/ContactManagement.jsx:136-142 | checking then unchecking an id leaves the selection without any copy of it |
| ContactManagement.UncheckAbsent | src/pages/admin/ContactManagement.jsx:139-141 | unchecking an id that is not selected changes nothing |
| ContactManagement.SelectAllChecksHeader | src/pages/admin/ContactManagement.jsx:374 | after ticking the header it shows checked exactly when there is a contact; after clearing it never does |
| ContactManagement.HandleBulkStatusUpdate | src/pages/admin/ContactManagement.jsx:88-104 | an empty selection warns and sends nothing. Otherwise the update is sent for exactly the selection. Success clears the selection; failure keeps it and shows the failure toast |
| ContactManagement.HandleBulkDelete | src/pages/admin/ContactManagement.jsx:106-126 | a request is sent exactly when something is selected and the deletion is confirmed, and it names exactly the selection. Success clears the selection; failure keeps it |
| ContactManagement.BulkActionsGuarded | src/pages/admin/ContactManagement.jsx:88-126 | no bulk action sends anything for an empty selection. The selection changes only after a request that was sent and accepted |
| ContactManagement.StatusColor | src/pages/admin/ContactManagement.jsx:144-154 | a known status gets its configured class; any other status gets gray |
| ContactManagement.PriorityColor | src/pages/admin/ContactManagement.jsx:156-164 | a known priority gets its configured class; any other priority gets gray |
| ContactManagement.ColorOf | src/pages/admin/ContactManagement.jsx:144-164 | `colors[code] \|\| gray`: a code with a non-empty colour gets it, anything else gray |
| ContactManagement.StatusColorsMatchOptions | src/utils/contactApi.js:117-124 | each status of the wrapper's option list gets the colour that list gives it |
| ContactManagement.PriorityColorsMatchOptions | src/utils/contactApi.js:127-132 | each priority of the wrapper's option list gets the colour that list gives it |
| AdminPortfolio.SelectAll | src/pages/admin/Portfolio.jsx:92-98 | with as many selected ids as projects, the selection empties; otherwise it becomes every project id |
| AdminPortfolio.SelectAllToggles | src/pages/admin/Portfolio.jsx:92-98 | on a page with projects, a click on the header checkbox (checked when lines 445-448 say so) flips it, and all, then none, then all gives back every project |
| AdminPortfolio.SelectItem | src/pages/admin/Portfolio.jsx:100-104 | a selected id is removed entirely, every other id keeping its count; an unselected one is appended; no other id's membership changes |
| AdminPortfolio.SelectItemTwice | src/pages/admin/Portfolio.jsx:100-104 | clicking the same row twice restores which ids are selected |
| AdminPortfolio.SelectItemTwiceExact | src/pages/admin/Portfolio.jsx:100-104 | from a selection without the id, two clicks give back the very same list |
| AdminPortfolio.HandleBulkDelete | src/pages/admin/Portfolio.jsx:128-151 | ids are sent exactly when something is selected and confirmed. Success clears the selection; failure keeps it and shows the error |
| AdminPortfolio.BulkDeleteGuarded | src/pages/admin/Portfolio.jsx:128-151 | nothing is sent for an empty selection, and the selection changes only after a request that was sent and accepted |
| AdminPortfolio.FindCategory | src/pages/admin/Portfolio.jsx:173 | a found category is listed and has that id; nothing is found exactly when no listed category has the id |
| AdminPortfolio.GetCategoryName | src/pages/admin/Portfolio.jsx:172-175 | an unlisted id is shown as itself; a listed id is shown with the name of a listed entry |
| AdminPortfolio.CategoryIdsDistinct | src/pages/admin/Portfolio.jsx:29-39 | the category table names no id twice |
| AdminPortfolio.CategoryNamesListed | src/pages/admin/Portfolio.jsx:172-175 | every listed id is shown with its own entry's name |
| AdminPortfolio.StatusBadge | src/pages/admin/Portfolio.jsx:177-190 | the three known statuses get their configured colour and label; any other status is gray under its own name |
| AdminPortfolio.GrayOnlyWhenUnknown | src/pages/admin/Portfolio.jsx:177-190 | a badge is gray exactly when the status is not one of the three known ones |
| AdminPortfolio.PageButtons | src/pages/admin/Portfolio.jsx:620-623 | there are min(5, totalPages) buttons, or none for a negative total, numbered from 1 |
| AdminPortfolio.PageButtonsRange | src/pages/admin/Portfolio.jsx:620-623 | page p has a button exactly when 1 <= p <= min(5, totalPages) |
| TeamManagement.LoadFilters | src/pages/admin/TeamManagement.jsx:34-42 | the request filters are page, limit 10 and search. `isActive` is added exactly when a tab other than "all" is chosen, and it is true only for "active" |
| TeamManagement.StatusTabs | src/pages/admin/TeamManagement.jsx:40-41 | "inactive" asks for isActive false, "active" for true, "all" does not filter |
| TeamManagement.HandleSearch | src/pages/admin/TeamManagement.jsx:90-93 | the new search text, page 1, everything else kept |
| TeamManagement.HandleStatusFilter | src/pages/admin/TeamManagement.jsx:95-98 | the new tab, page 1, everything else kept |
| TeamManagement.HandlePageChange | src/pages/admin/TeamManagement.jsx:100-102 | only the page moves |
| TeamManagement.NewQueryStartsAtFirstPage | src/pages/admin/TeamManagement.jsx:90-98 | after a search or a tab change the next load asks for page 1, and for the new search text |
| TeamManagement.ToggleStatus | src/pages/admin/TeamManagement.jsx:78-81 | the update sends the opposite of the current status, and the toast names the status sent |
| TeamManagement.ToggleTwice | src/pages/admin/TeamManagement.jsx:80 | toggling twice asks for the status the member started with |
| TeamManagement.ShowingRange | src/pages/admin/TeamManagement.jsx:377-378 | the range starts at (p-1)*10+1 and ends at the smaller of p*10 and the total |
| TeamManagement.ShowingRangeWithinItems | src/pages/admin/TeamManagement.jsx:377-378 | on an existing page the range is non-empty, lies within the items and holds at most ten |
| TeamManagement.ShowingRangesTile | src/pages/admin/TeamManagement.jsx:377-378 | each page starts right after the previous page ends |
| TeamManagement.LastPageEndsAtTotal | src/pages/admin/TeamManagement.jsx:377-378 | the last page ends at the last item |
| TeamManagement.PageCount | src/pages/admin/TeamManagement.jsx:377-378 | the page count stands for the server's total: the fewest pages of ten that hold every item |
| TeamManagement.ExpertiseChips | src/pages/admin/TeamManagement.jsx:308-320 | the chips are the first two skills (all of them when fewer), and "+N more" appears exactly when there are more than two, N being the skills not shown |
| TeamManagement.ExtraExpertiseCountsAsMore | src/pages/admin/TeamManagement.jsx:308-320 | a skill added behind two shown ones changes no chip and raises "+N more" by one |
| ContactApi.BaseUrl | src/utils/contactApi.js:1 | a non-empty configured backend URL is used; otherwise http://localhost:5000 |
| ContactApi.GetAllUrl | src/utils/contactApi.js:46-58 | the listing URL starts with /api/contacts and carries the kept filters as its query exactly when there are some |
| ContactApi.HandleResponse | src/utils/contactApi.js:4-10 | an ok response yields its body. A failed one yields the server's non-empty error text, or 'Network error' for a body that is not JSON, or 'HTTP error! status: N' |
| ContactApi.FailureMessageNonEmpty | src/utils/contactApi.js:6-7 | a failed response never produces an empty message |
| ContactApi.RetryFetch | src/utils/contactApi.js:13-30 | at most maxRetries+1 calls. It settles with the first call that does not throw, after only throwing calls. Otherwise it rethrows the last call's error (undefined when there was no call). The pause after failed call i < maxRetries is 2^i seconds |
| ContactApi.DefaultSchedule | src/utils/contactApi.js:13-24 | with the default three retries the pauses are 1, 2 and 4 seconds |
| ContactApi.StatusCodesDistinct | src/utils/contactApi.js:117-124 | the status list offers six different codes |
| ContactApi.PriorityCodesDistinct | src/utils/contactApi.js:127-132 | the priority list offers four different codes |
| ContactApi.LabelOf | src/utils/contactApi.js:176-178 | a known code becomes its label; anything else, a missing field included, passes through unchanged |
| ContactApi.Labelled | src/utils/contactApi.js:174-178 | the three label fields hold the labels of the project type, budget and timeline; no other field changes |
| ContactApi.FormatContactData | src/utils/contactApi.js:174-180 | every original field is kept except the five added ones: the three labels of the project type, budget and timeline, and the two date texts of createdAt (the locale formatting itself is an input) |
| ContactApi.ProjectTypeLabelsAgree | src/utils/contactApi.js:135-155 | the project-type option list and the labels shown for contacts agree code by code |
| ContactApi.KnownCodeLabelled | src/utils/contactApi.js:176 | a contact of a known project type gets that type's label |
| ContactApi.UnknownCodeKept | src/utils/contactApi.js:177 | an unknown budget code is shown as it is |
| ContactApi.MissingCodeUndefined | src/utils/contactApi.js:178 | a contact without a timeline gets an undefined timeline label |
| ContactForm.ValidEmail | src/pages/contact/components/ContactForm.jsx:87 | the pattern test holds exactly when some '@' and a later '.' are placed as `\S+@\S+\.\S+` requires, anywhere in the text |
| ContactForm.PlainAddressAccepted | src/pages/contact/components/ContactForm.jsx:87 | user@host.tld with non-blank parts passes |
| ContactForm.SurroundedAddressAccepted | src/pages/contact/components/ContactForm.jsx:87 | the pattern is unanchored: any text around a passing address passes too |
| ContactForm.NoAtRejected | src/pages/contact/components/ContactForm.jsx:87 | text without '@' fails |
| ContactForm.Required | src/pages/contact/components/ContactForm.jsx:84 | a required text field is flagged, with its message, exactly when it is blank |
| ContactForm.Chosen | src/pages/contact/components/ContactForm.jsx:91-94 | a choice or the terms box is flagged, with its message, exactly when its value is falsy |
| ContactForm.EmailError | src/pages/contact/components/ContactForm.jsx:85-89 | a blank email is 'Email is required'. Otherwise it is flagged 'Please enter a valid email' exactly when the pattern fails |
| ContactForm.ValidateForm | src/pages/contact/components/ContactForm.jsx:81-101 | exactly the failing checked fields get their messages. A missing token sets the robot message. The form passes exactly when there is no error and there is a token |
| ContactForm.FieldErrorIffUnfilled | src/pages/contact/components/ContactForm.jsx:84-94 | each check fails exactly when its field is not filled in, stated without the validator: non-blank text, a matching email, a truthy choice |
| ContactForm.ValidateIffComplete | src/pages/contact/components/ContactForm.jsx:81-101 | the form passes exactly when every checked field is filled in and the reCAPTCHA was solved |
| ContactForm.BlankFormFlagged | src/pages/contact/components/ContactForm.jsx:84-100 | a form with empty text and no choices is rejected with every checked field flagged |
| ContactForm.InitialKeysDistinct | src/pages/contact/components/ContactForm.jsx:12-22 | the starting data names each field once |
| ContactForm.InitialFormRejected | src/pages/contact/components/ContactForm.jsx:12-22 | the form as it starts, and as a successful submission leaves it, is rejected with every checked field flagged |
| ContactForm.ClearError | src/pages/contact/components/ContactForm.jsx:64-66 | a shown error of the edited field is cleared; every other error is kept |
| ContactForm.SetValue | src/pages/contact/components/ContactForm.jsx:69-74 | only the named field changes; its error is cleared; other errors, the token and its error are kept |
| ContactForm.HandleInputChange | src/pages/contact/components/ContactForm.jsx:56-67 | a checkbox stores its checked state, any other input its text, and no other field changes |
| ContactForm.HandleRecaptchaChange | src/pages/contact/components/ContactForm.jsx:76-79 | the token is stored and the robot error cleared; data and field errors are kept |
| ContactForm.EditKeepsOtherErrors | src/pages/contact/components/ContactForm.jsx:63-66 | editing one field leaves another field's shown error in place |
| ContactForm.FailureText | src/pages/contact/components/ContactForm.jsx:137-143 | 'already submitted' wins over 'Validation failed', which wins over the generic message |
| ContactForm.HandleSubmit | src/pages/contact/components/ContactForm.jsx:103-148 | data is sent exactly when the form validates; the data is sent with the token and nothing else added. An invalid form sends nothing, shows its errors and keeps data and token. After any send the token is spent and the errors are cleared. Success resets the data and shows the server's message or the thanks; failure keeps the data and shows the mapped message |
| ContactForm.TokenSingleUse | src/pages/contact/components/ContactForm.jsx:144-147 | submitting again without solving the reCAPTCHA sends nothing and asks for it |
| ContactForm.RetryAfterRefusal | src/pages/contact/components/ContactForm.jsx:133-147 | after a refused submission, a new token is all it takes to send the same data again |
| ContactForm.DuplicateRefusalToast | src/pages/contact/components/ContactForm.jsx:137-138 | a server error text mentioning a duplicate submission, passed on by the response handler, shows the 24-hour message |
| CareerApi.BaseUrl | src/utils/careerApi.js:1 | the configured backend URL, or the text "undefined" when none is set |
| CareerApi.GetAllUrl | src/utils/careerApi.js:13-25 | the listing URL starts with /api/careers and carries the kept filters as its query exactly when there are some |
| CareerApi.GetApplicationsUrl | src/utils/careerApi.js:116-128 | a job's applications URL, with a query exactly when some filter is kept |
| CareerApi.ApplicationsShareListingQuery | src/utils/careerApi.js:116-128 | the applications URL carries the same query as the listing for the same filters |
| CareerApi.GetActiveUrl | src/utils/careerApi.js:98-101 | the active listing asks for active jobs; called without a limit it asks for 10, newest first |
| CareerApi.GetRecentUrl | src/utils/careerApi.js:104-107 | the recent listing asks for no status; called without a limit it asks for 5, newest first |
| CareerApi.ActiveIsFilteredListing | src/utils/careerApi.js:98-101 | the active listing is the general listing for status active, limit given or 10, newest first |
| CareerApi.RecentIsFilteredListing | src/utils/careerApi.js:104-107 | the recent listing is the general listing without a status, limit given or 5, newest first |
| Careers.DiffDays | src/pages/careers/index.jsx:154-155 | the number of started days between the two instants: the distance is more than d-1 days and at most d days |
| Careers.DiffDaysSymmetric | src/pages/careers/index.jsx:154 | past and future dates are measured alike |
| Careers.AgoOf | src/pages/careers/index.jsx:157-161 | days below a week, weeks from 7 to 29 days, months of 30 days after that; each counts whole units, rounding down |
| Careers.AgoMonotone | src/pages/careers/index.jsx:157-161 | an older post never reads as more recent |
| Careers.AgoText | src/pages/careers/index.jsx:157-161 | a label is non-empty and starts with a digit; the wording is pinned for sample ages by the next two lemmas |
| Careers.FormatDate | src/pages/careers/index.jsx:149-162 | "Recently" exactly when there is no date; otherwise the label of the bucketed age |
| Careers.PostedNowText | src/pages/careers/index.jsx:157-158 | a post dated now reads "0 days ago" |
| Careers.PostedMonthAgoText | src/pages/careers/index.jsx:161 | a post dated 30 days back reads "1 months ago" |
| Careers.JobTypeLabel | src/pages/careers/index.jsx:95-100 | "remote" and "hybrid" get their labels; anything else reads "In-office" |
| Careers.PostedOn | src/pages/careers/Careers.jsx:78 | `createdAt \|\| postedDate`: the creation date wins when present |
| Careers.ToJob | src/pages/careers/Careers.jsx:67-80 | the department is capitalised and the job type is its label. Experience and salary fall back to "Not specified" and "Competitive", and missing lists are empty. The post is labelled from the creation date, else the posting date, and reads "Recently" exactly when neither is present |
| Careers.ToOpening | src/pages/careers/index.jsx:88-110 | missing responsibilities and benefits become empty; present ones are kept |
| Careers.PagesAgree | src/pages/careers/index.jsx:88-110 | both careers pages build the same fields of a job in the same way |
| Careers.Jobs | src/pages/careers/index.jsx:85-110 | a missing listing gives no job; otherwise one job per record, in order |
| Careers.FilteredJobs | src/pages/careers/index.jsx:164-167 | "All" shows every job. A department shows exactly its jobs, each as often as listed, in listing order |
| Careers.JobUnderItsDepartment | src/pages/careers/index.jsx:164-167 | every job is found under its own department |
| Careers.ToDepartment | src/pages/careers/index.jsx:125-129 | a button has the capitalised id and its configured colour, gray when unknown. Its counter is the active count, or the total when that is missing or zero |
| Careers.Departments | src/pages/careers/index.jsx:115-132 | the buttons are rebuilt one per statistic when the statistics arrive, and kept otherwise |
| Careers.LoadStats | src/pages/careers/index.jsx:135-140 | the total or 0, the number of departments or 0, and the two fixed counters |
| Careers.DepartmentCounterMatchesButtons | src/pages/careers/index.jsx:115-140 | the department counter equals the number of department buttons |
| Careers.DepartmentButtonFindsJob | src/pages/careers/index.jsx:91-126 | a job of a listed department is found under that department's button |
| Careers.SkillChips | src/pages/careers/index.jsx:585-597 | the chips are the first four skills (all of them when fewer), and "+N more" appears exactly when there are more than four, N being the skills not shown |
| Careers.SixSkillsShowFour | src/pages/careers/index.jsx:585-597 | six skills show the first four and "+2 more" |
| Careers.ExtraSkillCountsAsMore | src/pages/careers/index.jsx:585-597 | a skill added behind four shown ones changes no chip and raises "+N more" by one |
| Careers.DialogSections | src/pages/careers/Careers.jsx:398-418 | the requirements and skills sections appear exactly when their lists are non-empty |
| Careers.MissingListsHideSections | src/pages/careers/Careers.jsx:74-76 | a job sent without skills or requirements shows neither section and no chip |
| PortfolioPage.Tally | src/pages/portfolio/index.jsx:66-70 | each category seen is counted once, with its number of projects |
| PortfolioPage.FromStats | src/pages/portfolio/index.jsx:61-64 | each reported category once, with its last reported count |
| PortfolioPage.CategoryTabs | src/pages/portfolio/index.jsx:73-82 | tabs are exactly the known categories with a positive count, each with its configured name and icon |
| PortfolioPage.CategoryTabsInOrder | src/pages/portfolio/index.jsx:73-82 | the tabs are those of the listed counts entries, one per entry and in the order of the counts object, so `GetFilters` shows them in that order too |
| PortfolioPage.CategoryTabsDistinct | src/pages/portfolio/index.jsx:73-82 | no category gets two tabs |
| PortfolioPage.Counts | src/pages/portfolio/index.jsx:59-70 | the counts name each category once, whether taken from the statistics or tallied |
| PortfolioPage.GetFilters | src/pages/portfolio/index.jsx:37-85 | the "All Projects" tab comes first, counting the reported total or else the loaded projects. The category tabs follow, and no two tabs share an id |
| PortfolioPage.FallbackTabsCountProjects | src/pages/portfolio/index.jsx:65-82 | without statistics, a known category has a tab exactly when a loaded project belongs to it, and the tab counts those projects |
| PortfolioPage.StatsTabsFollowStats | src/pages/portfolio/index.jsx:61-82 | with statistics, a known category has a tab exactly when its reported count is positive |
| PortfolioPage.CategoryName | src/pages/portfolio/index.jsx:109 | the record's own name first, then the configured name, then the raw category |
| PortfolioPage.ToCard | src/pages/portfolio/index.jsx:103-128 | the card keeps the identifying fields. Tags are the first three technologies, and every technology becomes one entry with the Code icon. The gallery is never empty and falls back to the main image. The link falls back to "#", and the challenge to the fixed text |
| PortfolioPage.TagsAreLeadingTechnologies | src/pages/portfolio/index.jsx:115-119 | each tag names the technology in the same place |
| PortfolioPage.CategoryFor | src/pages/portfolio/index.jsx:137 | the "all" tab asks for no category; any other tab for its own id |
| PortfolioPage.TabChange | src/pages/portfolio/index.jsx:135-140 | a tab change asks for exactly the tab's category and page 1 |
| PortfolioPage.AllTabDropsCategory | src/pages/portfolio/index.jsx:137-138 | under the wrappers' filter rule, the "all" tab's update sends only page 1 |
| PortfolioPage.CategoryTabSendsCategory | src/pages/portfolio/index.jsx:137-138 | under the wrappers' filter rule, a category tab sends its category and page 1 |
| BlogDetail.Candidates | src/pages/blog/BlogDetail.jsx:25-26 | exactly the other articles of the same category, each as often as the service lists it, in the service's order |
| BlogDetail.RelatedBlogs | src/pages/blog/BlogDetail.jsx:25-27 | the first min(3, n) of the n candidates, in the listed order. None is the current article and all share its category, so with three or fewer candidates all are shown |
| BlogDetail.RelatedLeftOutOnlyWhenFull | src/pages/blog/BlogDetail.jsx:25-27 | a related article is left out only when three are already shown |
| BlogDetail.Load | src/pages/blog/BlogDetail.jsx:16-35 | the error is set exactly when one of the two calls threw. A fetched article is kept even when the second call threw. What the calls did not replace stays as it was |
| BlogDetail.ViewOf | src/pages/blog/BlogDetail.jsx:53-106 | the spinner while loading. Without an article, or on an error, "Article Not Found". The incomplete-data warning for an article without content or title. The article otherwise |
| BlogDetail.ArticleShownIff | src/pages/blog/BlogDetail.jsx:16-87 | an article is shown exactly when both calls succeed and it has a title and content; a failed listing call hides a fetched article |
| BlogDetail.ShownRelatedAreOthers | src/pages/blog/BlogDetail.jsx:25-27 | a shown article lists at most three related articles, none of them itself, all of its category |

## Left out

- Case mapping covers ASCII letters only (`toLowerCase`, `toUpperCase`). White space is the set JavaScript's `trim` and `\S` use.
- `URLSearchParams` percent-encoding is not modelled: parameters are rendered as plain `key=value` text.
- `JSON.parse` and `JSON.stringify` are abstracted: a stored item is text, a parsed session record, or text that does not parse.
- Cookie attributes (expiry, path, SameSite, Secure) are not modelled, nor is the browser dropping a cookie after its 30 minutes. `setCookie` is a write to the cookie map and `deleteCookie` a removal.
- Dates are integer milliseconds. Date parsing, invalid dates (NaN), ISO strings and locale formatting are not modelled: the texts `formatContactData` stores in `formattedDate` and `formattedDateTime` are inputs, and the project year is left out.
- Lookups in object literals (`colors[status] || gray`, `labels[code] || code`, `statusConfig[status]`, `departmentColors[dept._id] || "bg-gray-500"`, `categoryMap[...]` and the `categoryCounts` tally) treat a key the literal does not define as absent. In the source, a key such as "constructor" or "toString" finds an inherited `Object.prototype` member instead of the fallback: a department called "constructor" gets the `Object` function as its colour, and a reported category "toString" gets a tab named "toString" with no icon. The models of those lookups leave this case out: ContactManagement.StatusColor, ContactManagement.PriorityColor, ContactApi.LabelOf, AdminPortfolio.StatusBadge, Careers.ToDepartment, PortfolioPage.CategoryTabs, PortfolioPage.CategoryName and PortfolioPage.Tally.
- `Object.entries` puts integer-like keys first. That ordering is not modelled: keys keep insertion order.
- `careerApi.search` is left out: it calls `this.getAll` inside a module-level arrow function, where `this` is not the wrapper, so it cannot work (src/utils/careerApi.js:110-113).
- The other REST calls are fetch plumbing around `handleResponse` and are not modelled: getById, create, update, delete, bulkUpdate, getStats and submitApplication. This includes the real timers of `retryFetch`.
- `window.confirm`, toasts, the reCAPTCHA widget, `navigate` and the servers' answers are inputs or outputs of the model, not behaviour of it.
- Loading and "is submitting/deleting" flags, console logging and all rendering are not modelled.
- The single-item deletes of the admin lists are not modelled: each is one request followed by a reload. Of the single-item status toggle, only the payload and the success toast are modelled (TeamManagement.ToggleStatus); its request, the reload and the failure toast are left out.
- The portfolio hook (`usePortfolio`) and its API wrapper are not part of this model.
- PortfolioPage.AllTabDropsCategory and PortfolioPage.CategoryTabSendsCategory assume the hook's request filters values by the REST wrappers' rule, since the hook is not modelled.
- ContactForm.Field and TextField read non-text values of text fields as empty. In the source `.trim()` would throw on them; the inputs only ever store text there.
- ContactApi.HandleResponse: an ok response whose body is not JSON makes `response.json()` reject. The model passes that body on as data.
- Careers.AgoText states only that a label starts with a digit. The wording is pinned for sample ages by Careers.PostedNowText and Careers.PostedMonthAgoText, and by its body.
- Auth.CheckLocalSession states only that a grant carries a user. The branch's full behaviour is stated through Auth.IsAuthenticated and Auth.LocalFallbackHeals.
- A missing `department` or `_id` makes `charAt` throw in the careers pages; the model takes these fields as present strings.
- Dashboard, the test pages, the home-page hero and social proof, the client logos and the team spotlight are rendering or fetch-and-show pages. They are not modelled.

## Findings

| source | as written | input that shows it | evidently intended | confidence | as-written member | corrected member |
|---|---|---|---|---|---|---|
| src/pages/admin/ContactManagement.jsx:57-63 | the Previous, Next and numbered page buttons (lines 497 and 530) call `handleFilterChange('page', n)`, which writes `page: n` and then `page: 1` | clicking the button for page 2: the filters end with page 1 | the page buttons move to page n and keep the filters, as the admin portfolio list does with `handlePageChange` | high (not executed) | ContactManagement.PageButtonsStayOnFirstPage | ContactManagement.PageChangeReachesPage |
