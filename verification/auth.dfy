/**
 * The admin session manager of `src/utils/auth.js`.
 *
 * The browser's two stores are maps from key to stored item: the cookie jar
 * (`authToken`, `userData`) and `localStorage` (`authToken`, `user`). The clock
 * is an argument `now`, in milliseconds. `JSON.parse` is abstracted by the
 * stored item itself: either text that is not a session object, or a session
 * record. Every operation is a pure function returning the new browser state.
 */
module Auth {
  import opened Common
  import opened Strings

  const MINUTE: int := 60 * 1000
  /** A session older than this many minutes is expired. */
  const EXPIRY_MINUTES: int := 30
  /** A session older than this many minutes is refreshed when checked. */
  const REFRESH_MINUTES: int := 25

  const ADMIN_EMAIL: string := "contact@kayease.com"
  const ADMIN_PASSWORD: string := "Kayease@123"
  const ADMIN_NAME: string := "Admin User"
  const ADMIN_ROLE: string := "Admin"
  const TOKEN: string := "Kayease-admin-token"
  const INVALID_CREDENTIALS: string := "Invalid email or password"
  const LOGIN_PATH: string := "/login"

  const COOKIE_TOKEN: string := "authToken"
  const COOKIE_USER: string := "userData"
  const LOCAL_TOKEN: string := "authToken"
  const LOCAL_USER: string := "user"

  /** The stored user object. An empty string stands for a missing or falsy field;
      `loginTime` is the instant the ISO timestamp denotes. */
  datatype Session = Session(name: string, email: string, role: string, loginTime: Option<int>)

  /** What a store holds under a key: plain text (the token, or text `JSON.parse`
      does not turn into an object), unparsable text, or a serialized session. */
  datatype Item = Text(s: string) | Garbled | Record(session: Session)

  type Jar = map<string, Item>

  datatype Browser = Browser(cookies: Jar, local: Jar)

  datatype LoginResult = LoginOk(user: Session) | LoginFailed(error: string)

  datatype LoginStep = LoginStep(result: LoginResult, browser: Browser)

  /** `{ isAuth, user }` as `isAuthenticated` returns it. */
  datatype AuthResult = AuthResult(isAuth: bool, user: Option<Session>)

  datatype Check = Check(result: AuthResult, browser: Browser)

  /** `requireAuth`: the answer, where the page was sent, and the browser afterwards. */
  datatype Guard = Guard(allowed: bool, redirect: Option<string>, browser: Browser)

  const DENIED: AuthResult := AuthResult(false, None)

  // ---------------------------------------------------------------- stores

  function Get(j: Jar, k: string): Option<Item> {
    if k in j then Some(j[k]) else None
  }

  /** The truthiness test `if (value)` on what a store returned. */
  predicate Truthy(i: Option<Item>) {
    i.Some? && i.value != Text("")
  }

  /** `JSON.parse` of a stored item, as far as a session object is concerned. */
  function Parse(i: Item): Option<Session> {
    if i.Record? then Some(i.session) else None
  }

  /** `cookieToken && cookieUserData`: the cookie branch is taken. */
  predicate CookiePair(b: Browser) {
    Truthy(Get(b.cookies, COOKIE_TOKEN)) && Truthy(Get(b.cookies, COOKIE_USER))
  }

  /** `localToken && localUserData`: the localStorage branch is taken. */
  predicate LocalPair(b: Browser) {
    Truthy(Get(b.local, LOCAL_TOKEN)) && Truthy(Get(b.local, LOCAL_USER))
  }

  /** Both stores carry the token and the same session. */
  predicate Synced(b: Browser, s: Session) {
    && Get(b.cookies, COOKIE_TOKEN) == Some(Text(TOKEN))
    && Get(b.cookies, COOKIE_USER) == Some(Record(s))
    && Get(b.local, LOCAL_TOKEN) == Some(Text(TOKEN))
    && Get(b.local, LOCAL_USER) == Some(Record(s))
  }

  /** Keys other than the four session keys are the same in `b` and `b'`. */
  ghost predicate OthersUnchanged(b: Browser, b': Browser) {
    && (forall k :: k != COOKIE_TOKEN && k != COOKIE_USER ==> Get(b'.cookies, k) == Get(b.cookies, k))
    && (forall k :: k != LOCAL_TOKEN && k != LOCAL_USER ==> Get(b'.local, k) == Get(b.local, k))
  }

  /** `setCookie` and `localStorage.setItem` of the token and the session, in both stores. */
  function Store(b: Browser, s: Session): (b': Browser)
    ensures Synced(b', s) && OthersUnchanged(b, b')
  {
    Browser(
      b.cookies[COOKIE_TOKEN := Text(TOKEN)][COOKIE_USER := Record(s)],
      b.local[LOCAL_TOKEN := Text(TOKEN)][LOCAL_USER := Record(s)])
  }

  // ---------------------------------------------------------------- login / logout

  /** `email.toLowerCase().trim()`: the address without the white space around
      it, lower-cased. */
  function NormalizeEmail(email: string): (r: string)
    ensures PaddedLower(email, r)
    ensures r == "" || (!IsSpace(r[0]) && !IsSpace(r[|r| - 1]))
  {
    var r := Trim(ToLower(email));
    assert PaddedLower(email, r) by {
      TrimLowerIsPadded(email);
    }
    r
  }

  /** The credential test of `login`: normalized email equal to the lower-cased
      configured email (which is its own lower-case form, see
      `ConfiguredEmailIsLowerCase`), password equal byte for byte. */
  predicate Accepts(email: string, password: string) {
    NormalizeEmail(email) == ADMIN_EMAIL && password == ADMIN_PASSWORD
  }

  /** `AUTH_CREDENTIALS.email.toLowerCase()` is the configured email itself. */
  lemma ConfiguredEmailIsLowerCase()
    ensures ToLower(ADMIN_EMAIL) == ADMIN_EMAIL
  {
    ToLowerOfLower(ADMIN_EMAIL);
  }

  /** `login(email, password)` at instant `now`. */
  function Login(b: Browser, email: string, password: string, now: int): (r: LoginStep)
    ensures r.result.LoginOk? <==> Accepts(email, password)
    ensures r.result.LoginOk? ==>
      && r.result.user == Session(ADMIN_NAME, ADMIN_EMAIL, ADMIN_ROLE, Some(now))
      && Synced(r.browser, r.result.user)
      && OthersUnchanged(b, r.browser)
    ensures r.result.LoginFailed? ==> r.result.error == INVALID_CREDENTIALS && r.browser == b
  {
    if Accepts(email, password) then
      var user := Session(ADMIN_NAME, ADMIN_EMAIL, ADMIN_ROLE, Some(now));
      LoginStep(LoginOk(user), Store(b, user))
    else
      LoginStep(LoginFailed(INVALID_CREDENTIALS), b)
  }

  /** `logout()`: the token and session keys of both stores removed, nothing else touched. */
  function Logout(b: Browser): (b': Browser)
    ensures Get(b'.cookies, COOKIE_TOKEN).None? && Get(b'.cookies, COOKIE_USER).None?
    ensures Get(b'.local, LOCAL_TOKEN).None? && Get(b'.local, LOCAL_USER).None?
    ensures OthersUnchanged(b, b')
  {
    Browser(b.cookies - {COOKIE_TOKEN, COOKIE_USER}, b.local - {LOCAL_TOKEN, LOCAL_USER})
  }

  // ---------------------------------------------------------------- expiry and refresh

  /** The age test `(now - loginDate) / (1000 * 60) > 30`. JavaScript divides
      exactly, so on whole milliseconds it is a comparison with 30 minutes. */
  function IsSessionExpired(loginTime: int, now: int): (r: bool)
    ensures r <==> (now - loginTime) as real / (1000 * 60) as real > EXPIRY_MINUTES as real
  {
    now - loginTime > EXPIRY_MINUTES * MINUTE
  }

  /** `refreshSession(userData)`: loginTime moved to `now`, both stores rewritten. */
  function RefreshSession(b: Browser, s: Session, now: int): (r: Check)
    ensures r.result == AuthResult(true, Some(s.(loginTime := Some(now))))
    ensures Synced(r.browser, s.(loginTime := Some(now)))
    ensures OthersUnchanged(b, r.browser)
  {
    var s' := s.(loginTime := Some(now));
    Check(AuthResult(true, Some(s')), Store(b, s'))
  }

  /** The fields the cookie branch requires: `loginTime`, `email` and `name`. */
  predicate Complete(s: Session) {
    s.loginTime.Some? && s.email != "" && s.name != ""
  }

  /** What an authenticated result promises: the required fields are present and the
      session is at most 25 minutes old. */
  predicate Fresh(s: Session, now: int) {
    Complete(s) && now - s.loginTime.value <= REFRESH_MINUTES * MINUTE
  }

  /** The cookie branch, lines 100-131, given what `JSON.parse` made of `userData`. */
  function CheckCookieSession(b: Browser, parsed: Option<Session>, now: int): (r: Check)
    ensures r.result.isAuth ==> r.result.user.Some? && Fresh(r.result.user.value, now)
    ensures !r.result.isAuth ==> r == Check(DENIED, Logout(b))
  {
    if parsed.None? || !Complete(parsed.value) then
      Check(DENIED, Logout(b))
    else
      var s := parsed.value;
      if IsSessionExpired(s.loginTime.value, now) then
        Check(DENIED, Logout(b))
      else if now - s.loginTime.value > REFRESH_MINUTES * MINUTE then
        RefreshSession(b, s, now)
      else
        Check(AuthResult(true, Some(s)), b)
  }

  /** The localStorage branch, lines 138-165: only email and name are required, a
      session without loginTime never expires, and the cookies are rewritten when
      they are missing. */
  function CheckLocalSession(b: Browser, parsed: Option<Session>, now: int): (r: Check)
    ensures r.result.isAuth ==> r.result.user.Some?
    ensures !r.result.isAuth ==> r == Check(DENIED, Logout(b))
  {
    if parsed.None? || parsed.value.email == "" || parsed.value.name == "" then
      Check(DENIED, Logout(b))
    else
      var s := parsed.value;
      if s.loginTime.Some? && IsSessionExpired(s.loginTime.value, now) then
        Check(DENIED, Logout(b))
      else if !CookiePair(b) then
        RefreshSession(b, s, now)
      else
        Check(AuthResult(true, Some(s)), b)
  }

  /** The stored session this branch may grant: email and name present, and not
      expired when it has a loginTime. */
  predicate LocalValid(b: Browser, now: int) {
    && LocalPair(b)
    && Parse(b.local[LOCAL_USER]).Some?
    && var s := Parse(b.local[LOCAL_USER]).value;
       s.email != "" && s.name != "" && !(s.loginTime.Some? && IsSessionExpired(s.loginTime.value, now))
  }

  /** `isAuthenticated()` at instant `now`. */
  function IsAuthenticated(b: Browser, now: int): (r: Check)
    ensures r.result.isAuth <==> r.result.user.Some?
    ensures r.result.isAuth ==> Fresh(r.result.user.value, now)
    ensures r.result.isAuth ==>
      Truthy(Get(r.browser.cookies, COOKIE_TOKEN)) && Get(r.browser.cookies, COOKIE_USER) == Some(Record(r.result.user.value))
    ensures !r.result.isAuth ==> !CookiePair(r.browser) && !LocalPair(r.browser)
    ensures !r.result.isAuth ==> r.browser == Logout(b) || (r.browser == b && !CookiePair(b) && !LocalPair(b))
    ensures OthersUnchanged(b, r.browser)
  {
    if CookiePair(b) then
      CheckCookieSession(b, Parse(b.cookies[COOKIE_USER]), now)
    else if LocalPair(b) then
      CheckLocalSession(b, Parse(b.local[LOCAL_USER]), now)
    else
      Check(DENIED, b)
  }

  /** `requireAuth(navigate)`: when the check fails, the page is sent to `/login`. */
  function RequireAuth(b: Browser, now: int): (r: Guard)
    ensures r.allowed <==> IsAuthenticated(b, now).result.isAuth
    ensures r.redirect == (if r.allowed then None else Some(LOGIN_PATH))
    ensures r.browser == IsAuthenticated(b, now).browser
  {
    var c := IsAuthenticated(b, now);
    if !c.result.isAuth then Guard(false, Some(LOGIN_PATH), c.browser)
    else Guard(true, None, c.browser)
  }

  // ---------------------------------------------------------------- properties

  /** The configured email in any ASCII letter case, padded with white space on
      either side. */
  ghost predicate PaddedAdminEmail(email: string) {
    PaddedLower(email, ADMIN_EMAIL)
  }

  /** The accepted emails are exactly the padded, re-cased forms of the configured one. */
  lemma AcceptedEmails(email: string, password: string)
    ensures Accepts(email, password) <==> password == ADMIN_PASSWORD && PaddedAdminEmail(email)
  {
    if NormalizeEmail(email) == ADMIN_EMAIL {
      TrimLowerIsPadded(email);
    }
    if PaddedAdminEmail(email) {
      AdminEmailEnds();
      PaddedIsTrimLower(email, ADMIN_EMAIL);
    }
  }

  lemma AdminEmailEnds()
    ensures ADMIN_EMAIL != "" && !IsSpace(ADMIN_EMAIL[0]) && !IsSpace(ADMIN_EMAIL[|ADMIN_EMAIL| - 1])
  {
  }

  /** The configured email trims to itself. */
  lemma AdminEmailTrimmed()
    ensures Trim(ADMIN_EMAIL) == ADMIN_EMAIL
  {
    AdminEmailEnds();
    TrimPadded("", ADMIN_EMAIL, "");
    assert "" + ADMIN_EMAIL + "" == ADMIN_EMAIL;
  }

  /** A scenario of the design notes: a capitalised email is accepted. */
  lemma CapitalisedEmailAccepted(b: Browser, now: int)
    ensures Login(b, "Contact@Kayease.com", ADMIN_PASSWORD, now).result.LoginOk?
  {
    ToLowerPointwise("Contact@Kayease.com", ADMIN_EMAIL);
    AdminEmailTrimmed();
  }

  /** A scenario of the design notes: a password with a trailing space is refused. */
  lemma PaddedPasswordRefused(b: Browser, now: int)
    ensures Login(b, ADMIN_EMAIL, "Kayease@123 ", now).result.LoginFailed?
  {
    assert |"Kayease@123 "| != |ADMIN_PASSWORD|;
  }

  /** Logging out twice leaves the same state as logging out once. */
  lemma LogoutIdempotent(b: Browser)
    ensures Logout(Logout(b)) == Logout(b)
  {
  }

  /** A session is expired exactly when it is more than 30 minutes old: at exactly
      30 minutes it still counts. */
  lemma ExpiryBoundary(t: int)
    ensures !IsSessionExpired(t, t + 30 * MINUTE)
    ensures IsSessionExpired(t, t + 30 * MINUTE + 1)
  {
  }

  /** Fail closed: after a refused check nothing is left for a later check to find,
      and a later check changes nothing. */
  lemma {:induction false} DeniedStaysDenied(b: Browser, now: int, later: int)
    requires !IsAuthenticated(b, now).result.isAuth
    ensures var b' := IsAuthenticated(b, now).browser;
      IsAuthenticated(b', later) == Check(DENIED, b')
  {
    var b' := IsAuthenticated(b, now).browser;
    assert !CookiePair(b') && !LocalPair(b');
  }

  /** An unparsable cookie session, or one missing loginTime, email or name, logs out. */
  lemma CorruptCookieLogsOut(b: Browser, now: int)
    requires CookiePair(b)
    requires Parse(b.cookies[COOKIE_USER]).None? || !Complete(Parse(b.cookies[COOKIE_USER]).value)
    ensures IsAuthenticated(b, now) == Check(DENIED, Logout(b))
  {
  }

  /** A complete cookie session older than 30 minutes logs out. */
  lemma ExpiredCookieLogsOut(b: Browser, s: Session, now: int)
    requires CookiePair(b) && b.cookies[COOKIE_USER] == Record(s) && Complete(s)
    requires now - s.loginTime.value > 30 * MINUTE
    ensures IsAuthenticated(b, now) == Check(DENIED, Logout(b))
  {
  }

  /** Between 25 and 30 minutes the cookie session is granted with loginTime moved to
      `now` and both stores rewritten; nothing else about the session changes. */
  lemma AgingCookieSessionIsRefreshed(b: Browser, s: Session, now: int)
    requires CookiePair(b) && b.cookies[COOKIE_USER] == Record(s) && Complete(s)
    requires 25 * MINUTE < now - s.loginTime.value <= 30 * MINUTE
    ensures var c := IsAuthenticated(b, now);
      && c.result == AuthResult(true, Some(Session(s.name, s.email, s.role, Some(now))))
      && Synced(c.browser, c.result.user.value)
  {
  }

  /** Up to 25 minutes the cookie session is granted as stored and nothing is written. */
  lemma YoungCookieSessionIsUntouched(b: Browser, s: Session, now: int)
    requires CookiePair(b) && b.cookies[COOKIE_USER] == Record(s) && Complete(s)
    requires now - s.loginTime.value <= 25 * MINUTE
    ensures IsAuthenticated(b, now) == Check(AuthResult(true, Some(s)), b)
  {
  }

  /** Cross-store healing: without the cookie pair the check succeeds exactly when
      localStorage holds a valid session, and then it always refreshes, rewriting the
      cookies from localStorage. So the branch that returns the local session
      unrefreshed (line 160) is never taken. */
  lemma {:induction false} LocalFallbackHeals(b: Browser, now: int)
    requires !CookiePair(b)
    ensures var c := IsAuthenticated(b, now);
      && (c.result.isAuth <==> LocalValid(b, now))
      && (c.result.isAuth ==>
            && c.result.user.value.loginTime == Some(now)
            && c.result.user.value.(loginTime := None) == Parse(b.local[LOCAL_USER]).value.(loginTime := None)
            && Synced(c.browser, c.result.user.value))
  {
    if LocalPair(b) {
      var parsed := Parse(b.local[LOCAL_USER]);
      if parsed.Some? && parsed.value.email != "" && parsed.value.name != "" {
        var s := parsed.value;
        if !(s.loginTime.Some? && IsSessionExpired(s.loginTime.value, now)) {
          assert IsAuthenticated(b, now) == RefreshSession(b, s, now);
        }
      }
    }
  }

  /** With neither store holding a session, the check is refused and nothing is written;
      `requireAuth` then sends the page to the login screen. */
  lemma NoSessionRedirects(b: Browser, now: int)
    requires !CookiePair(b) && !LocalPair(b)
    ensures RequireAuth(b, now) == Guard(false, Some(LOGIN_PATH), b)
  {
  }

  /** A fresh login is recognised unchanged for 25 minutes, by the cookie branch. */
  lemma {:induction false} LoginThenCheck(b: Browser, email: string, password: string, t: int, now: int)
    requires Accepts(email, password)
    requires t <= now <= t + 25 * MINUTE
    ensures var step := Login(b, email, password, t);
      IsAuthenticated(step.browser, now) == Check(AuthResult(true, Some(step.result.user)), step.browser)
  {
    var user := Session(ADMIN_NAME, ADMIN_EMAIL, ADMIN_ROLE, Some(t));
    assert Login(b, email, password, t) == LoginStep(LoginOk(user), Store(b, user));
    StoredSessionRecognised(b, user, now);
  }

  /** A complete session just written to both stores is recognised as it is while it
      is at most 25 minutes old. */
  lemma StoredSessionRecognised(b: Browser, s: Session, now: int)
    requires Complete(s) && s.loginTime.value <= now <= s.loginTime.value + 25 * MINUTE
    ensures IsAuthenticated(Store(b, s), now) == Check(AuthResult(true, Some(s)), Store(b, s))
  {
    var b' := Store(b, s);
    assert CookiePair(b') && Parse(b'.cookies[COOKIE_USER]) == Some(s);
  }

  /** A granted session survives any check made within the next five minutes. */
  lemma {:induction false} GrantedSurvivesFiveMinutes(b: Browser, now: int, later: int)
    requires IsAuthenticated(b, now).result.isAuth
    requires later <= now + 5 * MINUTE
    ensures IsAuthenticated(IsAuthenticated(b, now).browser, later).result.isAuth
  {
    var c := IsAuthenticated(b, now);
    var b' := c.browser;
    var s := c.result.user.value;
    assert CookiePair(b');
    assert Parse(b'.cookies[COOKIE_USER]) == Some(s);
    assert !IsSessionExpired(s.loginTime.value, later);
  }
}
