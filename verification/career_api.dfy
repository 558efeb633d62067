/**
 * The careers REST wrapper (`src/utils/careerApi.js`): the URLs of the job
 * listing, of a job's applications, and of the two canned listings of active
 * and recent jobs. Its `handleResponse` is the one of the contact wrapper
 * (`ContactApi.HandleResponse`).
 */
module CareerApi {
  import opened Common
  import opened Strings
  import opened Query

  const CAREERS := "/api/careers"

  /** `import.meta.env.VITE_BACKEND_URL`, with no fallback: an unset variable is
      interpolated into the URLs as the text "undefined". */
  function BaseUrl(env: Option<string>): (r: string)
    ensures env.Some? ==> r == env.value
    ensures env.None? ==> r == "undefined"
  {
    if env.Some? then env.value else "undefined"
  }

  /** `getAll(filters)`: the job listing with the kept filters as its query. */
  function GetAllUrl(base: string, f: Filters): (r: string)
    ensures |r| >= |base + CAREERS| && r[..|base + CAREERS|] == base + CAREERS
    ensures KeptEntries(f) == [] ==> r == base + CAREERS
    ensures KeptEntries(f) != [] ==> r == base + CAREERS + "?" + Render(Params(f))
  {
    Url(base + CAREERS, f)
  }

  /** `/api/careers/{careerId}/applications`. */
  function ApplicationsPath(base: string, careerId: string): string {
    base + CAREERS + "/" + careerId + "/applications"
  }

  /** `getApplications(careerId, filters)`: a job's applications, filtered by the
      same rule as the listing. */
  function GetApplicationsUrl(base: string, careerId: string, f: Filters): (r: string)
    ensures KeptEntries(f) == [] ==> r == ApplicationsPath(base, careerId)
    ensures KeptEntries(f) != [] ==> r == ApplicationsPath(base, careerId) + "?" + Render(Params(f))
  {
    Url(ApplicationsPath(base, careerId), f)
  }

  /** The applications URL carries exactly the query the listing would carry
      for the same filters. */
  lemma ApplicationsShareListingQuery(base: string, careerId: string, f: Filters)
    ensures GetApplicationsUrl(base, careerId, f)[|ApplicationsPath(base, careerId)|..]
      == GetAllUrl(base, f)[|base + CAREERS|..]
  {
  }

  const ACTIVE_LIMIT := 10
  const RECENT_LIMIT := 5

  /** `getActive(limit = 10)`: `None` is the call without an argument. */
  function GetActiveUrl(base: string, limit: Option<int>): (r: string)
    ensures base + CAREERS + "?status=active&limit=" <= r
    ensures limit.None? ==> r == base + CAREERS + "?status=active&limit=" + "10" + SORT_QUERY
  {
    var pre := base + CAREERS + "?status=active&limit=";
    var t := IntToString(limit.GetOr(ACTIVE_LIMIT));
    Extends(pre, t + SORT_QUERY);
    DefaultLimitText();
    pre + t + SORT_QUERY
  }

  /** `getRecent(limit = 5)`. */
  function GetRecentUrl(base: string, limit: Option<int>): (r: string)
    ensures base + CAREERS + "?limit=" <= r
    ensures limit.None? ==> r == base + CAREERS + "?limit=" + "5" + SORT_QUERY
  {
    var pre := base + CAREERS + "?limit=";
    var t := IntToString(limit.GetOr(RECENT_LIMIT));
    Extends(pre, t + SORT_QUERY);
    DefaultLimitText();
    pre + t + SORT_QUERY
  }

  /** The ordering both canned listings ask for: newest first. */
  const SORT_QUERY := "&sortBy=createdAt&sortOrder=desc"

  /** The default limits as text. */
  lemma DefaultLimitText()
    ensures IntToString(ACTIVE_LIMIT) == "10" && IntToString(RECENT_LIMIT) == "5"
  {
    assert NatToString(1) == "1";
  }

  lemma Extends(a: string, b: string)
    ensures a <= a + b
  {
    assert (a + b)[..|a|] == a;
  }

  /** The filters the canned listings stand for. */
  function ActiveFilters(limit: int): Filters {
    [("status", Str("active")), ("limit", Num(limit)), ("sortBy", Str("createdAt")), ("sortOrder", Str("desc"))]
  }

  function RecentFilters(limit: int): Filters {
    [("limit", Num(limit)), ("sortBy", Str("createdAt")), ("sortOrder", Str("desc"))]
  }

  lemma QueryStart(first: string)
    requires first == "limit=" || first == "status=active&limit="
    ensures "?" + first == if first == "limit=" then "?limit=" else "?status=active&limit="
  {
  }

  lemma Regroup(a: string, b: string, c: string, d: string, e: string)
    ensures a + b + (c + d + e) == a + (b + c) + d + e
  {
  }

  /** `Render` writes the first pair and then the rest behind an `&`. */
  lemma RenderCons(p: Param, rest: seq<Param>)
    requires rest != []
    ensures Render([p] + rest) == p.0 + "=" + p.1 + "&" + Render(rest)
  {
    assert ([p] + rest)[1..] == rest;
  }

  /** The newest-first sort parameters, rendered. */
  lemma RenderSort()
    ensures Render([("sortBy", "createdAt"), ("sortOrder", "desc")]) == "sortBy=createdAt&sortOrder=desc"
  {
    RenderCons(("sortBy", "createdAt"), [("sortOrder", "desc")]);
  }

  lemma RenderRecent(t: string)
    ensures Render([("limit", t), ("sortBy", "createdAt"), ("sortOrder", "desc")])
      == "limit=" + t + "&sortBy=createdAt&sortOrder=desc"
  {
    var sort := [("sortBy", "createdAt"), ("sortOrder", "desc")];
    RenderSort();
    RenderCons(("limit", t), sort);
    assert [("limit", t)] + sort == [("limit", t), ("sortBy", "createdAt"), ("sortOrder", "desc")];
  }

  lemma RenderActive(t: string)
    ensures Render([("status", "active"), ("limit", t), ("sortBy", "createdAt"), ("sortOrder", "desc")])
      == "status=active&limit=" + t + "&sortBy=createdAt&sortOrder=desc"
  {
    var rest := [("limit", t), ("sortBy", "createdAt"), ("sortOrder", "desc")];
    RenderRecent(t);
    RenderCons(("status", "active"), rest);
    assert [("status", "active")] + rest == [("status", "active"), ("limit", t), ("sortBy", "createdAt"), ("sortOrder", "desc")];
  }

  lemma ActiveParams(n: int)
    ensures KeptEntries(ActiveFilters(n)) != []
    ensures Params(ActiveFilters(n))
      == [("status", "active"), ("limit", IntToString(n)), ("sortBy", "createdAt"), ("sortOrder", "desc")]
  {
    var f := ActiveFilters(n);
    assert AllParams(f)
      == [("status", "active"), ("limit", IntToString(n)), ("sortBy", "createdAt"), ("sortOrder", "desc")] by {
      var q := AllParams(f);
      assert q[0] == ("status", "active");
      assert q[1] == ("limit", IntToString(n));
      assert q[2] == ("sortBy", "createdAt");
      assert q[3] == ("sortOrder", "desc");
    }
    AllKeptSent(f);
    assert f[0] in KeptEntries(f) by {
      assert Kept(f[0].1);
    }
  }

  lemma RecentParams(n: int)
    ensures KeptEntries(RecentFilters(n)) != []
    ensures Params(RecentFilters(n)) == [("limit", IntToString(n)), ("sortBy", "createdAt"), ("sortOrder", "desc")]
  {
    var f := RecentFilters(n);
    assert AllParams(f) == [("limit", IntToString(n)), ("sortBy", "createdAt"), ("sortOrder", "desc")] by {
      var q := AllParams(f);
      assert q[0] == ("limit", IntToString(n));
      assert q[1] == ("sortBy", "createdAt");
      assert q[2] == ("sortOrder", "desc");
    }
    AllKeptSent(f);
    assert f[0] in KeptEntries(f) by {
      assert Kept(f[0].1);
    }
  }

  /** The active listing is the general listing asked for active jobs, `limit`
      of them (10 by default), newest first. */
  lemma ActiveIsFilteredListing(base: string, limit: Option<int>)
    ensures GetActiveUrl(base, limit) == GetAllUrl(base, ActiveFilters(limit.GetOr(ACTIVE_LIMIT)))
  {
    var n := limit.GetOr(ACTIVE_LIMIT);
    var t := IntToString(n);
    var sort := "&sortBy=createdAt&sortOrder=desc";
    ActiveParams(n);
    RenderActive(t);
    QueryStart("status=active&limit=");
    Regroup(base + CAREERS, "?", "status=active&limit=", t, sort);
  }

  /** The recent listing is the general listing with no status filter, `limit`
      jobs (5 by default), newest first. */
  lemma RecentIsFilteredListing(base: string, limit: Option<int>)
    ensures GetRecentUrl(base, limit) == GetAllUrl(base, RecentFilters(limit.GetOr(RECENT_LIMIT)))
  {
    var n := limit.GetOr(RECENT_LIMIT);
    var t := IntToString(n);
    var sort := "&sortBy=createdAt&sortOrder=desc";
    RecentParams(n);
    RenderRecent(t);
    QueryStart("limit=");
    Regroup(base + CAREERS, "?", "limit=", t, sort);
  }
}
