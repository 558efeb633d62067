/**
 * The public portfolio page (`src/pages/portfolio/index.jsx`): the category
 * tabs it derives from the statistics or from the loaded projects, the
 * reshaping of a project record into a card, and the filter change a tab
 * click asks the portfolio hook for. The hook itself (`usePortfolio`) is not
 * part of this model.
 */
module PortfolioPage {
  import opened Common
  import opened Lists
  import opened Assoc
  import opened Query

  // ---------------------------------------------------------------------------
  // Category counts
  // ---------------------------------------------------------------------------

  /** How often `c` occurs in `xs`. */
  function Occurrences(xs: seq<string>, c: string): nat
    decreases |xs|
  {
    if xs == [] then 0
    else Occurrences(xs[..|xs| - 1], c) + (if xs[|xs| - 1] == c then 1 else 0)
  }

  /** The fallback count: `categoryCounts[c] = (categoryCounts[c] || 0) + 1` for
      each project's category in turn. Every category seen gets its number of
      projects; the keys come in order of first appearance. */
  function Tally(cats: seq<string>): (r: Entries<int>)
    ensures forall c :: Lookup(r, c) == if Occurrences(cats, c) > 0 then Some(Occurrences(cats, c)) else None
    ensures DistinctKeys(r)
    decreases |cats|
  {
    if cats == [] then []
    else
      var n := |cats| - 1;
      var t := Tally(cats[..n]);
      PutDistinct(t, cats[n], Lookup(t, cats[n]).GetOr(0) + 1);
      TallyStep(cats, t);
      Put(t, cats[n], Lookup(t, cats[n]).GetOr(0) + 1)
  }

  /** Counting one more category: its count goes up by one, the others stay. */
  lemma TallyStep(cats: seq<string>, t: Entries<int>)
    requires cats != []
    requires forall c :: Lookup(t, c) == if Occurrences(cats[..|cats| - 1], c) > 0 then Some(Occurrences(cats[..|cats| - 1], c)) else None
    ensures var last := cats[|cats| - 1];
      forall c :: Lookup(Put(t, last, Lookup(t, last).GetOr(0) + 1), c) == if Occurrences(cats, c) > 0 then Some(Occurrences(cats, c)) else None
  {
    var last := cats[|cats| - 1];
    var r := Put(t, last, Lookup(t, last).GetOr(0) + 1);
    forall c ensures Lookup(r, c) == if Occurrences(cats, c) > 0 then Some(Occurrences(cats, c)) else None {
      assert Occurrences(cats, c) == Occurrences(cats[..|cats| - 1], c) + (if last == c then 1 else 0);
    }
  }

  /** The counts taken from the statistics: `categoryCounts[cat._id] = cat.count`
      for each entry in turn, so a repeated id keeps its last count. */
  function FromStats(stats: seq<(string, int)>): (r: Entries<int>)
    ensures forall c :: Lookup(r, c) == Lookup(stats, c)
    ensures DistinctKeys(r)
    decreases |stats|
  {
    if stats == [] then []
    else
      var n := |stats| - 1;
      var t := FromStats(stats[..n]);
      assert stats == stats[..n] + [(stats[n].0, stats[n].1)];
      forall c ensures Lookup(stats, c) == if c == stats[n].0 then Some(stats[n].1) else Lookup(stats[..n], c) {
        LookupSnoc(stats[..n], stats[n].0, stats[n].1, c);
      }
      PutDistinct(t, stats[n].0, stats[n].1);
      Put(t, stats[n].0, stats[n].1)
  }

  // ---------------------------------------------------------------------------
  // getFilters
  // ---------------------------------------------------------------------------

  /** One filter tab. */
  datatype Tab = Tab(id: string, name: string, icon: string, count: int)

  /** The tab names and icons of the categories the page knows. */
  const CATEGORY_TABS: map<string, (string, string)> := map[
    "web-dev" := ("Web Development", "Code"),
    "mobile" := ("Mobile", "Smartphone"),
    "ecommerce" := ("E-commerce", "ShoppingCart"),
    "saas" := ("SaaS", "Cloud"),
    "healthcare" := ("Healthcare", "Heart"),
    "fintech" := ("Fintech", "CreditCard"),
    "education" := ("Education", "GraduationCap"),
    "other" := ("Other", "Folder")
  ]

  const ALL := "all"

  /** A known category with projects gets a tab. */
  predicate Listed(e: (string, int)) {
    e.1 > 0 && e.0 in CATEGORY_TABS
  }

  function TabOf(e: (string, int)): Tab
    requires e.0 in CATEGORY_TABS
  {
    Tab(e.0, CATEGORY_TABS[e.0].0, CATEGORY_TABS[e.0].1, e.1)
  }

  /** The category tabs, in the order of the counts object: one tab for each
      listed entry, in turn. */
  function CategoryTabs(counts: Entries<int>): (r: seq<Tab>)
    ensures forall t :: t in r ==> (t.id, t.count) in counts && Listed((t.id, t.count)) && t == TabOf((t.id, t.count))
    ensures forall e :: e in counts && Listed(e) ==> TabOf(e) in r
    decreases |counts|
  {
    if counts == [] then []
    else
      var rest := CategoryTabs(counts[1..]);
      assert counts == [counts[0]] + counts[1..];
      if Listed(counts[0]) then [TabOf(counts[0])] + rest else rest
  }

  /** The tabs of listed entries, one each, in the same order. */
  function TabsOf(es: seq<(string, int)>): (r: seq<Tab>)
    requires forall i :: 0 <= i < |es| ==> Listed(es[i])
    ensures |r| == |es|
    decreases |es|
  {
    if es == [] then []
    else
      assert Listed(es[0]);
      assert forall i :: 0 <= i < |es| - 1 ==> es[1..][i] == es[i + 1];
      [TabOf(es[0])] + TabsOf(es[1..])
  }

  /** The tabs follow the counts object: they are the tabs of the listed
      entries, taken in the order of the counts. */
  lemma {:induction false} CategoryTabsInOrder(counts: Entries<int>)
    ensures CategoryTabs(counts) == TabsOf(Filter(counts, Listed))
    decreases |counts|
  {
    if counts != [] {
      var rest := counts[1..];
      CategoryTabsInOrder(rest);
      var shown := Filter(rest, Listed);
      if Listed(counts[0]) {
        assert Filter(counts, Listed) == [counts[0]] + shown;
        assert ([counts[0]] + shown)[1..] == shown;
      }
    }
  }

  /** The tabs of a tail come from its entries, so none repeats the head's key. */
  lemma TailTabsAvoidHead(counts: Entries<int>)
    requires counts != [] && DistinctKeys(counts)
    ensures DistinctKeys(counts[1..])
    ensures forall t :: t in CategoryTabs(counts[1..]) ==> t.id != counts[0].0
  {
    var tail := counts[1..];
    forall i, j | 0 <= i < j < |tail| ensures tail[i].0 != tail[j].0 {
      assert tail[i] == counts[i + 1] && tail[j] == counts[j + 1];
    }
    forall t | t in CategoryTabs(tail) ensures t.id != counts[0].0 {
      var k :| 0 <= k < |tail| && tail[k] == (t.id, t.count);
      assert counts[k + 1] == (t.id, t.count);
    }
  }

  /** Tabs with pairwise distinct ids. */
  predicate DistinctIds(ts: seq<Tab>) {
    forall i, j :: 0 <= i < j < |ts| ==> ts[i].id != ts[j].id
  }

  /** A new tab in front of distinct tabs that do not share its id. */
  lemma ConsDistinct(t: Tab, rest: seq<Tab>)
    requires DistinctIds(rest)
    requires forall u :: u in rest ==> u.id != t.id
    ensures DistinctIds([t] + rest)
  {
    var r := [t] + rest;
    forall i, j | 0 <= i < j < |r| ensures r[i].id != r[j].id {
      assert r[j] == rest[j - 1];
      if i > 0 {
        assert r[i] == rest[i - 1];
      }
    }
  }

  /** Distinct keys give distinct tabs. */
  lemma {:induction false} CategoryTabsDistinct(counts: Entries<int>)
    requires DistinctKeys(counts)
    ensures DistinctIds(CategoryTabs(counts))
    decreases |counts|
  {
    if counts != [] {
      TailTabsAvoidHead(counts);
      CategoryTabsDistinct(counts[1..]);
      if Listed(counts[0]) {
        ConsDistinct(TabOf(counts[0]), CategoryTabs(counts[1..]));
      }
    }
  }

  /** "all" is not a category, so no category tab takes its id. */
  lemma NoCategoryTabIsAll(counts: Entries<int>)
    ensures forall u :: u in CategoryTabs(counts) ==> u.id != ALL
  {
    assert ALL !in CATEGORY_TABS;
  }

  /** The statistics the page may have: the total and the per-category counts. */
  datatype PortfolioStats = PortfolioStats(totalProjects: Option<int>, categoryStats: Option<seq<(string, int)>>)

  /** A project as the portfolio service returns it; absent or empty fields are `None`. */
  datatype Project = Project(
    id: string, title: string, clientName: string, category: string,
    categoryName: Option<string>, mainImage: string, excerpt: string,
    projectOverview: string, challenges: Option<string>,
    technologies: Option<seq<string>>, galleryImages: Option<seq<string>>,
    liveDomainLink: Option<string>, featured: bool, status: string, slug: string)

  function Categories(ps: seq<Project>): (r: seq<string>)
    ensures |r| == |ps| && forall i :: 0 <= i < |ps| ==> r[i] == ps[i].category
  {
    seq(|ps|, i requires 0 <= i < |ps| => ps[i].category)
  }

  /** The counts `getFilters` works from: the statistics when they carry
      category counts, otherwise a tally of the loaded projects. */
  function Counts(stats: Option<PortfolioStats>, portfolios: seq<Project>): (r: Entries<int>)
    ensures DistinctKeys(r)
  {
    if stats.Some? && stats.value.categoryStats.Some? then FromStats(stats.value.categoryStats.value)
    else Tally(Categories(portfolios))
  }

  /** `getFilters()`: the "All Projects" tab, counting `stats.totalProjects` or
      else the loaded projects, followed by one tab per known category with a
      positive count. */
  function GetFilters(stats: Option<PortfolioStats>, portfolios: seq<Project>): (r: seq<Tab>)
    ensures |r| >= 1
    ensures r[0] == Tab(ALL, "All Projects", "Grid3X3",
      NumberOr(if stats.Some? then stats.value.totalProjects else None, |portfolios|))
    ensures r[1..] == CategoryTabs(Counts(stats, portfolios))
    ensures DistinctIds(r)
  {
    var all := Tab(ALL, "All Projects", "Grid3X3",
      NumberOr(if stats.Some? then stats.value.totalProjects else None, |portfolios|));
    var tabs := CategoryTabs(Counts(stats, portfolios));
    CategoryTabsDistinct(Counts(stats, portfolios));
    NoCategoryTabIsAll(Counts(stats, portfolios));
    ConsDistinct(all, tabs);
    assert ([all] + tabs)[1..] == tabs;
    [all] + tabs
  }

  /** Without category statistics, a known category has a tab exactly when a
      loaded project belongs to it, and the tab counts those projects. */
  lemma FallbackTabsCountProjects(stats: Option<PortfolioStats>, portfolios: seq<Project>, c: string)
    requires stats.None? || stats.value.categoryStats.None?
    requires c in CATEGORY_TABS
    ensures var n := Occurrences(Categories(portfolios), c);
      n > 0 <==> Tab(c, CATEGORY_TABS[c].0, CATEGORY_TABS[c].1, n) in GetFilters(stats, portfolios)[1..]
  {
    var counts := Counts(stats, portfolios);
    var n := Occurrences(Categories(portfolios), c);
    var tabs := GetFilters(stats, portfolios)[1..];
    if n > 0 {
      assert Lookup(counts, c) == Some(n);
      var e :| e in counts && e.0 == c && e.1 == n by {
        LookupFound(counts, c);
      }
      assert TabOf(e) in tabs;
    }
    if Tab(c, CATEGORY_TABS[c].0, CATEGORY_TABS[c].1, n) in tabs {
      assert (c, n) in counts && n > 0;
    }
  }

  /** A found key comes from an entry holding that value. */
  lemma {:induction false} LookupFound<V>(e: Entries<V>, k: string)
    requires Lookup(e, k).Some?
    ensures (k, Lookup(e, k).value) in e
    decreases |e|
  {
    var n := |e| - 1;
    if e[n].0 != k {
      LookupFound(e[..n], k);
      assert e[..n] <= e;
    }
  }

  /** With category statistics, a known category has a tab exactly when its
      (last) reported count is positive. */
  lemma StatsTabsFollowStats(stats: PortfolioStats, portfolios: seq<Project>, c: string, n: int)
    requires stats.categoryStats.Some?
    requires c in CATEGORY_TABS && Lookup(stats.categoryStats.value, c) == Some(n)
    ensures n > 0 <==> Tab(c, CATEGORY_TABS[c].0, CATEGORY_TABS[c].1, n) in GetFilters(Some(stats), portfolios)[1..]
  {
    var counts := Counts(Some(stats), portfolios);
    assert Lookup(counts, c) == Some(n);
    LookupFound(counts, c);
    if Tab(c, CATEGORY_TABS[c].0, CATEGORY_TABS[c].1, n) in GetFilters(Some(stats), portfolios)[1..] {
      assert (c, n) in counts;
    }
  }

  // ---------------------------------------------------------------------------
  // transformProjectData
  // ---------------------------------------------------------------------------

  /** The category names of the project cards (note "Mobile Development", where
      the tab says "Mobile"). */
  const CARD_CATEGORY_NAMES: map<string, string> := map[
    "web-dev" := "Web Development",
    "mobile" := "Mobile Development",
    "ecommerce" := "E-commerce",
    "saas" := "SaaS",
    "healthcare" := "Healthcare",
    "fintech" := "Fintech",
    "education" := "Education",
    "other" := "Other"
  ]

  const NO_CHALLENGES := "No specific challenges documented for this project."
  const COMPLETED := "Project completed"

  datatype Technology = Technology(name: string, icon: string)

  /** A project card. */
  datatype Card = Card(
    id: string, title: string, client: string, category: string, categoryName: string,
    image: string, description: string, fullDescription: string, challenge: string,
    tags: seq<string>, technologies: seq<Technology>, gallery: seq<string>,
    liveUrl: string, timeline: string, featured: bool, status: string, slug: string)

  /** `backendProject.categoryName || categoryMap[category] || category`. */
  function CategoryName(p: Project): (r: string)
    ensures p.categoryName.Some? && p.categoryName.value != "" ==> r == p.categoryName.value
    ensures (p.categoryName.None? || p.categoryName.value == "") && p.category in CARD_CATEGORY_NAMES
      ==> r == CARD_CATEGORY_NAMES[p.category]
    ensures (p.categoryName.None? || p.categoryName.value == "") && p.category !in CARD_CATEGORY_NAMES
      ==> r == p.category
  {
    TextOr(p.categoryName, if p.category in CARD_CATEGORY_NAMES then CARD_CATEGORY_NAMES[p.category] else p.category)
  }

  /** `transformProjectData(backendProject)`; the year is left out. */
  function ToCard(p: Project): (r: Card)
    ensures r.id == p.id && r.title == p.title && r.client == p.clientName && r.category == p.category
    ensures r.categoryName == CategoryName(p)
    ensures r.image == p.mainImage && r.description == p.excerpt && r.fullDescription == p.projectOverview
    ensures p.challenges.Some? && p.challenges.value != "" ==> r.challenge == p.challenges.value
    ensures p.challenges.None? || p.challenges.value == "" ==> r.challenge == NO_CHALLENGES
    ensures r.tags <= p.technologies.GetOr([]) && |r.tags| == Min(3, |p.technologies.GetOr([])|)
    ensures |r.technologies| == |p.technologies.GetOr([])|
    ensures forall i :: 0 <= i < |r.technologies| ==> r.technologies[i] == Technology(p.technologies.value[i], "Code")
    ensures r.gallery != []
    ensures p.galleryImages.Some? && p.galleryImages.value != [] ==> r.gallery == p.galleryImages.value
    ensures p.galleryImages.None? || p.galleryImages.value == [] ==> r.gallery == [p.mainImage]
    ensures p.liveDomainLink.Some? && p.liveDomainLink.value != "" ==> r.liveUrl == p.liveDomainLink.value
    ensures p.liveDomainLink.None? || p.liveDomainLink.value == "" ==> r.liveUrl == "#"
    ensures r.timeline == COMPLETED && r.featured == p.featured && r.status == p.status && r.slug == p.slug
  {
    var techs := p.technologies.GetOr([]);
    Card(p.id, p.title, p.clientName, p.category, CategoryName(p),
      p.mainImage, p.excerpt, p.projectOverview, TextOr(p.challenges, NO_CHALLENGES),
      Take(techs, 3),
      seq(|techs|, i requires 0 <= i < |techs| => Technology(techs[i], "Code")),
      if p.galleryImages.Some? && |p.galleryImages.value| > 0 then p.galleryImages.value else [p.mainImage],
      TextOr(p.liveDomainLink, "#"), COMPLETED, p.featured, p.status, p.slug)
  }

  /** The tags are the first technologies, under the same names as the
      technology list. */
  lemma TagsAreLeadingTechnologies(p: Project, i: int)
    requires 0 <= i < |ToCard(p).tags|
    ensures ToCard(p).tags[i] == ToCard(p).technologies[i].name
  {
  }

  // ---------------------------------------------------------------------------
  // Tab changes
  // ---------------------------------------------------------------------------

  /** The category a tab asks the hook for: none for "all". */
  function CategoryFor(active: string): (r: string)
    ensures active == ALL ==> r == ""
    ensures active != ALL ==> r == active
  {
    if active == ALL then "" else active
  }

  /** The filter update the page sends when the active tab changes. */
  function TabChange(active: string): (r: Filters)
    ensures Lookup(r, "page") == Some(Num(1))
    ensures Lookup(r, "category") == Some(Str(CategoryFor(active)))
    ensures Keys(r) == ["category", "page"]
  {
    var r := [("category", Str(CategoryFor(active))), ("page", Num(1))];
    assert r[..1] == [("category", Str(CategoryFor(active)))];
    r
  }

  /** Of the two entries of the "all" tab, only the page is kept. */
  lemma AllTabKeeps()
    ensures KeptEntries(TabChange(ALL)) == [("page", Num(1))]
  {
    var page := ("page", Num(1));
    assert TabChange(ALL) == [("category", Str(""))] + [page];
    KeptEntriesCons(("category", Str("")), [page]);
    KeptEntriesCons(page, []);
    assert [page] + [] == [page];
  }

  /** Choosing the "all" tab drops the category from the query, and the list
      restarts at page 1. */
  lemma AllTabDropsCategory()
    ensures Params(TabChange(ALL)) == [("page", "1")]
  {
    AllTabKeeps();
    PageOneText();
  }

  /** Of the two entries of a category tab, both are kept. */
  lemma CategoryTabKeeps(active: string)
    requires active != ALL && active != ""
    ensures KeptEntries(TabChange(active)) == [("category", Str(active)), ("page", Num(1))]
  {
    var page := ("page", Num(1));
    assert TabChange(active) == [("category", Str(active))] + [page];
    assert [page] + [] == [page];
    KeptEntriesCons(("category", Str(active)), [page]);
    KeptEntriesCons(page, []);
    assert KeptEntries([]) == [];
  }

  /** Choosing a category tab sends that category, and page 1. */
  lemma CategoryTabSendsCategory(active: string)
    requires active != ALL && active != ""
    ensures Params(TabChange(active)) == [("category", active), ("page", "1")]
  {
    CategoryTabKeeps(active);
    PageOneText();
  }

  lemma PageOneText()
    ensures Text(Num(1)) == "1"
  {
  }
}
