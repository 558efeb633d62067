/**
 * The blog article page (`src/pages/blog/BlogDetail.jsx`): what one load
 * fetches and keeps, which related articles it picks, and which of its four
 * views the page shows. The two calls to the blog service are parameters:
 * `None` stands for a call that threw.
 */
module BlogDetail {
  import opened Common
  import opened Lists

  /** An article; a missing or empty title or content is "". */
  datatype Blog = Blog(id: string, category: string, title: string, content: string)

  /** The other articles of the same category: not the one the route names. */
  predicate Related(b: Blog, id: string, category: string) {
    b.id != id && b.category == category
  }

  /** `allBlogs.filter(b => b._id !== id && b.category === blogData.category)`. */
  function Candidates(all: seq<Blog>, id: string, category: string): (r: seq<Blog>)
    ensures forall i :: 0 <= i < |r| ==> r[i] in all && Related(r[i], id, category)
    ensures forall i :: 0 <= i < |all| && Related(all[i], id, category) ==> all[i] in r
    ensures Subseq(r, all)
    ensures forall b :: multiset(r)[b] == if Related(b, id, category) then multiset(all)[b] else 0
  {
    Filter(all, (b: Blog) => Related(b, id, category))
  }

  const RELATED_COUNT := 3

  /** `.slice(0, 3)` of the candidates: the first three related articles in the
      order the service listed them. */
  function RelatedBlogs(all: seq<Blog>, id: string, category: string): (r: seq<Blog>)
    ensures |r| == Min(RELATED_COUNT, |Candidates(all, id, category)|)
    ensures forall i :: 0 <= i < |r| ==> r[i].id != id && r[i].category == category && r[i] in all
    ensures r <= Candidates(all, id, category)
    ensures |Candidates(all, id, category)| <= RELATED_COUNT ==> r == Candidates(all, id, category)
  {
    Take(Candidates(all, id, category), RELATED_COUNT)
  }

  /** A related article is left out only when three others are shown before it. */
  lemma RelatedLeftOutOnlyWhenFull(all: seq<Blog>, id: string, category: string, b: Blog)
    requires b in all && Related(b, id, category)
    requires b !in RelatedBlogs(all, id, category)
    ensures |RelatedBlogs(all, id, category)| == RELATED_COUNT
  {
    var k :| 0 <= k < |all| && all[k] == b;
    assert b in Candidates(all, id, category);
  }

  const LOAD_FAILED := "Blog not found or failed to fetch."

  /** The page state after one load. */
  datatype State = State(loading: bool, error: Option<string>, blog: Option<Blog>, related: seq<Blog>)

  const INITIAL := State(true, None, None, [])

  /** The effect of a route `id` on the page state `prev`: fetch the article,
      then every article, and keep the related ones. A throw of either call sets
      the error; what the calls did not replace stays as it was (an article
      fetched before the second call threw is kept). */
  function Load(prev: State, id: string, byId: Option<Blog>, all: Option<seq<Blog>>): (r: State)
    ensures !r.loading
    ensures r.blog == if byId.Some? then byId else prev.blog
    ensures r.error.None? <==> byId.Some? && all.Some?
    ensures r.error.Some? ==> r.error.value == LOAD_FAILED && r.related == prev.related
    ensures r.error.None? ==> r.related == RelatedBlogs(all.value, id, byId.value.category)
  {
    match byId
    case None => State(false, Some(LOAD_FAILED), prev.blog, prev.related)
    case Some(b) =>
      match all
      case None => State(false, Some(LOAD_FAILED), Some(b), prev.related)
      case Some(list) => State(false, None, Some(b), RelatedBlogs(list, id, b.category))
  }

  /** The four things the page can show. */
  datatype View = Loading | NotFound(message: string) | Incomplete | Article(blog: Blog, related: seq<Blog>)

  const NOT_FOUND := "The article you're looking for doesn't exist."

  /** The view of a state: the spinner while loading, "Article Not Found" on an
      error or without an article, the incomplete-data warning for an article
      without content or title, and the article otherwise. */
  function ViewOf(s: State): (r: View)
    ensures r == Loading <==> s.loading
    ensures r.NotFound? <==> !s.loading && (s.error.Some? || s.blog.None?)
    ensures r.Incomplete? <==> !s.loading && s.error.None? && s.blog.Some? && (s.blog.value.content == "" || s.blog.value.title == "")
    ensures r.Article? ==> s.blog == Some(r.blog) && r.blog.content != "" && r.blog.title != "" && r.related == s.related
  {
    if s.loading then Loading
    else if s.error.Some? || s.blog.None? then NotFound(TextOr(s.error, NOT_FOUND))
    else if s.blog.value.content == "" || s.blog.value.title == "" then Incomplete
    else Article(s.blog.value, s.related)
  }

  /** An article is shown exactly when both calls succeed and it has a title
      and content; in particular, a failed listing call hides an article that
      was fetched. */
  lemma ArticleShownIff(prev: State, id: string, byId: Option<Blog>, all: Option<seq<Blog>>)
    ensures ViewOf(Load(prev, id, byId, all)).Article? <==>
      byId.Some? && all.Some? && byId.value.content != "" && byId.value.title != ""
    ensures byId.Some? && all.None? ==> ViewOf(Load(prev, id, byId, all)) == NotFound(LOAD_FAILED)
  {
  }

  /** Whatever the service answers, the article shown never lists itself (by the
      route id) among its related articles, and lists at most three. */
  lemma ShownRelatedAreOthers(prev: State, id: string, byId: Option<Blog>, all: Option<seq<Blog>>)
    requires ViewOf(Load(prev, id, byId, all)).Article?
    ensures var v := ViewOf(Load(prev, id, byId, all));
      |v.related| <= RELATED_COUNT && forall i :: 0 <= i < |v.related| ==> v.related[i].id != id && v.related[i].category == v.blog.category
  {
  }
}
