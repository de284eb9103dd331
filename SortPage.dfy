/** The article list of the React app's sort page: a copy of the articles sorted by
    upvotes (initially and for "Most Upvoted") or by date (for "Most Recent"), newest
    and most upvoted first. `Array.prototype.sort` is stable (ECMA-262 since the 10th
    edition, section 22.1.3.27), so ties keep their input order. */
module SortPage {
  import StableSort

  /** An article; `date` is the day its ISO `YYYY-MM-DD` date denotes, as a count. */
  datatype Article = Article(title: string, upvotes: int, date: int)

  /** The sort key of `(a, b) => b.upvotes - a.upvotes`. */
  function ByUpvotes(a: Article): int {
    -a.upvotes
  }

  /** The sort key of `(a, b) => new Date(b.date) - new Date(a.date)`. */
  function ByDate(a: Article): int {
    -a.date
  }

  /** `[...articles].sort((a, b) => b.upvotes - a.upvotes)` */
  function MostUpvoted(articles: seq<Article>): (r: seq<Article>)
    ensures forall i, j :: 0 <= i < j < |r| ==> r[i].upvotes >= r[j].upvotes
    ensures multiset(r) == multiset(articles)
  {
    StableSort.SortBy(articles, ByUpvotes)
  }

  /** `[...articles].sort((a, b) => new Date(b.date) - new Date(a.date))` */
  function MostRecent(articles: seq<Article>): (r: seq<Article>)
    ensures forall i, j :: 0 <= i < j < |r| ==> r[i].date >= r[j].date
    ensures multiset(r) == multiset(articles)
  {
    StableSort.SortBy(articles, ByDate)
  }

  /** Articles with equal upvotes keep their input order. */
  lemma MostUpvotedStable(articles: seq<Article>, votes: int)
    ensures StableSort.WithKey(MostUpvoted(articles), ByUpvotes, -votes) ==
            StableSort.WithKey(articles, ByUpvotes, -votes)
  {
    StableSort.SortByStable(articles, ByUpvotes, -votes);
  }

  /** Articles of the same day keep their input order. */
  lemma MostRecentStable(articles: seq<Article>, day: int)
    ensures StableSort.WithKey(MostRecent(articles), ByDate, -day) ==
            StableSort.WithKey(articles, ByDate, -day)
  {
    StableSort.SortByStable(articles, ByDate, -day);
  }

  /** Every stable sort by upvotes, most first, gives the "Most Upvoted" order. */
  lemma MostUpvotedUnique(articles: seq<Article>, r: seq<Article>)
    requires forall i, j :: 0 <= i < j < |r| ==> r[i].upvotes >= r[j].upvotes
    requires forall v :: StableSort.WithKey(r, ByUpvotes, v) == StableSort.WithKey(articles, ByUpvotes, v)
    ensures r == MostUpvoted(articles)
  {
    StableSort.StableSortIsSortBy(articles, r, ByUpvotes);
  }

  /** Every stable sort by date, newest first, gives the "Most Recent" order. */
  lemma MostRecentUnique(articles: seq<Article>, r: seq<Article>)
    requires forall i, j :: 0 <= i < j < |r| ==> r[i].date >= r[j].date
    requires forall v :: StableSort.WithKey(r, ByDate, v) == StableSort.WithKey(articles, ByDate, v)
    ensures r == MostRecent(articles)
  {
    StableSort.StableSortIsSortBy(articles, r, ByDate);
  }

  /** The page state: the given articles are never changed, only the shown order. */
  class SortPageState {
    const articles: seq<Article>
    var sortedArticles: seq<Article>

    constructor(articles: seq<Article>)
      ensures this.articles == articles && sortedArticles == MostUpvoted(articles)
    {
      this.articles := articles;
      sortedArticles := MostUpvoted(articles);
    }

    /** `handleMostUpvoted` */
    method HandleMostUpvoted()
      modifies this
      ensures sortedArticles == MostUpvoted(articles)
    {
      sortedArticles := MostUpvoted(articles);
    }

    /** `handleMostRecent` */
    method HandleMostRecent()
      modifies this
      ensures sortedArticles == MostRecent(articles)
    {
      sortedArticles := MostRecent(articles);
    }
  }
}
