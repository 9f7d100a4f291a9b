/**
 * `src/data/contentArticles.ts`: the articles read from the markdown files, loaded once.
 * What `loadMarkdownArticles()` gives is an input: the list, or a failure.  The date of an
 * article sorts by `time(date)` (`new Date(date).getTime()`).
 */
module ContentArticles {
  import opened Wrappers
  import opened ArticleTypes
  import DateSort

  /** What awaiting `loadMarkdownArticles()` gives: its list, or a rejection. */
  datatype LoadOutcome = LoadedList(articles: seq<Article>) | LoadFailed

  /** The sort key of the comparator `dateB - dateA`. */
  function DateKey(time: string -> int): (Article -> int) {
    (a: Article) => time(a.date)
  }

  /** `contentArticles` and the flag `markdownArticlesLoaded`. */
  class ContentStore {
    var articles: seq<Article>
    var loaded: bool

    constructor()
      ensures articles == [] && !loaded
    {
      articles := [];
      loaded := false;
    }

    /** `initializeContentArticles()`: nothing once loaded; a non-empty list replaces the
        articles, sorted newest first; an empty list keeps them; both set the flag; a failure
        leaves the flag clear so that a later call tries again. */
    method InitializeContentArticles(outcome: LoadOutcome, time: string -> int)
      modifies this
      ensures (articles, loaded) == Initialized(old(articles), old(loaded), outcome, time)
    {
      if loaded {
        return;
      }
      match outcome {
        case LoadFailed =>
        case LoadedList(markdownArticles) =>
          if |markdownArticles| > 0 {
            articles := [];
            articles := articles + markdownArticles;
            assert articles == markdownArticles;
            articles := DateSort.SortByKey(articles, DateKey(time));
          }
          loaded := true;
      }
    }

    /** `reloadContentArticles()`: clear the flag, then initialise. */
    method ReloadContentArticles(outcome: LoadOutcome, time: string -> int)
      modifies this
      ensures (articles, loaded) == Initialized(old(articles), false, outcome, time)
    {
      loaded := false;
      InitializeContentArticles(outcome, time);
    }
  }

  /** What one call of `initializeContentArticles` makes of the list and the flag. */
  function Initialized(articles: seq<Article>, loaded: bool, outcome: LoadOutcome, time: string -> int)
    : (r: (seq<Article>, bool))
    ensures loaded ==> r == (articles, loaded)
    ensures r.1 <==> loaded || outcome.LoadedList?
  {
    if loaded then (articles, loaded)
    else match outcome
      case LoadFailed => (articles, false)
      case LoadedList(list) => (if list != [] then DateSort.SortByKey(list, DateKey(time)) else articles, true)
  }

  /** A second call changes nothing, whatever the loader would give: the files are read once
      per page. */
  lemma InitializeIsIdempotent(articles: seq<Article>, loaded: bool, o1: LoadOutcome, o2: LoadOutcome, time: string -> int)
    requires o1.LoadedList?
    ensures var first := Initialized(articles, loaded, o1, time);
            Initialized(first.0, first.1, o2, time) == first
  {
  }

  /** A successful non-empty load leaves the list newest first, as a reordering of what was
      loaded. */
  lemma InitializedSorted(articles: seq<Article>, list: seq<Article>, time: string -> int)
    requires list != []
    ensures var r := Initialized(articles, false, LoadedList(list), time).0;
            DateSort.SortedDesc(r, DateKey(time)) && multiset(r) == multiset(list)
  {
    DateSort.SortIsSorted(list, DateKey(time));
  }
}
