/**
 * `src/data/index.ts`: the merged article list, content articles first, then the browser's
 * data articles, sorted newest first.  The data articles come from a module that is not part
 * of this model (`./dataArticles`), so their list is an input; the content articles are the
 * `ContentStore` of `contentArticles.ts`.
 */
module ArticleIndex {
  import opened Wrappers
  import opened ArticleTypes
  import DateSort
  import opened ContentArticles

  /** The merged list `updateMergedArticles` builds. */
  function Merged(content: seq<Article>, data: seq<Article>, time: string -> int): (r: seq<Article>)
    ensures multiset(r) == multiset(content + data)
  {
    DateSort.SortByKey(content + data, DateKey(time))
  }

  /** The merged list is newest first and holds exactly the content and the data articles. */
  lemma MergedIsSortedPermutation(content: seq<Article>, data: seq<Article>, time: string -> int)
    ensures DateSort.SortedDesc(Merged(content, data, time), DateKey(time))
    ensures forall a :: a in Merged(content, data, time) <==> a in content || a in data
  {
    DateSort.SortIsSorted(content + data, DateKey(time));
    var r := Merged(content, data, time);
    forall a ensures a in r <==> a in content || a in data {
      assert a in r <==> a in multiset(r);
      assert a in content + data <==> a in multiset(content + data);
    }
  }

  /** Among articles of one date, the content articles come first and each group keeps its
      own order. */
  lemma ContentAheadOnTies(content: seq<Article>, data: seq<Article>, time: string -> int, k: int)
    ensures DateSort.WithKey(Merged(content, data, time), DateKey(time), k)
            == DateSort.WithKey(content, DateKey(time), k) + DateSort.WithKey(data, DateKey(time), k)
  {
    DateSort.SortIsStable(content + data, DateKey(time), k);
    DateSort.WithKeyAppend(content, data, DateKey(time), k);
  }

  /** `articles.find((item) => item.id === id)` with a numeric id: content articles carry
      string ids, so only a data article can match. */
  function FindById(s: seq<Article>, id: int): (r: Option<Article>)
    ensures r.Some? <==> exists j :: 0 <= j < |s| && s[j].id == NumId(id)
    ensures r.Some? ==> exists j :: 0 <= j < |s| && s[j] == r.value && r.value.id == NumId(id)
                          && forall i :: 0 <= i < j ==> s[i].id != NumId(id)
  {
    if s == [] then None
    else if s[0].id == NumId(id) then Some(s[0])
    else
      var r := FindById(s[1..], id);
      assert forall j :: 1 <= j < |s| ==> s[j] == s[1..][j - 1];
      if r.Some? then
        assert exists j :: 0 <= j < |s[1..]| && s[1..][j] == r.value && r.value.id == NumId(id)
                            && forall i :: 0 <= i < j ==> s[1..][i].id != NumId(id);
        var j :| 0 <= j < |s[1..]| && s[1..][j] == r.value && r.value.id == NumId(id)
                 && forall i :: 0 <= i < j ==> s[1..][i].id != NumId(id);
        assert s[j + 1] == r.value && forall i :: 0 <= i < j + 1 ==> s[i].id != NumId(id);
        r
      else r
  }

  /** What `reloadArticles()` makes of the content list: `initializeContentArticles`, which
      does nothing once the files were loaded. */
  function ReloadedContentAsWritten(content: seq<Article>, loaded: bool, outcome: LoadOutcome, time: string -> int)
    : seq<Article>
  {
    Initialized(content, loaded, outcome, time).0
  }

  /** As written, once the files were loaded a reload never shows a changed file: the merged
      list is the one built from the old content. */
  lemma ReloadKeepsStaleContent(content: seq<Article>, data: seq<Article>, list: seq<Article>, time: string -> int)
    ensures Merged(ReloadedContentAsWritten(content, true, LoadedList(list), time), data, time)
            == Merged(content, data, time)
  {
  }

  /** What the reload evidently means: `reloadContentArticles`, which clears the flag first. */
  function ReloadedContent(content: seq<Article>, outcome: LoadOutcome, time: string -> int): seq<Article>
  {
    Initialized(content, false, outcome, time).0
  }

  /** With the flag cleared, the files that load replace the content, whatever was loaded
      before. */
  lemma ReloadShowsNewContent(content: seq<Article>, data: seq<Article>, list: seq<Article>, time: string -> int)
    requires list != []
    ensures var r := Merged(ReloadedContent(content, LoadedList(list), time), data, time);
            multiset(r) == multiset(list + data) && DateSort.SortedDesc(r, DateKey(time))
  {
    var c := ReloadedContent(content, LoadedList(list), time);
    assert multiset(c + data) == multiset(c) + multiset(data);
    assert multiset(list + data) == multiset(list) + multiset(data);
    MergedIsSortedPermutation(c, data, time);
  }

  /** The module array `articles`. */
  class Catalog {
    var articles: seq<Article>

    /** The module's start: `updateMergedArticles()` with nothing loaded from the files. */
    constructor(data: seq<Article>, time: string -> int)
      ensures articles == Merged([], data, time)
    {
      articles := Merged([], data, time);
    }

    /** `updateMergedArticles()`: empty the array, push the content then the data articles,
        and sort. */
    method UpdateMergedArticles(content: seq<Article>, data: seq<Article>, time: string -> int)
      modifies this
      ensures articles == Merged(content, data, time)
    {
      articles := [];
      articles := articles + content + data;
      assert articles == content + data;
      articles := DateSort.SortByKey(articles, DateKey(time));
    }

    /** `getArticleById(id)` */
    function GetArticleById(id: int): Option<Article>
      reads this
    {
      FindById(articles, id)
    }

    /** `initializeArticles()`: load the content once, then merge. */
    method InitializeArticles(store: ContentStore, data: seq<Article>, outcome: LoadOutcome, time: string -> int)
      modifies this, store
      ensures (store.articles, store.loaded) == Initialized(old(store.articles), old(store.loaded), outcome, time)
      ensures articles == Merged(store.articles, data, time)
    {
      store.InitializeContentArticles(outcome, time);
      UpdateMergedArticles(store.articles, data, time);
    }

    /** `reloadArticles()` as written: the data articles are reloaded (their new list is
        `data`), the content articles initialised, then the lists merged.  Initialising does
        nothing once the files were loaded, so the content stays as it was; the reload its
        comment describes is `ReloadedContent` (`ReloadShowsNewContent`). */
    method ReloadArticles(store: ContentStore, data: seq<Article>, outcome: LoadOutcome, time: string -> int)
      modifies this, store
      ensures (store.articles, store.loaded) == Initialized(old(store.articles), old(store.loaded), outcome, time)
      ensures store.articles == ReloadedContentAsWritten(old(store.articles), old(store.loaded), outcome, time)
      ensures old(store.loaded) ==> articles == Merged(old(store.articles), data, time)
      ensures articles == Merged(store.articles, data, time)
    {
      store.InitializeContentArticles(outcome, time);
      UpdateMergedArticles(store.articles, data, time);
    }
  }
}
