/**
 * `src/composables/useArticleSearch.ts`: the search over a list of articles, the highlighted
 * results and the query state.  `highlightText` builds a regular expression from the raw
 * query; only its blank-query case is modelled, the marking of a match is an input `mark`.
 */
module ArticleSearch {
  import opened Text
  import opened ArticleTypes

  /** The fields the search looks at, in the order it joins them. */
  function SearchedFields(a: Article): seq<string> {
    [a.title, a.description, a.content, a.tag, a.categoryKey]
  }

  /** The fields joined by spaces, lower-cased. */
  function SearchText(a: Article): string {
    ToLower(Join(SearchedFields(a), " "))
  }

  /** The article matches the lower-cased, trimmed query. */
  predicate Matches(a: Article, query: string) {
    Contains(SearchText(a), query)
  }

  /** The query as the search uses it: `searchQuery.trim().toLowerCase()`. */
  function NormalQuery(searchQuery: string): string {
    ToLower(Trim(searchQuery))
  }

  /** `articles.filter(...)`: the matching articles in their order. */
  function Filter(articles: seq<Article>, query: string): (r: seq<Article>)
    ensures |r| <= |articles|
    ensures forall a :: a in r <==> a in articles && Matches(a, query)
  {
    if articles == [] then []
    else
      var rest := Filter(articles[1..], query);
      assert forall a :: a in articles <==> a == articles[0] || a in articles[1..];
      (if Matches(articles[0], query) then [articles[0]] else []) + rest
  }

  /** `searchResults`: everything for a blank query, otherwise the matching articles. */
  function SearchResults(articles: seq<Article>, searchQuery: string): (r: seq<Article>)
    ensures NormalQuery(searchQuery) == [] ==> r == articles
    ensures NormalQuery(searchQuery) != [] ==>
              forall a :: a in r <==> a in articles && Matches(a, NormalQuery(searchQuery))
  {
    var query := NormalQuery(searchQuery);
    if query == [] then articles else Filter(articles, query)
  }

  /** The results keep the articles' order: they are a subsequence of the list. */
  predicate IsSubsequence(r: seq<Article>, s: seq<Article>)
    decreases |s|
  {
    if r == [] then true
    else if s == [] then false
    else if r[0] == s[0] then IsSubsequence(r[1..], s[1..])
    else IsSubsequence(r, s[1..])
  }

  lemma {:induction false} FilterIsSubsequence(articles: seq<Article>, query: string)
    ensures IsSubsequence(Filter(articles, query), articles)
    decreases |articles|
  {
    if articles != [] {
      FilterIsSubsequence(articles[1..], query);
      var r := Filter(articles, query);
      if Matches(articles[0], query) {
        assert r[0] == articles[0] && r[1..] == Filter(articles[1..], query);
      } else {
        assert r == Filter(articles[1..], query);
        if r != [] {
          assert r[0] in r && r[0] != articles[0];
        }
      }
    }
  }

  lemma {:induction false} SubsequenceOfItself(s: seq<Article>)
    ensures IsSubsequence(s, s)
    decreases |s|
  {
    if s != [] {
      SubsequenceOfItself(s[1..]);
    }
  }

  /** Whatever the query, the results keep the order the articles came in. */
  lemma SearchKeepsOrder(articles: seq<Article>, searchQuery: string)
    ensures IsSubsequence(SearchResults(articles, searchQuery), articles)
  {
    if NormalQuery(searchQuery) == [] {
      SubsequenceOfItself(articles);
    } else {
      FilterIsSubsequence(articles, NormalQuery(searchQuery));
    }
  }

  /** `Join` puts each part between what comes before and after it. */
  lemma {:induction false} JoinSurrounds(parts: seq<string>, sep: string, k: int) returns (x: string, y: string)
    requires 0 <= k < |parts|
    ensures Join(parts, sep) == x + parts[k] + y
    decreases |parts|
  {
    if |parts| == 1 {
      x, y := [], [];
    } else if k == 0 {
      x, y := [], sep + Join(parts[1..], sep);
    } else {
      var x', y' := JoinSurrounds(parts[1..], sep, k - 1);
      assert parts[1..][k - 1] == parts[k];
      x, y := parts[0] + sep + x', y';
    }
  }

  lemma ContainsWithin(x: string, t: string, y: string, u: string)
    requires Contains(t, u)
    ensures Contains(x + t + y, u)
  {
    var i :| 0 <= i <= |t| - |u| && OccursAt(t, u, i);
    assert (x + t + y)[|x| + i..|x| + i + |u|] == t[i..i + |u|];
    assert OccursAt(x + t + y, u, |x| + i);
  }

  /** An article one of whose searched fields alone holds the query, in any letter case, is
      found. */
  lemma FieldMatchFound(a: Article, query: string, k: int)
    requires 0 <= k < |SearchedFields(a)|
    requires Contains(ToLower(SearchedFields(a)[k]), query)
    ensures Matches(a, query)
  {
    var x, y := JoinSurrounds(SearchedFields(a), " ", k);
    ToLowerAppend(x + SearchedFields(a)[k], y);
    ToLowerAppend(x, SearchedFields(a)[k]);
    ContainsWithin(ToLower(x), ToLower(SearchedFields(a)[k]), ToLower(y), query);
  }

  /** A highlighted result: the article with its title and description marked. */
  datatype Highlighted = Highlighted(article: Article, highlightedTitle: string, highlightedDescription: string)

  /** `highlightText(text, query)`: the text itself for a blank query, otherwise what the
      regular expression replacement gives. */
  function HighlightText(text: string, query: string, mark: (string, string) -> string): (r: string)
    ensures IsBlank(query) ==> r == text
  {
    if IsBlank(query) then text else mark(text, query)
  }

  function HighlightAll(results: seq<Article>, query: string, mark: (string, string) -> string): (r: seq<Highlighted>)
    ensures |r| == |results|
    ensures forall i :: 0 <= i < |r| ==> r[i].article == results[i]
  {
    if results == [] then []
    else [Highlighted(results[0], HighlightText(results[0].title, query, mark),
                      HighlightText(results[0].description, query, mark))]
         + HighlightAll(results[1..], query, mark)
  }

  /** `highlightedResults`: nothing for a blank query, otherwise one entry per result, in
      order, with the article unchanged. */
  function HighlightedResults(articles: seq<Article>, searchQuery: string, mark: (string, string) -> string)
    : (r: seq<Highlighted>)
    ensures Trim(searchQuery) == [] ==> r == []
    ensures Trim(searchQuery) != [] ==> |r| == |SearchResults(articles, searchQuery)|
    ensures Trim(searchQuery) != [] ==> forall i :: 0 <= i < |r| ==> r[i].article == SearchResults(articles, searchQuery)[i]
  {
    var query := Trim(searchQuery);
    if query == [] then [] else HighlightAll(SearchResults(articles, searchQuery), query, mark)
  }

  /** The query `searchQuery` of one `useArticleSearch`. */
  class Search {
    var searchQuery: string

    constructor()
      ensures searchQuery == []
    {
      searchQuery := [];
    }

    /** `clearSearch()`, after which every article is a result again. */
    method ClearSearch()
      modifies this
      ensures searchQuery == []
    {
      searchQuery := [];
    }
  }

  /** After `clearSearch` the results are the whole list and nothing is highlighted. */
  lemma ClearedShowsAll(articles: seq<Article>, mark: (string, string) -> string)
    ensures SearchResults(articles, []) == articles
    ensures HighlightedResults(articles, [], mark) == []
  {
    assert Trim([]) == [];
  }
}
