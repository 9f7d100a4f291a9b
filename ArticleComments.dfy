/**
 * `src/composables/useArticleComments.ts`: the comments of each article, kept in a map from
 * article id to list and saved in the browser's storage as one JSON record.  The clock
 * (`Date.now()` and `new Date().toISOString()`) is an input.
 */
module ArticleComments {
  import opened Wrappers
  import opened Text

  /** `CommentItem` */
  datatype Comment = Comment(id: int, author: string, content: string, createdAt: string)

  /** The comments of every article, by article id. */
  type CommentsMap = map<int, seq<Comment>>

  /** What the storage holds under the comments key: nothing, text that does not parse, or
      a saved map. */
  datatype SavedComments = NoEntry | Corrupt | Saved(comments: CommentsMap)

  /** The author of a comment left without a name. */
  const Anonymous: string := "匿名"

  /** `loadComments()`: the saved map, or an empty one when nothing or something unreadable
      is saved. */
  function Loaded(saved: SavedComments): (m: CommentsMap)
  {
    if saved.Saved? then saved.comments else map[]
  }

  /** `getComments(articleId)`: the article's list, or none. */
  function CommentsOf(m: CommentsMap, articleId: int): (r: seq<Comment>)
  {
    if articleId in m then m[articleId] else []
  }

  /** `payload.author?.trim() || '匿名'` */
  function AuthorName(author: Option<string>): (r: string)
    ensures r != []
    ensures author.Some? && Trim(author.value) != [] ==> r == Trim(author.value)
    ensures author.None? || Trim(author.value) == [] ==> r == Anonymous
  {
    if author.Some? && Trim(author.value) != [] then Trim(author.value) else Anonymous
  }

  /** What one `addComment` gives and makes of the map: nothing for blank content, otherwise
      the new comment, at the end of its article's list. */
  function Added(m: CommentsMap, articleId: int, author: Option<string>, content: string, now: int, nowIso: string)
    : (r: (Option<Comment>, CommentsMap))
    ensures r.0.None? <==> IsBlank(content)
    ensures r.0.None? ==> r.1 == m
    ensures r.0.Some? ==> r.0.value == Comment(now, AuthorName(author), Trim(content), nowIso)
    ensures r.0.Some? ==> r.1.Keys == m.Keys + {articleId}
  {
    var text := Trim(content);
    if text == [] then (None, m)
    else
      var next := Comment(now, AuthorName(author), text, nowIso);
      (Some(next), m[articleId := CommentsOf(m, articleId) + [next]])
  }

  /** Adding appends exactly one comment to the article's list and keeps the ones before. */
  lemma AddAppendsOne(m: CommentsMap, articleId: int, author: Option<string>, content: string, now: int, nowIso: string)
    requires !IsBlank(content)
    ensures var r := Added(m, articleId, author, content, now, nowIso);
            var list := CommentsOf(r.1, articleId);
            && |list| == |CommentsOf(m, articleId)| + 1
            && list[..|list| - 1] == CommentsOf(m, articleId)
            && list[|list| - 1] == r.0.value
            && list[|list| - 1].content == Trim(content) && !IsBlank(list[|list| - 1].content)
  {
    TrimOfTrimmed(Trim(content));
  }

  /** Adding a comment to one article leaves every other article's list as it was. */
  lemma AddKeepsOtherArticles(m: CommentsMap, articleId: int, author: Option<string>, content: string,
                              now: int, nowIso: string, other: int)
    requires other != articleId
    ensures CommentsOf(Added(m, articleId, author, content, now, nowIso).1, other) == CommentsOf(m, other)
  {
  }

  /** The saved record reads back as the map that was saved.  This holds by the choice of
      representation: the storage entry is the map itself rather than its JSON text, and the
      JSON round trip is not part of this model. */
  lemma ReloadOwnSave(m: CommentsMap)
    ensures Loaded(Saved(m)) == m
  {
  }

  /** The `commentsMap` of one `useArticleComments`, and the storage entry it persists to. */
  class CommentBoard {
    var commentsMap: CommentsMap
    var storage: SavedComments

    /** A fresh board starts empty; the storage holds whatever an earlier page saved. */
    constructor(stored: SavedComments)
      ensures commentsMap == map[] && storage == stored
    {
      commentsMap := map[];
      storage := stored;
    }

    /** `loadComments()` */
    method LoadComments()
      modifies this
      ensures commentsMap == Loaded(storage) && storage == old(storage)
    {
      match storage {
        case Saved(saved) => commentsMap := saved;
        case _ => commentsMap := map[];
      }
    }

    /** `getComments(articleId)` */
    function GetComments(articleId: int): seq<Comment>
      reads this
    {
      CommentsOf(commentsMap, articleId)
    }

    /** `addComment(articleId, payload)`: for blank content nothing changes and nothing is
        returned; otherwise the new comment is added, returned, and the map saved. */
    method AddComment(articleId: int, author: Option<string>, content: string, now: int, nowIso: string)
      returns (r: Option<Comment>)
      modifies this
      ensures (r, commentsMap) == Added(old(commentsMap), articleId, author, content, now, nowIso)
      ensures r.None? ==> storage == old(storage)
      ensures r.Some? ==> storage == Saved(commentsMap)
    {
      var text := Trim(content);
      if text == [] {
        return None;
      }
      var name := if author.Some? then Trim(author.value) else [];
      if name == [] {
        name := Anonymous;
      }
      var list := if articleId in commentsMap then commentsMap[articleId] else [];
      var next := Comment(now, name, text, nowIso);
      commentsMap := commentsMap[articleId := list + [next]];
      storage := Saved(commentsMap);
      r := Some(next);
    }
  }
}
