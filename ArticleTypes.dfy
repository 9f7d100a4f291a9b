/**
 * The `Article` record of `src/data/types.ts`.  The declared `id: number` is used by the
 * browser store, while `markdownToArticle` gives articles a `nanoid()` string, so the id is a
 * number or a string.
 */
module ArticleTypes {
  import opened Wrappers

  datatype ArticleId = NumId(n: int) | StrId(s: string)

  /** JavaScript truthiness of an id: `0` and `''` are falsy. */
  predicate IdTruthy(id: ArticleId) {
    match id
    case NumId(n) => n != 0
    case StrId(s) => s != []
  }

  datatype Article = Article(
    id: ArticleId,
    title: string,
    description: string,
    content: string,
    categoryKey: string,
    tag: string,
    badge: Option<string>,
    date: string,
    platform: string,
    cover: string)

  /** An article being edited (`Partial<Article>` as the editor holds it): every field but the
      id is present; `id` is `None` until an article is loaded into the form. */
  datatype Form = Form(
    id: Option<int>,
    title: string,
    description: string,
    content: string,
    categoryKey: string,
    tag: string,
    badge: Option<string>,
    date: string,
    platform: string,
    cover: string)

  /** `a || b` on strings: the first unless it is empty. */
  function Or(a: string, b: string): (r: string)
    ensures r == a || r == b
    ensures r != [] <==> a != [] || b != []
  {
    if a != [] then a else b
  }
}
