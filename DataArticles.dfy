/**
 * `src/data/articles.ts`: the article records kept in the browser, held in the module array
 * `articles` and saved whole to the storage key `blog-articles` after every change.  Storage
 * is one abstract value: what `localStorage.getItem` and `JSON.parse` make of the key.
 */
module DataArticles {
  import opened Wrappers
  import opened ArticleTypes

  /** The records of this store carry numeric ids (`id: number`). */
  type DataArticle = a: Article | a.id.NumId? witness Article(NumId(1), [], [], [], [], [], None, [], [], [])

  /** What reading the key `blog-articles` gives: nothing (or `''`), text `JSON.parse` rejects,
      JSON that is not an array, or a list of records. */
  datatype Stored = Absent | Unparsable | NotAList | ArticleList(items: seq<DataArticle>)

  const StorageKey: string := "blog-articles"

  /** The three articles the store starts with when nothing usable is stored. */
  const Defaults: seq<DataArticle> := [Default1, Default2, Default3]

  /** Default article 1. */
  const Default1: Article := Article(NumId(1), Title1, Description1, Content1, "dit", "DiT", Some("Beta"), "2025-12-12", "Wechat", Cover1)
  const Title1: string := "Md2Design：更简单、更美观的图文卡片生成器"
  const Description1: string := "轻量卡片设计工具，简化信息展示流程，适合日常分享与快速传递。"
  const Content1: string :=
    "# 背景\n从 Markdown 到视觉卡片的一键转换，主打「无需设计基础」。\n\n## 功能亮点\n- 多模板与主题色，一键成图\n- 自动排版与网格，适合社媒/总结/海报\n- 导出高清图，支持多尺寸\n\n## Roadmap\n- 自定义模板与品牌色\n- AI 文案润色 / 翻译\n- 一键发布到社交平台"
  const Cover1: string := "linear-gradient(135deg, #0a0f26 0%, #0c1a4d 35%, #032c5f 65%, #0c1a4d 100%)"

  /** Default article 2. */
  const Default2: Article := Article(NumId(2), Title2, Description2, Content2, "dit", "DiT", Some("1.0"), "2025-12-11", "Wechat", Cover2)
  const Title2: string := "个人网站已上线：感谢Gemini3，这是第一版个人网站"
  const Description2: string := "第一版上线，用以记录思考与灵感，后续将持续完善功能与体验。"
  const Content2: string :=
    "# 上线笔记\n第一版聚焦信息架构与阅读体验：导航、文章列表与深浅色。\n\n## 当前能力\n- 文章列表与详情\n- 多语言切换\n- 深浅色切换\n\n## 下一步\n- 作品集模块\n- 评论与订阅\n- 开发日志与设计迭代记录"
  const Cover2: string := "linear-gradient(135deg, #0d121f 0%, #132642 50%, #243c5a 100%)"

  /** Default article 3. */
  const Default3: Article := Article(NumId(3), Title3, Description3, Content3, "note", "杂记", None, "2025-11-28", "Wechat", Cover3)
  const Title3: string := "暗叽be叽：杂记与灵感收集"
  const Description3: string := "关于创作与生活的片段记录，聚合了近期的灵感、思考与待办。"
  const Content3: string :=
    "# 写在前面\n这是一份松散的创作备忘录，记录碎片化灵感与旅行思考。\n\n## 最近在写\n- 灵感收集：零散想法与素材\n- 旅行路书：路线、拍照点与踩坑\n- 创意试验：想尝试的小项目\n\n## 计划\n- 按主题拆分系列\n- 增加配图与地图\n- 更细的标签方便检索"
  const Cover3: string := "linear-gradient(135deg, #101820 0%, #1f1f2f 50%, #2c2c3b 100%)"

  /** `loadArticlesFromStorage()` falls back to the `defaultArticles` array: nothing usable is
      stored. */
  predicate UsesDefaults(stored: Stored) {
    !(stored.ArticleList? && stored.items != [])
  }

  /** What `loadArticlesFromStorage()` returns while the array `defaultArticles` holds
      `defaults`. */
  function LoadedFrom(stored: Stored, defaults: seq<DataArticle>): seq<DataArticle> {
    if UsesDefaults(stored) then defaults else stored.items
  }

  /** `loadArticlesFromStorage()` at the module's start, while `defaultArticles` still holds
      the three defaults: a stored non-empty list, otherwise the defaults. */
  function LoadedArticles(stored: Stored): (r: seq<DataArticle>)
    ensures r != []
    ensures stored.ArticleList? && stored.items != [] ==> r == stored.items
    ensures !(stored.ArticleList? && stored.items != []) ==> r == Defaults
  {
    LoadedFrom(stored, Defaults)
  }

  /** The numeric value of a record's id. */
  function IdOf(a: DataArticle): int {
    a.id.n
  }

  /** No two records share an id. */
  predicate UniqueIds(s: seq<DataArticle>) {
    forall i, j :: 0 <= i < j < |s| ==> IdOf(s[i]) != IdOf(s[j])
  }

  lemma DefaultsAreUnique()
    ensures UniqueIds(Defaults) && |Defaults| == 3
    ensures forall i :: 0 <= i < |Defaults| ==> IdOf(Defaults[i]) == i + 1
  {
  }

  /** `Math.max(...articles.map((a) => a.id))` */
  function MaxId(s: seq<DataArticle>): (r: int)
    requires s != []
    ensures forall i :: 0 <= i < |s| ==> IdOf(s[i]) <= r
    ensures exists i :: 0 <= i < |s| && IdOf(s[i]) == r
  {
    if |s| == 1 then IdOf(s[0])
    else
      var m := MaxId(s[1..]);
      assert forall i :: 1 <= i < |s| ==> s[i] == s[1..][i - 1];
      if IdOf(s[0]) >= m then IdOf(s[0]) else m
  }

  /** The id `createArticle` gives: one more than the largest, or 1 in an empty store. */
  function NextId(s: seq<DataArticle>): (r: int)
    ensures forall i :: 0 <= i < |s| ==> IdOf(s[i]) < r
    ensures s == [] ==> r == 1
  {
    if |s| > 0 then MaxId(s) + 1 else 1
  }

  lemma DefaultsNextId()
    ensures NextId(Defaults) == 4
  {
    DefaultsAreUnique();
    assert IdOf(Defaults[2]) == 3;
  }

  /** The record `createArticle` builds: the new id, then the fields of the data spread over
      it, so an `id` the data carries wins. */
  function NewArticle(s: seq<DataArticle>, data: Form): (r: DataArticle)
    ensures data.id.None? ==> IdOf(r) == NextId(s)
    ensures data.id.Some? ==> IdOf(r) == data.id.value
  {
    Article(NumId(if data.id.Some? then data.id.value else NextId(s)), data.title, data.description,
            data.content, data.categoryKey, data.tag, data.badge, data.date, data.platform, data.cover)
  }

  /** A record created from data without an `id` key keeps the ids unique. */
  lemma CreateKeepsIdsUnique(s: seq<DataArticle>, data: Form)
    requires UniqueIds(s) && data.id.None?
    ensures UniqueIds(s + [NewArticle(s, data)])
  {
  }

  /** The position of the first record with the id, or -1 (`findIndex`). */
  function FindIndex(s: seq<DataArticle>, id: int): (r: int)
    ensures -1 <= r < |s|
    ensures r >= 0 ==> IdOf(s[r]) == id && forall j :: 0 <= j < r ==> IdOf(s[j]) != id
    ensures r == -1 <==> forall j :: 0 <= j < |s| ==> IdOf(s[j]) != id
    decreases |s|
  {
    if s == [] then -1
    else if IdOf(s[0]) == id then 0
    else
      var k := FindIndex(s[1..], id);
      assert forall j :: 1 <= j < |s| ==> s[j] == s[1..][j - 1];
      if k < 0 then -1 else k + 1
  }

  /** The first record with the id, if any (`find`). */
  function FindById(s: seq<DataArticle>, id: int): (r: Option<DataArticle>)
    ensures r.Some? <==> exists j :: 0 <= j < |s| && IdOf(s[j]) == id
    ensures r.Some? ==> r.value == s[FindIndex(s, id)]
  {
    var k := FindIndex(s, id);
    if k < 0 then None else Some(s[k])
  }

  /** `Partial<Article>` given to `updateArticle`: `Some` for each key present. */
  datatype Patch = Patch(
    title: Option<string>,
    description: Option<string>,
    content: Option<string>,
    categoryKey: Option<string>,
    tag: Option<string>,
    badge: Option<Option<string>>,
    date: Option<string>,
    platform: Option<string>,
    cover: Option<string>)

  const NoChange: Patch := Patch(None, None, None, None, None, None, None, None, None)

  /** `{ ...old, ...patch, id }`: each field the patch carries, the old value otherwise, and
      the same id. */
  function ApplyPatch(a: DataArticle, p: Patch): (r: DataArticle)
    ensures r.id == a.id
  {
    Article(a.id, p.title.GetOr(a.title), p.description.GetOr(a.description), p.content.GetOr(a.content),
            p.categoryKey.GetOr(a.categoryKey), p.tag.GetOr(a.tag), p.badge.GetOr(a.badge),
            p.date.GetOr(a.date), p.platform.GetOr(a.platform), p.cover.GetOr(a.cover))
  }

  /** An empty patch changes nothing, and applying a patch twice is applying it once. */
  lemma PatchLaws(a: DataArticle, p: Patch)
    ensures ApplyPatch(a, NoChange) == a
    ensures ApplyPatch(ApplyPatch(a, p), p) == ApplyPatch(a, p)
  {
  }

  /** A patch carrying every field replaces all but the id. */
  lemma FullPatch(a: DataArticle, b: DataArticle)
    ensures ApplyPatch(a, Patch(Some(b.title), Some(b.description), Some(b.content), Some(b.categoryKey),
                                Some(b.tag), Some(b.badge), Some(b.date), Some(b.platform), Some(b.cover)))
            == b.(id := a.id)
  {
  }

  /** The list with the record at `k` removed (`splice(k, 1)`). */
  function RemoveAt(s: seq<DataArticle>, k: nat): (r: seq<DataArticle>)
    requires k < |s|
    ensures |r| == |s| - 1
    ensures forall j :: 0 <= j < k ==> r[j] == s[j]
    ensures forall j :: k <= j < |r| ==> r[j] == s[j + 1]
  {
    s[..k] + s[k + 1..]
  }

  /** With unique ids, deleting a record leaves no record with its id, and the ids stay
      unique. */
  lemma DeleteRemovesId(s: seq<DataArticle>, id: int)
    requires UniqueIds(s) && FindIndex(s, id) >= 0
    ensures FindById(RemoveAt(s, FindIndex(s, id)), id) == None
    ensures UniqueIds(RemoveAt(s, FindIndex(s, id)))
  {
    var k := FindIndex(s, id);
    var r := RemoveAt(s, k);
    forall j | 0 <= j < |r| ensures IdOf(r[j]) != id {
      if j >= k {
        assert r[j] == s[j + 1];
      }
    }
    forall i, j | 0 <= i < j < |r| ensures IdOf(r[i]) != IdOf(r[j]) {
      var i' := if i < k then i else i + 1;
      var j' := if j < k then j else j + 1;
      assert r[i] == s[i'] && r[j] == s[j'];
    }
  }

  /** `updateArticle` with an id no record has. */
  datatype UpdateError = NotFound(id: int)

  /** What the array `defaultArticles` holds: when the module array is that very array, its
      contents; otherwise the three defaults, which nothing else changes. */
  function DefaultArrayOf(aliased: bool, articles: seq<DataArticle>): seq<DataArticle> {
    if aliased then articles else Defaults
  }

  /** What `reloadArticles()` leaves in the module array, as written: `articles.length = 0`
      also empties the loaded list when that list is the module array itself. */
  function ReloadedAsWritten(current: Stored, aliased: bool, articles: seq<DataArticle>): seq<DataArticle> {
    if aliased && UsesDefaults(current) then [] else LoadedFrom(current, DefaultArrayOf(aliased, articles))
  }

  /** What `reloadArticles()` evidently means to leave: the loaded list, copied before the
      array is cleared. */
  function ReloadedIntended(current: Stored, aliased: bool, articles: seq<DataArticle>): seq<DataArticle> {
    LoadedFrom(current, DefaultArrayOf(aliased, articles))
  }

  /** What the storage key holds once `reloadArticles()` has loaded `current`: the fallback
      saves the `defaultArticles` array before the module array is cleared. */
  function StoredAfterReload(current: Stored, aliased: bool, articles: seq<DataArticle>): Stored {
    if UsesDefaults(current) then ArticleList(DefaultArrayOf(aliased, articles)) else current
  }

  /** As written, a reload that falls back to the defaults on a store that started from them
      empties the module array, while the storage key keeps the articles it held. */
  lemma FallbackReloadEmptiesAsWritten(current: Stored, articles: seq<DataArticle>)
    requires UsesDefaults(current) && articles != []
    ensures ReloadedAsWritten(current, true, articles) == []
    ensures StoredAfterReload(current, true, articles) == ArticleList(articles)
    ensures ArticleList(ReloadedAsWritten(current, true, articles)) != StoredAfterReload(current, true, articles)
  {
  }

  /** The first visit, then a reload with the key still unusable: the three defaults stay
      stored, and the module array is left empty. */
  lemma FirstVisitReloadEmpties(current: Stored)
    requires UsesDefaults(current)
    ensures var start := LoadedArticles(Absent);
            ReloadedAsWritten(current, UsesDefaults(Absent), start) == []
            && StoredAfterReload(current, UsesDefaults(Absent), start) == ArticleList(Defaults)
  {
    FallbackReloadEmptiesAsWritten(current, LoadedArticles(Absent));
  }

  /** The intended reload leaves the array equal to what the storage key holds, and agrees
      with the code as written except when the loaded list is the module array itself. */
  lemma IntendedReloadPersists(current: Stored, aliased: bool, articles: seq<DataArticle>)
    ensures ArticleList(ReloadedIntended(current, aliased, articles)) == StoredAfterReload(current, aliased, articles)
    ensures !(aliased && UsesDefaults(current)) ==>
              ReloadedAsWritten(current, aliased, articles) == ReloadedIntended(current, aliased, articles)
  {
  }

  /** The module array and what is stored under `blog-articles`. */
  class Store {
    var articles: seq<DataArticle>
    var storage: Stored
    /** `articles` is the `defaultArticles` array itself: the module started from the
        fallback of `loadArticlesFromStorage()`. */
    const aliased: bool

    /** The stored snapshot is the array. */
    predicate Persisted()
      reads this
    {
      storage == ArticleList(articles)
    }

    /** What the array `defaultArticles` holds now. */
    function DefaultArray(): seq<DataArticle>
      reads this
    {
      DefaultArrayOf(aliased, articles)
    }

    /** `saveArticlesToStorage(articles)` */
    method Save()
      modifies this
      ensures articles == old(articles) && Persisted()
    {
      storage := ArticleList(articles);
    }

    /** `loadArticlesFromStorage()`: the stored list, or else the `defaultArticles` array, which
        is saved; `shared` says that the array returned is `defaultArticles` itself. */
    method LoadFromStorage() returns (loaded: seq<DataArticle>, shared: bool)
      modifies this
      ensures shared == UsesDefaults(old(storage))
      ensures loaded == LoadedFrom(old(storage), DefaultArray())
      ensures articles == old(articles) && storage == ArticleList(loaded)
    {
      if storage.ArticleList? && storage.items != [] {
        return storage.items, false;
      }
      loaded := if aliased then articles else Defaults;
      storage := ArticleList(loaded);
      shared := true;
    }

    /** The module's start: `articles = loadArticlesFromStorage()`; on the fallback the module
        array is the `defaultArticles` array. */
    constructor(stored: Stored)
      ensures aliased == UsesDefaults(stored)
      ensures articles == LoadedArticles(stored) && Persisted()
    {
      aliased := UsesDefaults(stored);
      articles := LoadedArticles(stored);
      storage := ArticleList(LoadedArticles(stored));
    }

    /** `getArticleById(id)` */
    function GetArticleById(id: int): Option<DataArticle>
      reads this
    {
      FindById(articles, id)
    }

    /** `createArticle(data)`: append the new record and save. */
    method CreateArticle(data: Form) returns (r: DataArticle)
      modifies this
      ensures r == NewArticle(old(articles), data)
      ensures articles == old(articles) + [r] && Persisted()
    {
      r := NewArticle(articles, data);
      articles := articles + [r];
      Save();
    }

    /** `updateArticle(id, patch)`: throws for an unknown id; otherwise patches the first
        record with the id in place and saves. */
    method UpdateArticle(id: int, patch: Patch) returns (r: Result<DataArticle, UpdateError>)
      modifies this
      ensures FindIndex(old(articles), id) < 0 ==> r == Err(NotFound(id)) && unchanged(this)
      ensures FindIndex(old(articles), id) >= 0 ==>
                var k := FindIndex(old(articles), id);
                && r == Ok(ApplyPatch(old(articles)[k], patch))
                && articles == old(articles)[k := r.value] && Persisted()
    {
      var index := FindIndex(articles, id);
      if index == -1 {
        return Err(NotFound(id));
      }
      var updated := ApplyPatch(articles[index], patch);
      articles := articles[index := updated];
      Save();
      r := Ok(updated);
    }

    /** `deleteArticle(id)`: `false` and nothing changed for an unknown id; otherwise the first
        record with the id is removed and the array saved. */
    method DeleteArticle(id: int) returns (deleted: bool)
      modifies this
      ensures deleted <==> FindIndex(old(articles), id) >= 0
      ensures !deleted ==> unchanged(this)
      ensures deleted ==> articles == RemoveAt(old(articles), FindIndex(old(articles), id)) && Persisted()
    {
      var index := FindIndex(articles, id);
      if index == -1 {
        return false;
      }
      articles := articles[..index] + articles[index + 1..];
      Save();
      deleted := true;
    }

    /** `reloadArticles()` after `current` was written to the storage key elsewhere: the array
        is emptied in place, then filled with what loads.  When the load falls back to
        `defaultArticles` and that is the module array, the clearing empties the loaded list
        too (`FallbackReloadEmptiesAsWritten`); otherwise the array ends equal to the
        snapshot. */
    method ReloadArticles(current: Stored)
      modifies this
      ensures articles == ReloadedAsWritten(current, aliased, old(articles))
      ensures storage == StoredAfterReload(current, aliased, old(articles))
      ensures !(aliased && UsesDefaults(current)) ==> Persisted()
    {
      storage := current;
      var loaded, shared := LoadFromStorage();
      articles := [];
      if aliased && shared {
        // `loaded` is the module array itself, which the line above emptied
        loaded := [];
      }
      articles := articles + loaded;
    }
  }

  /** Every operation of the store, except the fallback reload that empties the module array,
      keeps the snapshot equal to the array; a reload of the snapshot gives the array back
      when it is not empty.  This holds by the choice of
      representation: the snapshot is the list itself rather than its JSON text, and the JSON
      round trip is not part of this model. */
  lemma ReloadOwnSnapshot(s: seq<DataArticle>)
    requires s != []
    ensures LoadedArticles(ArticleList(s)) == s
  {
  }
}
