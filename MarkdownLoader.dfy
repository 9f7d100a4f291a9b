/**
 * `src/utils/markdownLoader.ts`: a markdown file becomes an article (frontmatter fields first,
 * then what the file name tells, then defaults), and the loader turns every file of
 * the `content` directory into an article, drops the files that failed to load and sorts the rest
 * newest first.  The random id `nanoid()`, today's date and the date parser
 * `new Date(date).getTime()` are inputs.
 */
module MarkdownLoader {
  import opened Wrappers
  import opened Text
  import opened ArticleTypes
  import opened Frontmatter
  import opened MarkdownExporter
  import DateSort

  /** The defaults of a field the frontmatter leaves out. */
  const DefaultCategory: string := "dit"
  const DefaultPlatform: string := "Wechat"
  const DefaultCover: string := "linear-gradient(135deg, #667eea 0%, #764ba2 100%)"

  /** `frontmatter.<key>` in an `||` chain: an absent key reads as a falsy `undefined`, which
      behaves as `''`. */
  function Field(fm: map<string, string>, key: string): (r: string)
    ensures r != [] <==> key in fm && fm[key] != []
    ensures r != [] ==> r == fm[key]
  {
    if key in fm then fm[key] else []
  }

  /** `getDate()`: a non-empty frontmatter date, else the date of the file name, else today. */
  function DateOf(fm: map<string, string>, info: FileInfo, today: string): (r: string)
  {
    if Field(fm, "date") != [] then fm["date"]
    else if info.date.Some? && info.date.value != [] then info.date.value
    else today
  }

  /** `markdownToArticle(filename, content)`, with the id `nanoid()` gives and today's date. */
  function MarkdownToArticle(filename: string, content: string, id: string, today: string): (r: Article)
    ensures r.id == StrId(id)
    ensures r.content == Trim(FrontmatterOf(content).body)
    ensures r.categoryKey != [] && r.platform != [] && r.cover != []
    ensures WithoutMd(filename) != [] ==> r.title != []
    ensures r.badge.Some? <==> "badge" in FrontmatterOf(content).frontmatter
  {
    var parsed := FrontmatterOf(content);
    var fm := parsed.frontmatter;
    var info := ExtractInfoFromFilename(filename);
    Article(
      id := StrId(id),
      title := Or(Or(Field(fm, "title"), info.title), WithoutMd(filename)),
      description := Or(Field(fm, "description"), ExtractDescription(content)),
      content := Trim(parsed.body),
      categoryKey := Or(Field(fm, "categoryKey"), DefaultCategory),
      tag := Field(fm, "tag"),
      badge := if "badge" in fm then Some(fm["badge"]) else None,
      date := DateOf(fm, info, today),
      platform := Or(Field(fm, "platform"), DefaultPlatform),
      cover := Or(Field(fm, "cover"), DefaultCover))
  }

  /** A file without frontmatter takes every field from its name, its first paragraph and the
      defaults, and its whole trimmed text is the content. */
  lemma PlainFileDefaults(filename: string, content: string, id: string, today: string)
    requires !StartsWith(content, "---")
    ensures var r := MarkdownToArticle(filename, content, id, today);
            var info := ExtractInfoFromFilename(filename);
            && r.title == Or(info.title, WithoutMd(filename))
            && r.description == ExtractDescription(content)
            && r.content == Trim(content)
            && r.categoryKey == DefaultCategory && r.tag == [] && r.badge == None
            && r.platform == DefaultPlatform && r.cover == DefaultCover
            && r.date == (if info.date.Some? then info.date.value else today)
  {
    NoFenceNoFrontmatter(content);
  }

  /** The frontmatter fields a loaded article takes as they stand. */
  lemma FieldsTaken(filename: string, content: string, id: string, today: string, a: Article, fm: map<string, string>, body: string)
    requires FrontmatterOf(content) == Parsed(fm, body)
    requires && Field(fm, "title") == a.title && Field(fm, "description") == a.description
             && Field(fm, "categoryKey") == a.categoryKey && Field(fm, "tag") == a.tag
             && Field(fm, "date") == a.date && Field(fm, "platform") == a.platform
             && Field(fm, "cover") == a.cover
             && ("badge" in fm <==> a.badge.Some?) && (a.badge.Some? ==> fm["badge"] == a.badge.value)
    requires a.title != [] && a.description != [] && a.categoryKey != [] && a.date != []
    requires a.platform != [] && a.cover != []
    ensures MarkdownToArticle(filename, content, id, today) == a.(id := StrId(id), content := Trim(body))
  {
  }

  /** The fields `articleToMarkdown` writes, read from the map they parse into. */
  lemma ExportedFieldValues(a: Article)
    requires a.badge.Some? ==> a.badge.value != []
    ensures var fm := MapOf(Emitted(a));
            && Field(fm, "title") == a.title && Field(fm, "description") == a.description
            && Field(fm, "categoryKey") == a.categoryKey && Field(fm, "tag") == a.tag
            && Field(fm, "date") == a.date && Field(fm, "platform") == a.platform
            && Field(fm, "cover") == a.cover
            && ("badge" in fm <==> a.badge.Some?) && (a.badge.Some? ==> fm["badge"] == a.badge.value)
  {
    ExportedFieldsReadBack(a);
    assert Keys[0] == "title" && Keys[1] == "description" && Keys[2] == "categoryKey";
    assert Keys[3] == "tag" && Keys[4] == "badge" && Keys[5] == "date";
    assert Keys[6] == "platform" && Keys[7] == "cover";
  }

  lemma TitledEmits(a: Article)
    requires a.title != []
    ensures Emitted(a) != []
  {
    assert Emitted(a)[0] == ("title", a.title);
  }

  /** An article written by `articleToMarkdown` and loaded back is the same article, with the
      fresh id and its content trimmed: when every field the loader would otherwise fill in
      is present and every written value is safe. */
  lemma LoadExported(a: Article, filename: string, id: string, today: string)
    requires !IdThrows(a) && ArticleExportSafe(a) && !IsBlank(a.content)
    requires a.title != [] && a.description != [] && a.categoryKey != [] && a.date != []
    requires a.platform != [] && a.cover != [] && (a.badge.Some? ==> a.badge.value != [])
    ensures MarkdownToArticle(filename, Document(Lines(Emitted(a)), a.content), id, today)
            == a.(id := StrId(id), content := Trim(a.content))
  {
    var doc := Document(Lines(Emitted(a)), a.content);
    TitledEmits(a);
    ExportRoundTrip(a);
    LoadParsedExport(a, filename, id, today, doc);
  }

  /** A text that parses into the exported fields and content loads as the article. */
  lemma LoadParsedExport(a: Article, filename: string, id: string, today: string, doc: string)
    requires FrontmatterOf(doc) == Parsed(MapOf(Emitted(a)), Trim(a.content))
    requires a.title != [] && a.description != [] && a.categoryKey != [] && a.date != []
    requires a.platform != [] && a.cover != [] && (a.badge.Some? ==> a.badge.value != [])
    ensures MarkdownToArticle(filename, doc, id, today) == a.(id := StrId(id), content := Trim(a.content))
  {
    ExportedFieldValues(a);
    TrimOfTrimmed(Trim(a.content));
    FieldsTaken(filename, doc, id, today, a, MapOf(Emitted(a)), Trim(a.content));
  }

  // ---------------------------------------------------------------------------------------
  // loadMarkdownArticles

  /** `path.split('/').pop()`: what follows the last `/`. */
  function LastSegment(path: string): (r: string)
    ensures Free(r, '/') && EndsWith(path, r)
    ensures |r| < |path| ==> path[|path| - |r| - 1] == '/'
    decreases |path|
  {
    if path == [] || path[|path| - 1] == '/' then []
    else
      var init, last := path[..|path| - 1], path[|path| - 1];
      var r := LastSegment(init);
      var res := r + [last];
      assert path == init + [last];
      assert EndsWith(path, res) by {
        assert path[|path| - |res|..] == init[|init| - |r|..] + [last];
      }
      assert Free(res, '/') by {
        forall i | 0 <= i < |res| ensures res[i] != '/' {
          if i < |r| {
            assert res[i] == r[i];
          }
        }
      }
      assert |res| < |path| ==> path[|path| - |res| - 1] == init[|init| - |r| - 1];
      res
  }

  /** The file name of a module path, `unknown.md` when the path ends in `/`. */
  function FileName(path: string): (r: string)
    ensures r != []
    ensures LastSegment(path) != [] ==> r == LastSegment(path)
  {
    Or(LastSegment(path), "unknown.md")
  }

  /** The name of a file under a directory is what follows the directory's `/`. */
  lemma {:induction false} SegmentAfterSlash(dir: string, name: string)
    requires Free(name, '/')
    ensures LastSegment(dir + "/" + name) == name
    decreases |name|
  {
    var p := dir + "/" + name;
    if name == [] {
      assert p[|p| - 1] == '/';
    } else {
      var init := name[..|name| - 1];
      assert p[..|p| - 1] == dir + "/" + init;
      SegmentAfterSlash(dir, init);
      assert name == init + [name[|name| - 1]];
    }
  }

  lemma FileNameOfPath(dir: string, name: string)
    requires name != [] && Free(name, '/')
    ensures FileName(dir + "/" + name) == name
  {
    SegmentAfterSlash(dir, name);
  }

  /** A file the glob found: its path, and its text or `None` when loading it threw. */
  datatype SourceFile = SourceFile(path: string, text: Option<string>)

  /** The articles of the files that loaded, in glob order; the `k`-th file gets `ids[k]`. */
  function Loaded(files: seq<SourceFile>, ids: seq<string>, today: string): (r: seq<Article>)
    requires |ids| == |files|
    ensures |r| <= |files|
    decreases |files|
  {
    if files == [] then []
    else
      var rest := Loaded(files[1..], ids[1..], today);
      match files[0].text
      case None => rest
      case Some(t) => [MarkdownToArticle(FileName(files[0].path), t, ids[0], today)] + rest
  }

  /** Each file that loaded gives exactly one article, and the failed ones give none. */
  lemma {:induction false} LoadedCount(files: seq<SourceFile>, ids: seq<string>, today: string)
    requires |ids| == |files|
    ensures |Loaded(files, ids, today)| == |Okay(files)|
    decreases |files|
  {
    if files != [] {
      LoadedCount(files[1..], ids[1..], today);
      assert files == [files[0]] + files[1..];
    }
  }

  /** The files that loaded. */
  function Okay(files: seq<SourceFile>): (r: seq<SourceFile>)
    ensures forall f :: f in r <==> f in files && f.text.Some?
  {
    if files == [] then []
    else
      assert forall f :: f in files <==> f == files[0] || f in files[1..];
      (if files[0].text.Some? then [files[0]] else []) + Okay(files[1..])
  }

  /** `loadMarkdownArticles()`: the articles of the files that loaded, sorted newest first by
      the stable `Array.prototype.sort`. */
  method LoadMarkdownArticles(files: seq<SourceFile>, ids: seq<string>, today: string, time: string -> int)
    returns (articles: seq<Article>)
    requires |ids| == |files|
    ensures articles == DateSort.SortByKey(Loaded(files, ids, today), (a: Article) => time(a.date))
  {
    articles := [];
    var i := |files|;
    while i > 0
      invariant 0 <= i <= |files|
      invariant articles == Loaded(files[i..], ids[i..], today)
    {
      i := i - 1;
      assert files[i..][1..] == files[i + 1..] && ids[i..][1..] == ids[i + 1..];
      match files[i].text {
        case Some(t) =>
          var article := MarkdownToArticle(FileName(files[i].path), t, ids[i], today);
          articles := [article] + articles;
        case None =>
      }
    }
    articles := DateSort.SortByKey(articles, (a: Article) => time(a.date));
  }

  /** The loaded list is newest first, holds each loaded article as often as it was loaded,
      and keeps files of the same date in glob order. */
  lemma LoadedSorted(files: seq<SourceFile>, ids: seq<string>, today: string, time: string -> int, k: int)
    requires |ids| == |files|
    ensures var key := (a: Article) => time(a.date);
            var r := DateSort.SortByKey(Loaded(files, ids, today), key);
            && DateSort.SortedDesc(r, key)
            && multiset(r) == multiset(Loaded(files, ids, today))
            && DateSort.WithKey(r, key, k) == DateSort.WithKey(Loaded(files, ids, today), key, k)
  {
    var key := (a: Article) => time(a.date);
    DateSort.SortIsSorted(Loaded(files, ids, today), key);
    DateSort.SortIsStable(Loaded(files, ids, today), key, k);
  }
}
