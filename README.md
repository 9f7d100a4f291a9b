# steve-blog core, modelled in Dafny

The blog is a Vue single-page application. Its core turns articles into pages. Articles come from two places:

- Markdown files with a YAML-like header ("frontmatter"), loaded when the page loads;
- records kept in the browser's `localStorage`.

This project models that core and proves properties of the model:

- **Text utilities.**
  - HTML escaping (`escapeHtml`).
  - Frontmatter parsing, the dated file-name convention and description extraction (`frontmatter.ts`).
  - The Markdown exporter and its file names (`markdownExporter.ts`).
  - The Markdown loader (`markdownLoader.ts`).
- **Article stores.**
  - The browser store of editable articles, with create, update, delete and reload (`data/articles.ts`). A reload after a first visit can empty the article array, because the array is the defaults array itself.
  - The content articles loaded from the files (`data/contentArticles.ts`).
  - The merged, newest-first list the pages show (`data/index.ts`).
- **Composables.**
  - Markdown rendering, with heading ids, the table of contents and fenced diagrams (`useArticleMarkdown`).
  - The flowchart and mermaid reconcilers that turn diagram placeholders into drawings (`useFlowchartRenderer`, `useMermaidRenderer`).
  - The copy buttons on code blocks (`useCodeCopy`).
  - The article editor form (`useArticleEditor`).
  - Search (`useArticleSearch`).
  - Comments (`useArticleComments`).
- **Application store.** Theme, view mode, layout and reading mode (`store/modules/app.ts`).

Pure helpers are Dafny functions with lemmas. Code that works by updating state keeps that form:

- **Classes.** Each store and composable with mutable state is a class whose fields are its state: `Store`, `ContentStore`, `Catalog`, `Editor`, `CommentBoard`, `Search`, `App`, `CopyButton`, `FlowchartRenderer`, `MermaidRenderer`. The browser storage and the element class lists are fields too.
- **Loops.** The render loops over the page's diagram containers and code blocks run over arrays. The loops of the source are methods with invariants.
- **Specification.** Each method is proved against a function that states what it computes. The properties are proved about those functions.

Inputs the model does not compute are passed in:

- outcomes and values:
  - what the clock and `nanoid()` give;
  - what a parse, a draw or a clipboard write returns;
  - what `localStorage` holds;
- library behaviour:
  - what the markdown-it tokeniser produces;
  - what highlight.js returns;
  - how the browser decodes markup into text.

Modules:

| module | models |
|---|---|
| `Wrappers`, `Text`, `ArticleTypes`, `DateSort` | shared pieces: `Option`/`Result`; ECMAScript white space, trimming, lower-casing, splitting and joining; the article record; the stable newest-first sort that `Array.prototype.sort` with `dateB - dateA` performs |
| `Html` | `src/utils/html.ts` |
| `Frontmatter`, `MarkdownExporter`, `MarkdownLoader` | `src/utils/frontmatter.ts`, `markdownExporter.ts`, `markdownLoader.ts` |
| `DataArticles`, `ContentArticles`, `ArticleIndex` | `src/data/articles.ts`, `contentArticles.ts`, `index.ts` |
| `ArticleMarkdown`, `FlowchartRenderer`, `MermaidRenderer`, `CodeCopy` | the rendering composables |
| `ArticleEditor`, `ArticleSearch`, `ArticleComments` | the editing, search and comment composables |
| `AppStore` | `src/store/modules/app.ts` |

Some behaviours of the code are proved as they are, not corrected:

- **Heading ids can collide.** The counter only separates headings that share a base slug. For headings `b`, `b` and `b-1`, the second and the third both get the id `b-1` (`IdsCanCollide`).
- **The heading counter is a plain object.** `headingCount` starts as `{}`, so it inherits the keys of `Object.prototype`. Every heading whose slug is `__proto__` gets the id `__proto__-[object Object]` (`ProtoTocIdsCollide`). A heading that slugs to `constructor` gets an id holding the printed function `Object`, which is no slug (`ConstructorTocId`).
- **Copying can report success without copying.** The fallback shows `已复制!` whenever `execCommand('copy')` does not throw, even when it returns `false` (`CopyButton.FallbackCopy`).
- **A bare `#` line swallows the next paragraph.** The description extractor's heading pattern runs over the blank line that follows (`BareHashTakesNextLine`).
- **Escaped quotes are not read back.** The exporter writes `"` inside quotes as `\"`, and the frontmatter parser never unescapes it (`QuoteNotUnescaped`).
- **Padded titles keep their dashes.** White space around a title becomes `-` before the final trim, so the file name keeps the dashes (`PaddedTitleKeepsDashes`).

## Model

| member | source | states |
|---|---|---|
| Html.EscapeChar | src/utils/html.ts:5-11 | each of `& < > " '` becomes its entity; every other character is kept as it is |
| Html.EntityStays | src/utils/html.ts:7-11 | an entity produced by the first replace passes the four later replaces unchanged |
| Html.EscapeOne | src/utils/html.ts:5-11 | because `&` is replaced first, one character escapes to exactly its own entity, with no double escaping |
| Html.EscapeIsCharwise | src/utils/html.ts:5-11 | the five chained replaces act character by character |
| Html.EscapeKeepsOrdinary | src/utils/html.ts:5-11 | an ordinary character is copied in place between the escapes of its surroundings |
| Html.EscapeIdentity | src/utils/html.ts:5-11 | text without the five special characters is its own escape |
| Html.EscapeNoMarkup | src/utils/html.ts:5-11 | the output holds no `<`, `>`, `"` or `'` |
| Html.EscapeAmpersandsStartEntities | src/utils/html.ts:5-11 | every `&` of the output begins one of the five entities |
| Html.UnescapeEscape | src/utils/html.ts:5-11 | decoding the entities gives back the input, so escaping loses nothing |
| Html.EscapeInjective | src/utils/html.ts:5-11 | different texts escape differently |
| Html.EscapeLength | src/utils/html.ts:5-11 | the output is never shorter, and it has the same length exactly when the input has no special character |
| Frontmatter.SpaceRunEnd | src/utils/frontmatter.ts:31 | the end of a white-space run: everything before it is space, the character at it is not |
| Frontmatter.LastNewline | src/utils/frontmatter.ts:31 | the last line feed in a range, or none |
| Frontmatter.FindClose | src/utils/frontmatter.ts:31 | the lazy header group ends at or after its start, at a `\n---` whose closing line feed comes after those four characters |
| Frontmatter.FindCloseFirst | src/utils/frontmatter.ts:31 | the lazy match takes the first `\n---` whose tail matches |
| Frontmatter.MatchFenced | src/utils/frontmatter.ts:31-36 | a header without a closing line, framed by `---` lines, matches with exactly that header and body |
| Frontmatter.StripOnePair | src/utils/frontmatter.ts:50-55 | exactly one outer pair of quotes is removed, and nothing inside is unescaped |
| Frontmatter.LaterKeyWins | src/utils/frontmatter.ts:27-58 | a `key: value` line sets that key and keeps every other key; a `__proto__` line, whose assignment the plain object's inherited setter ignores, sets nothing |
| Frontmatter.NoProtoField | src/utils/frontmatter.ts:27-58 | however many lines, the object never holds a `__proto__` field |
| Frontmatter.SkippedLine | src/utils/frontmatter.ts:41-45 | a blank line, a comment line, or a line whose colon is missing or first leaves the object unchanged |
| Frontmatter.NoKeyNoField | src/utils/frontmatter.ts:44-45 | a line without a colon, or whose colon comes first, sets nothing |
| Frontmatter.NoFenceNoFrontmatter | src/utils/frontmatter.ts:31-34 | content not starting with `---` gives no fields and the whole content as body |
| Frontmatter.EmptyBodyNotTaken | src/utils/frontmatter.ts:34 | a header with an empty body after it is not taken: no fields, and the body is the content |
| Frontmatter.ParseHeaderLines | src/utils/frontmatter.ts:27-59 | the loop over the header lines builds the object that `FieldsOf` specifies: later keys win, skipped lines and `__proto__` lines add nothing |
| Frontmatter.ParseHeaderLine | src/utils/frontmatter.ts:41-57 | one turn of that loop sets the parsed key unless it is `__proto__`, or skips the line |
| Frontmatter.SplitHeaderLine | src/utils/frontmatter.ts:41-55 | the trim, comment test, colon search and quote removal give the key and value `ParseLine` specifies, or none for a skipped line |
| Frontmatter.ParseFrontmatter | src/utils/frontmatter.ts:23-63 | `parseFrontmatter` gives the fields of the matched header and its body, or no fields and the content |
| Frontmatter.ParsedHasNoProtoField | src/utils/frontmatter.ts:23-63 | whatever the content, the returned object has no `__proto__` field |
| Frontmatter.DatedFilename | src/utils/frontmatter.ts:71-83 | `YYYY-MM-DD-rest.md` gives that date and `rest` with its dashes turned into spaces |
| Frontmatter.UndatedFilename | src/utils/frontmatter.ts:75-87 | any other name gives no date and a title with no dash left |
| Frontmatter.LineEnd | src/utils/frontmatter.ts:100 | the end of the current line: the first line terminator or the end of the text |
| Frontmatter.HeadingMatchAt | src/utils/frontmatter.ts:100 | a heading match ends after its start |
| Frontmatter.HeadingLineGoes | src/utils/frontmatter.ts:100 | a `# Title` line is removed, and its line feed stays |
| Frontmatter.BareHashTakesNextLine | src/utils/frontmatter.ts:100 | a lone `#` followed by a blank line removes the next paragraph's first line as well |
| Frontmatter.FirstCandidate | src/utils/frontmatter.ts:103-108 | the first paragraph that is neither blank nor a fence, trimmed; none exactly when there is no such paragraph |
| Frontmatter.Unwrap | src/utils/frontmatter.ts:112-114 | removing the bold, italic and code markers never lengthens the text |
| Frontmatter.UnwrapPlain | src/utils/frontmatter.ts:112-114 | text without the marker character is left unchanged |
| Frontmatter.UnwrapLinksPlain | src/utils/frontmatter.ts:111 | text without `[` is left unchanged |
| Frontmatter.Unmark | src/utils/frontmatter.ts:110-115 | removing the markers never lengthens the paragraph |
| Frontmatter.ExtractDescription | src/utils/frontmatter.ts:95-120 | the description is at most 150 characters |
| Frontmatter.NoParagraphNoDescription | src/utils/frontmatter.ts:108-119 | without a candidate paragraph the description is empty |
| Frontmatter.PlainParagraphIsDescription | src/utils/frontmatter.ts:95-116 | a first paragraph without markers and of at most 150 characters is the description as it stands |
| MarkdownExporter.HasSpecialIff | src/utils/markdownExporter.ts:69-81 | the chain of `includes` holds exactly when the value contains one of the special characters |
| MarkdownExporter.EscapeYamlShape | src/utils/markdownExporter.ts:67-88 | a value is written unchanged exactly when it needs no quotes; otherwise it is wrapped in `"` and every inner `"` is preceded by `\` |
| MarkdownExporter.QuoteNotUnescaped | src/utils/markdownExporter.ts:84-85 | a quoted value that holds `"` reads back differently, because the parser never undoes `\"` |
| MarkdownExporter.EmittedFields | src/utils/markdownExporter.ts:17-52 | the header lines are the truthy fields, each with its value, and no key appears twice |
| MarkdownExporter.PushField | src/utils/markdownExporter.ts:17-19 | one `if (field) push` adds a line exactly for a truthy value |
| MarkdownExporter.ArticleToMarkdown | src/utils/markdownExporter.ts:13-60 | a numeric id makes the export throw; otherwise the result is the header block of the truthy fields followed by the trimmed content |
| MarkdownExporter.LineParses | src/utils/markdownExporter.ts:18 | a written header line parses back to its key and value |
| MarkdownExporter.EscapedEnds | src/utils/markdownExporter.ts:67-88 | a safe value escapes to one line with no white space at its ends, and stripping the quotes gives it back |
| MarkdownExporter.FieldsOfLines | src/utils/markdownExporter.ts:55-57 | the written lines parse into the object of the pairs |
| MarkdownExporter.JoinHasNoClosingLine | src/utils/markdownExporter.ts:56 | the joined header lines contain no `\n---`, so the header cannot close early |
| MarkdownExporter.BlockRoundTrip | src/utils/markdownExporter.ts:55-59 | a block of safe lines, followed by a body starting with a non-space, reads back as those fields and that body |
| MarkdownExporter.ExportRoundTrip | src/utils/markdownExporter.ts:13-60 | parsing the exported file gives the written fields and the trimmed content |
| MarkdownExporter.ExportedFieldsReadBack | src/utils/markdownExporter.ts:17-52 | after the round trip a truthy field comes back with its value and a falsy one is absent |
| MarkdownExporter.CollapsedHasNoDoubleDash | src/utils/markdownExporter.ts:105 | after `-+` becomes `-`, no two dashes are adjacent |
| MarkdownExporter.CleanTitleShape | src/utils/markdownExporter.ts:101-106 | the cleaned title holds only lower-case ASCII letters, digits, `_` and `-`, with no `--` |
| MarkdownExporter.FilenameDate | src/utils/markdownExporter.ts:97-108 | the name starts with the article's date, or with today's date when the article has none |
| MarkdownExporter.UntitledFilename | src/utils/markdownExporter.ts:98-108 | without a title the name is the date followed by `-untitled` |
| MarkdownExporter.CleanWordIsFixed | src/utils/markdownExporter.ts:101-106 | a dash-free word of slug characters is its own cleaned title |
| MarkdownExporter.PaddedTitleKeepsDashes | src/utils/markdownExporter.ts:101-106 | white space around a title becomes dashes that the final trim does not remove |
| MarkdownLoader.Field | src/utils/markdownLoader.ts:28-48 | a missing or empty frontmatter key reads as falsy |
| MarkdownLoader.MarkdownToArticle | src/utils/markdownLoader.ts:20-62 | the article has the given id and the trimmed body, always has a category, platform and cover, has a title when the name does, and has a badge exactly when the header sets one |
| MarkdownLoader.PlainFileDefaults | src/utils/markdownLoader.ts:24-61 | a file without frontmatter takes every field from its name, its first paragraph and the defaults |
| MarkdownLoader.FieldsTaken | src/utils/markdownLoader.ts:28-61 | non-empty frontmatter fields are taken as they stand |
| MarkdownLoader.ExportedFieldValues | src/utils/markdownLoader.ts:28-48 | the fields the exporter writes read back field by field |
| MarkdownLoader.LoadExported | src/utils/markdownLoader.ts:20-62 | loading an exported article gives the article back, with a new id and trimmed content |
| MarkdownLoader.LoadParsedExport | src/utils/markdownLoader.ts:20-62 | any text that parses into the exported fields and content loads as the article |
| MarkdownLoader.LastSegment | src/utils/markdownLoader.ts:84 | what follows the last `/`: it holds no `/` and ends the path |
| MarkdownLoader.FileName | src/utils/markdownLoader.ts:84 | the last segment, or `unknown.md` when that segment is empty |
| MarkdownLoader.SegmentAfterSlash | src/utils/markdownLoader.ts:84 | the last segment of `dir/name` is `name` |
| MarkdownLoader.FileNameOfPath | src/utils/markdownLoader.ts:84 | the file name of `dir/name` is `name` |
| MarkdownLoader.Okay | src/utils/markdownLoader.ts:90-99 | the files kept are exactly those that loaded |
| MarkdownLoader.LoadedCount | src/utils/markdownLoader.ts:80-100 | each file that loaded gives exactly one article, and a file that failed gives none |
| MarkdownLoader.LoadMarkdownArticles | src/utils/markdownLoader.ts:68-114 | the articles of the loaded files, sorted newest first |
| MarkdownLoader.LoadedSorted | src/utils/markdownLoader.ts:97-108 | the list is newest first, is a permutation of the loaded articles, and keeps glob order among equal dates |
| DateSort.Insert | src/utils/markdownLoader.ts:104-108 | inserting adds exactly one element |
| DateSort.SortByKey | src/utils/markdownLoader.ts:104-108 | sorting is a permutation |
| DateSort.InsertSorted | src/utils/markdownLoader.ts:104-108 | inserting into a list keeps it newest first |
| DateSort.SortIsSorted | src/utils/markdownLoader.ts:104-108 | the comparator `dateB - dateA` gives a newest-first list |
| DateSort.WithKeyAppend | src/utils/markdownLoader.ts:104-108 | the elements of one date in a concatenation are those of each part, in order |
| DateSort.InsertStable | src/utils/markdownLoader.ts:104-108 | inserting keeps the order among elements of equal date |
| DateSort.SortIsStable | src/utils/markdownLoader.ts:104-108 | the sort is stable: elements of the same date keep their relative order |
| DataArticles.LoadedArticles | src/data/articles.ts:90-106 | a stored non-empty list is used as it is; anything else gives the defaults |
| DataArticles.DefaultsAreUnique | src/data/articles.ts:17-87 | the three defaults have the ids 1, 2 and 3 |
| DataArticles.MaxId | src/data/articles.ts:123 | the largest id, reached by some record |
| DataArticles.NextId | src/data/articles.ts:123 | the new id exceeds every id in the list, and is 1 for an empty list |
| DataArticles.DefaultsNextId | src/data/articles.ts:123 | the first record created over the defaults gets id 4 |
| DataArticles.NewArticle | src/data/articles.ts:122-127 | the record gets the next id, unless the data carries an `id`, which the spread lets win |
| DataArticles.CreateKeepsIdsUnique | src/data/articles.ts:122-131 | creating from data without an id keeps the ids unique |
| DataArticles.FindIndex | src/data/articles.ts:135-138 | the first position with the id, or -1 exactly when there is none |
| DataArticles.FindById | src/data/articles.ts:120 | the first record with the id, present exactly when one exists |
| DataArticles.ApplyPatch | src/data/articles.ts:139-143 | a patched record keeps its id |
| DataArticles.PatchLaws | src/data/articles.ts:139-143 | an empty patch changes nothing, and patching twice is patching once |
| DataArticles.FullPatch | src/data/articles.ts:139-143 | a patch carrying every field replaces everything but the id |
| DataArticles.RemoveAt | src/data/articles.ts:155 | `splice(k, 1)` removes position `k` and shifts the rest |
| DataArticles.DeleteRemovesId | src/data/articles.ts:150-159 | with unique ids, a deleted id is gone and the ids stay unique |
| DataArticles.Store.Save | src/data/articles.ts:109-115 | the stored snapshot becomes the array |
| DataArticles.Store.LoadFromStorage | src/data/articles.ts:90-106 | a stored non-empty list is returned; otherwise the `defaultArticles` array itself, which is the module array after a first visit, is saved and returned, and `shared` says so |
| DataArticles.Store.constructor | src/data/articles.ts:90-118 | the array starts as the loaded list, the snapshot equals it, and the array is `defaultArticles` itself exactly when the defaults were used |
| DataArticles.Store.CreateArticle | src/data/articles.ts:122-132 | appends the new record and saves |
| DataArticles.Store.UpdateArticle | src/data/articles.ts:134-148 | an unknown id is an error and changes nothing; otherwise the first matching record is patched in place and saved |
| DataArticles.Store.DeleteArticle | src/data/articles.ts:150-159 | `false` and no change for an unknown id; otherwise the first matching record is removed and the array saved |
| DataArticles.Store.ReloadArticles | src/data/articles.ts:90-166 | as written: the array is cleared and refilled with what loads, except that it ends empty when it is `defaultArticles` and the load falls back to it; the snapshot is saved before the clear; otherwise the array equals the snapshot |
| DataArticles.ReloadOwnSnapshot | src/data/articles.ts:109-118 | reloading a saved non-empty array gives it back |
| DataArticles.FallbackReloadEmptiesAsWritten | src/data/articles.ts:104-166 | when the array is `defaultArticles` and the reload falls back, the array ends empty while storage keeps the articles it held, so the two differ |
| DataArticles.FirstVisitReloadEmpties | src/data/articles.ts:90-166 | after a first visit with nothing stored, a reload that still finds nothing empties the array, while storage holds the three defaults |
| DataArticles.IntendedReloadPersists | src/data/articles.ts:162-166 | the intended reload leaves the array equal to the saved snapshot, and agrees with the as-written one except on the aliased fallback |
| ContentArticles.Initialized | src/data/contentArticles.ts:19-46 | once loaded, nothing changes; the flag is set exactly after a load that succeeded |
| ContentArticles.InitializeIsIdempotent | src/data/contentArticles.ts:19-22 | after a successful load, another call changes nothing, whatever the files say |
| ContentArticles.InitializedSorted | src/data/contentArticles.ts:27-37 | a non-empty load replaces the list with its articles, newest first |
| ContentArticles.ContentStore.constructor | src/data/contentArticles.ts:10-13 | an empty list, not yet loaded |
| ContentArticles.ContentStore.InitializeContentArticles | src/data/contentArticles.ts:19-46 | the list and the flag become what `Initialized` gives |
| ContentArticles.ContentStore.ReloadContentArticles | src/data/contentArticles.ts:52-55 | clears the flag, then initialises |
| ArticleIndex.Merged | src/data/index.ts:30-42 | the merged list is a permutation of content followed by data |
| ArticleIndex.MergedIsSortedPermutation | src/data/index.ts:30-42 | the merged list is newest first and holds exactly the content and data articles |
| ArticleIndex.ContentAheadOnTies | src/data/index.ts:33-41 | among articles of one date, the content articles come first, each group in its own order |
| ArticleIndex.FindById | src/data/index.ts:58-60 | the first article whose id equals the number, present exactly when one exists; string ids never match |
| ArticleIndex.ReloadKeepsStaleContent | src/data/index.ts:66-70 | as written, a reload after the first load keeps the old content articles |
| ArticleIndex.ReloadShowsNewContent | src/data/index.ts:66-70 | reloading the content files replaces the content in the merged, newest-first list |
| ArticleIndex.Catalog.constructor | src/data/index.ts:73 | the module starts with only the data articles merged |
| ArticleIndex.Catalog.UpdateMergedArticles | src/data/index.ts:30-42 | the array becomes the merged list |
| ArticleIndex.Catalog.InitializeArticles | src/data/index.ts:48-51 | loads the content once, then merges |
| ArticleIndex.Catalog.ReloadArticles | src/data/index.ts:66-70 | as written: the content store goes through `initializeContentArticles`, which does nothing once loaded, then the list becomes the merge of the store's articles with the new data articles; after a first load the old content stays |
| ArticleMarkdown.StripNonSlug | src/composables/useArticleMarkdown.ts:27 | keeps only word characters, white space and `-`; input without capitals gives slug characters and spaces |
| ArticleMarkdown.CollapseSlug | src/composables/useArticleMarkdown.ts:28 | collapsing white space in slug characters and spaces leaves only slug characters |
| ArticleMarkdown.SlugifyIsSlug | src/composables/useArticleMarkdown.ts:23-28 | a slug holds only lower-case ASCII letters, digits, `_` and `-` |
| ArticleMarkdown.SlugTextIsFixed | src/composables/useArticleMarkdown.ts:23-28 | a slug slugs to itself |
| ArticleMarkdown.SlugifyIdempotent | src/composables/useArticleMarkdown.ts:23-28 | slugging twice is slugging once |
| ArticleMarkdown.SlugifyDropsNonAscii | src/composables/useArticleMarkdown.ts:23-28 | text without ASCII word characters, `-` or white space, such as a CJK heading, slugs to the empty string, for the ASCII-only lower case of this model |
| ArticleMarkdown.SlugifyJoinsWords | src/composables/useArticleMarkdown.ts:23-28 | a white-space run between two words becomes one `-` |
| ArticleMarkdown.HeadingIdInjective | src/composables/useArticleMarkdown.ts:147-149 | two occurrence counts of one base give different ids, for every base but `__proto__`; for `constructor` they differ in their run of `1`s |
| ArticleMarkdown.CounterStep | src/composables/useArticleMarkdown.ts:147-148 | one more heading with base `b` moves what `headingCount[b]` reads one step on |
| ArticleMarkdown.CounterFrame | src/composables/useArticleMarkdown.ts:148 | counting a heading leaves what every other key reads as it was |
| ArticleMarkdown.HeadingIdOfOwnKey | src/composables/useArticleMarkdown.ts:147-149 | for a base that is no key of `Object.prototype`, the ids are the base, then the base with `-1`, `-2`, … |
| ArticleMarkdown.SlugInheritedKeys | src/composables/useArticleMarkdown.ts:145-147 | of the keys of `Object.prototype`, only `constructor` and `__proto__` can be a slug without capitals |
| ArticleMarkdown.ProtoIdsCollide | src/composables/useArticleMarkdown.ts:146-149 | as written, every heading with base `__proto__` gets the id `__proto__-[object Object]` |
| ArticleMarkdown.ConstructorHeadingId | src/composables/useArticleMarkdown.ts:146-149 | as written, the id of a heading with base `constructor` is `constructor-`, the printed function `Object`, and one `1` per earlier such heading; it is no slug |
| ArticleMarkdown.OwnCounterIdIsSlug | src/composables/useArticleMarkdown.ts:149 | the counter as intended turns a slug into ids that are slugs |
| ArticleMarkdown.ExtractTextFromTokens | src/composables/useArticleMarkdown.ts:96-111 | the loop, with its recursion into children, gives the plain text of the tokens |
| ArticleMarkdown.InlineTextAppend | src/composables/useArticleMarkdown.ts:96-111 | the text of a token list is the text of its parts, in order |
| ArticleMarkdown.InlineTextOfOne | src/composables/useArticleMarkdown.ts:102-108 | a non-empty `text` or `code_inline` token adds its content; any other token adds its children's text, or nothing without children |
| ArticleMarkdown.LeadingDigits | src/composables/useArticleMarkdown.ts:125 | the longest prefix of digits |
| ArticleMarkdown.HeadingLevelOfTag | src/composables/useArticleMarkdown.ts:125 | the tags `h1` to `h6` give the levels 1 to 6 |
| ArticleMarkdown.RenderEnv.constructor | src/composables/useArticleMarkdown.ts:165-168 | an empty counter and an empty table of contents |
| ArticleMarkdown.ScanHeadingText | src/composables/useArticleMarkdown.ts:128-142 | the scan finds the text of the first `inline` token before `heading_close` |
| ArticleMarkdown.HeadingOpenRule | src/composables/useArticleMarkdown.ts:119-161 | `count` is what `headingCount[slug]` reads on a plain object (an own property, else one inherited from `Object.prototype`), or 0 when that is falsy; the id is the slug, followed by `-count` when `count` is truthy; `count + 1` is written back, which `__proto__` ignores; the entry is appended to the table |
| ArticleMarkdown.FlowchartFence | src/composables/useArticleMarkdown.ts:38-48 | a `flowchart` or `flow` fence becomes a flowchart placeholder whose text is the escaped body |
| ArticleMarkdown.MermaidFence | src/composables/useArticleMarkdown.ts:51-61 | a fence in one of the twelve mermaid languages becomes a mermaid placeholder carrying its body |
| ArticleMarkdown.DiagramFenceIgnoresHljs | src/composables/useArticleMarkdown.ts:38-61 | a diagram fence is never highlighted |
| ArticleMarkdown.CodeFence | src/composables/useArticleMarkdown.ts:64-82 | another fence is highlighted when highlight.js knows the language and succeeds; otherwise it is the escaped body |
| ArticleMarkdown.RenderToken | src/composables/useArticleMarkdown.ts:119-170 | rendering one token is one step of the render, with the counter of a plain object |
| ArticleMarkdown.ParseMarkdown | src/composables/useArticleMarkdown.ts:164-176 | the render over all tokens, from `toc: []` and a `headingCount` object with no own properties |
| ArticleMarkdown.RenderUpToPieces | src/composables/useArticleMarkdown.ts:164-176 | each token so far rendered to its own piece |
| ArticleMarkdown.PiecesStep | src/composables/useArticleMarkdown.ts:152-160 | rendering one more token adds the one piece that matches it and keeps the earlier pieces |
| ArticleMarkdown.PieceMatchKept | src/composables/useArticleMarkdown.ts:152-155 | a piece still matches its token after more pieces and entries are added |
| ArticleMarkdown.EveryTokenRendersOnce | src/composables/useArticleMarkdown.ts:164-176 | every token renders to exactly one piece, in order; a heading carries its entry's id, and a fence is what the option returns |
| ArticleMarkdown.DiagramFencesBecomePlaceholders | src/composables/useArticleMarkdown.ts:36-61 | with the installed option, every diagram fence of a document becomes a placeholder carrying its body |
| ArticleMarkdown.RenderUpToCounts | src/composables/useArticleMarkdown.ts:146-148 | after `n` tokens, `headingCount[b]` reads what the headings so far with base `b` leave in a plain object: their number for an ordinary base, the inherited value followed by one `1` per heading for an inherited key, `Object.prototype` for `__proto__` |
| ArticleMarkdown.RenderUpToCounter | src/composables/useArticleMarkdown.ts:146-148 | the render's counter is the headings, counted in order |
| ArticleMarkdown.CountsUpToReads | src/composables/useArticleMarkdown.ts:145-148 | the counter of the headings reads, for each base, what that many headings with the base leave in it |
| ArticleMarkdown.TocStep | src/composables/useArticleMarkdown.ts:145-155 | one more token keeps the table in step with the headings |
| ArticleMarkdown.TocAppend | src/composables/useArticleMarkdown.ts:152-155 | appending a heading with the counter's id keeps the table in step with the headings |
| ArticleMarkdown.RenderUpToToc | src/composables/useArticleMarkdown.ts:145-155 | after `n` tokens, the table lists the headings so far, each with the id the counter gives it |
| ArticleMarkdown.HeadingBases | src/composables/useArticleMarkdown.ts:145 | every heading's base is the slug of its text |
| ArticleMarkdown.TocListsHeadings | src/composables/useArticleMarkdown.ts:164-176 | the table has one entry per heading, in document order, with its text, its level and the counter's id |
| ArticleMarkdown.SlugCountGrows | src/composables/useArticleMarkdown.ts:147-148 | `SlugCount` is the number of earlier headings with a base; a later heading with the same base sees a larger number |
| ArticleMarkdown.IdsDistinctPerBase | src/composables/useArticleMarkdown.ts:147-149 | headings that share a base other than `__proto__` get different ids |
| ArticleMarkdown.OwnIdsDistinctPerBase | src/composables/useArticleMarkdown.ts:146-149 | with the counter as intended, headings that share any base get different ids |
| ArticleMarkdown.TocEntry | src/composables/useArticleMarkdown.ts:152-155 | each table entry has its heading's text, level and counter id, and its base is the slug of its text |
| ArticleMarkdown.TocIdsDistinctUpTo | src/composables/useArticleMarkdown.ts:145-155 | after `n` tokens, headings whose texts slug alike, other than to `__proto__`, have different ids |
| ArticleMarkdown.TocIdsDistinctPerSlug | src/composables/useArticleMarkdown.ts:164-176 | in one render, headings whose texts slug alike get different ids, unless the slug is `__proto__` |
| ArticleMarkdown.ProtoTocIdsCollide | src/composables/useArticleMarkdown.ts:145-155 | as written, every table entry whose text slugs to `__proto__` has the id `__proto__-[object Object]` |
| ArticleMarkdown.ConstructorTocId | src/composables/useArticleMarkdown.ts:145-155 | as written, a table entry whose text slugs to `constructor` has an id that starts with `constructor-` and the printed function `Object`, and is no slug |
| ArticleMarkdown.ConstructorSlug | src/composables/useArticleMarkdown.ts:23-28 | the heading `Constructor` slugs to `constructor` |
| ArticleMarkdown.ProtoIsSlug | src/composables/useArticleMarkdown.ts:23-28 | `__proto__` slugs to itself |
| ArticleMarkdown.IdsCanCollide | src/composables/useArticleMarkdown.ts:145-149 | for every slug `b` other than `constructor` and `__proto__`, headings `b`, `b` and `b-1` get the ids `b`, `b-1` and `b-1` |
| ArticleMarkdown.EmptySlugIds | src/composables/useArticleMarkdown.ts:145-149 | headings with an empty slug get the ids "", "-1", "-2", … |
| FlowchartRenderer.GetThemeColors | src/composables/useFlowchartRenderer.ts:19-27 | text and lines share one colour, which differs from the fill; the colours follow the theme |
| FlowchartRenderer.ThemesDiffer | src/composables/useFlowchartRenderer.ts:19-27 | switching the theme changes every colour |
| FlowchartRenderer.SvgContainerId | src/composables/useFlowchartRenderer.ts:67-72 | the mount id is the diagram id with a four-character suffix |
| FlowchartRenderer.SvgContainerIdInjective | src/composables/useFlowchartRenderer.ts:67-72 | different diagrams get different mount ids |
| FlowchartRenderer.ErrorHtmlShowsCode | src/composables/useFlowchartRenderer.ts:134-139 | the error block shows the code and nothing else: its text decodes to the code and holds no markup |
| FlowchartRenderer.RenderStoresStoreOf | src/composables/useFlowchartRenderer.ts:93-95 | the render writes to the cache what `StoreOf` says |
| FlowchartRenderer.CacheWrittenOnce | src/composables/useFlowchartRenderer.ts:93-95 | the cache is written only when there is no entry, the element is the container's child, and the code is not blank; it stores that code |
| FlowchartRenderer.CacheConsultedOnlyWhenForced | src/composables/useFlowchartRenderer.ts:85-90 | the cache matters only to a forced render of a blank element |
| FlowchartRenderer.BlankCodeChangesNothing | src/composables/useFlowchartRenderer.ts:85-91 | a blank code, even after the fallback to the cache, changes nothing |
| FlowchartRenderer.RenderedElementKept | src/composables/useFlowchartRenderer.ts:97-102 | an unforced render of a marked element leaves the container as it was |
| FlowchartRenderer.ParseFailureShowsError | src/composables/useFlowchartRenderer.ts:105-128 | an unparsable code becomes the error block, or only marks the element when it is not the container's child |
| FlowchartRenderer.ParseSuccessMounts | src/composables/useFlowchartRenderer.ts:105-128 | a parsed code becomes a mount under the derived id, drawn in the theme's colours exactly when drawing succeeds |
| FlowchartRenderer.RestoreAll | src/composables/useFlowchartRenderer.ts:153-166 | the restore keeps the number of containers |
| FlowchartRenderer.RenderAll | src/composables/useFlowchartRenderer.ts:177-183 | the render keeps the number of containers |
| FlowchartRenderer.RenderedStep | src/composables/useFlowchartRenderer.ts:177-183 | rendering container `n` advances the loop state by one container |
| FlowchartRenderer.CacheUpToBeyond | src/composables/useFlowchartRenderer.ts:177-183 | rendering a container reads and writes only that container's cache entry |
| FlowchartRenderer.PassCacheWriteOnce | src/composables/useFlowchartRenderer.ts:77-183 | over a pass, no cached code is overwritten, and every new entry is the non-blank code of a container whose `pre` is its direct child |
| FlowchartRenderer.ErrorsStay | src/composables/useFlowchartRenderer.ts:144-186 | error blocks are never re-rendered, forced or not |
| FlowchartRenderer.RestoreOnlyCachedMounts | src/composables/useFlowchartRenderer.ts:153-166 | the restore touches only svg mounts, drawn or not, that have a non-empty cached code |
| FlowchartRenderer.RestoredTextIsCode | src/composables/useFlowchartRenderer.ts:153-166 | a restored `pre` holds the cached code |
| FlowchartRenderer.NewContainersNotRestored | src/composables/useFlowchartRenderer.ts:153-166 | containers the cache has no entry for are left as they are by the restore |
| FlowchartRenderer.RerenderRedraws | src/composables/useFlowchartRenderer.ts:191-193 | a theme switch redraws every restorable diagram in the new colours |
| FlowchartRenderer.RenderSettles | src/composables/useFlowchartRenderer.ts:97-105 | after one render, an unforced render of the same container changes nothing |
| FlowchartRenderer.CacheUpToAt | src/composables/useFlowchartRenderer.ts:177-183 | each cache entry below `n` is the one its render left |
| FlowchartRenderer.SettledCacheKept | src/composables/useFlowchartRenderer.ts:177-183 | a pass over settled containers leaves the cache as it is |
| FlowchartRenderer.NonForcedPassIdempotent | src/composables/useFlowchartRenderer.ts:144-186 | a second unforced pass changes no container and no cache entry |
| FlowchartRenderer.FlowchartRenderer.constructor | src/composables/useFlowchartRenderer.ts:14 | the code cache starts empty |
| FlowchartRenderer.FlowchartRenderer.RenderFlowchartElement | src/composables/useFlowchartRenderer.ts:77-129 | changes only container `i` and its cache entry, as `RenderElement` says |
| FlowchartRenderer.FlowchartRenderer.RenderPass | src/composables/useFlowchartRenderer.ts:177-183 | the loop leaves the containers and the cache that `RenderAll` and `CacheUpTo` specify |
| FlowchartRenderer.FlowchartRenderer.RenderPassStep | src/composables/useFlowchartRenderer.ts:178-182 | one turn advances the loop state |
| FlowchartRenderer.FlowchartRenderer.InitFlowchart | src/composables/useFlowchartRenderer.ts:144-186 | nothing without the content element; otherwise the forced restore, then, if the element is still there when the timer fires, the render pass, as `Pass` specifies |
| FlowchartRenderer.FlowchartRenderer.RestoreMounts | src/composables/useFlowchartRenderer.ts:152-165 | the restore loop leaves the containers that `RestoreAll` specifies, and the cache as it was |
| FlowchartRenderer.FlowchartRenderer.RerenderFlowchart | src/composables/useFlowchartRenderer.ts:144-193 | a forced pass, under the same two mount checks |
| MermaidRenderer.ErrorHtmlShowsCode | src/composables/useMermaidRenderer.ts:60-65 | the error block shows the code and nothing else |
| MermaidRenderer.RenderId | src/composables/useMermaidRenderer.ts:30 | the element's id with `-svg` |
| MermaidRenderer.BlankNotRendered | src/composables/useMermaidRenderer.ts:33 | a blank element is neither marked nor rendered |
| MermaidRenderer.RenderedOnce | src/composables/useMermaidRenderer.ts:36-54 | a non-blank element is rendered once, with its own code under its id, and is no longer selected afterwards |
| MermaidRenderer.SuccessPlacesSvg | src/composables/useMermaidRenderer.ts:39-48 | the svg goes into the container when there is one, into the element otherwise |
| MermaidRenderer.FailureShowsError | src/composables/useMermaidRenderer.ts:49-54 | a failed render shows the error block inside a container; elsewhere only the marker changes |
| MermaidRenderer.PassNodes | src/composables/useMermaidRenderer.ts:77-82 | the pass keeps the number of elements |
| MermaidRenderer.UnselectedUnchanged | src/composables/useMermaidRenderer.ts:77 | elements the selector does not match are left alone |
| MermaidRenderer.PassSettles | src/composables/useMermaidRenderer.ts:70-83 | after a pass, only blank elements, left unchanged, are still selected |
| MermaidRenderer.NoCallsWhenSettled | src/composables/useMermaidRenderer.ts:77-82 | with only blank elements selected, the pass calls nothing |
| MermaidRenderer.RepeatPassIsNoOp | src/composables/useMermaidRenderer.ts:70-83 | a repeated pass makes no render call and changes nothing |
| MermaidRenderer.CallsOfPass | src/composables/useMermaidRenderer.ts:70-83 | each render call is that of a selected, non-blank element, with its id and code |
| MermaidRenderer.MermaidRenderer.constructor | src/composables/useMermaidRenderer.ts:10-24 | not initialised, and no calls made |
| MermaidRenderer.MermaidRenderer.InitializeMermaid | src/composables/useMermaidRenderer.ts:10-24 | mermaid is configured exactly once |
| MermaidRenderer.MermaidRenderer.RenderMermaidElement | src/composables/useMermaidRenderer.ts:29-55 | only element `i` changes, and its render call is recorded |
| MermaidRenderer.MermaidRenderer.InitMermaid | src/composables/useMermaidRenderer.ts:70-83 | nothing without the content element; otherwise initialises once, then renders every selected element, making the calls `PassCalls` lists |
| CodeCopy.OneClickRestores | src/composables/useCodeCopy.ts:25-34 | one click, then its timer, restores the button |
| CodeCopy.DoubleClickSticksAsWritten | src/composables/useCodeCopy.ts:25-34 | as written, two quick clicks leave `已复制!` on the button for good |
| CodeCopy.RunSettles | src/composables/useCodeCopy.ts:25-34 | any run of clicks and timers keeps every pending restore at `复制` |
| CodeCopy.ButtonAlwaysRecovers | src/composables/useCodeCopy.ts:25-34 | however clicks and timers interleave, the button is idle once every timer has fired |
| CodeCopy.Page.constructor | src/composables/useCodeCopy.ts:39-55 | the page body and the clipboard as given |
| CodeCopy.CopyButton.constructor | src/composables/useCodeCopy.ts:60-72 | a fresh button shows `复制` for its code |
| CodeCopy.CopyButton.ShowCopySuccess | src/composables/useCodeCopy.ts:25-34 | as written: the button shows `已复制!` with `copied`, and its timer will restore the text the button showed before |
| CodeCopy.CopyButton.TimerFires | src/composables/useCodeCopy.ts:30-33 | the oldest timer fires |
| CodeCopy.CopyButton.FallbackCopy | src/composables/useCodeCopy.ts:39-55 | the text area is removed in either case; the code reaches the clipboard exactly when `execCommand` copies; success is shown whenever `execCommand` does not throw, even when it copies nothing; on a throw nothing changes |
| CodeCopy.CopyButton.Clicked | src/composables/useCodeCopy.ts:11-20 | the clipboard API first, then the fallback: the code is copied when either copies; success is shown when the clipboard API succeeds or `execCommand` does not throw |
| CodeCopy.CodeText | src/composables/useCodeCopy.ts:87-91 | the text of the first `code` child, present exactly when there is one |
| CodeCopy.ButtonAddedOnce | src/composables/useCodeCopy.ts:85 | a block that has its button is skipped by a later pass |
| CodeCopy.AddCopyButtons | src/composables/useCodeCopy.ts:77-98 | without the content element nothing changes; otherwise each `pre.hljs` with a `code` child and no button gets exactly one fresh idle button for its code, appended, and every other block is unchanged |
| ArticleEditor.DefaultForm | src/composables/useArticleEditor.ts:10-20 | the defaults, with the given id and today's date |
| ArticleEditor.DefaultFormInvalid | src/composables/useArticleEditor.ts:47-57 | a fresh or reset form does not validate |
| ArticleEditor.BadgeNeverChecked | src/composables/useArticleEditor.ts:47-57 | the badge plays no part in validation |
| ArticleEditor.SpaceCategoryPasses | src/composables/useArticleEditor.ts:51-53 | a white-space category or date passes, where a white-space title does not |
| ArticleEditor.FormOf | src/composables/useArticleEditor.ts:34-45 | loading copies the id along with every field |
| ArticleEditor.LoadThenPatchRestores | src/composables/useArticleEditor.ts:34-69 | saving a form loaded from a record gives the record back |
| ArticleEditor.RouteOf | src/composables/useArticleEditor.ts:59-73 | an invalid form goes nowhere; a truthy id updates every field; anything else creates |
| ArticleEditor.Editor.constructor | src/composables/useArticleEditor.ts:8-20 | the default form, not submitting |
| ArticleEditor.Editor.ResetForm | src/composables/useArticleEditor.ts:22-32 | the defaults again, keeping the id |
| ArticleEditor.Editor.LoadArticle | src/composables/useArticleEditor.ts:34-45 | the form of the record |
| ArticleEditor.Editor.HandleSubmit | src/composables/useArticleEditor.ts:59-78 | `null` and no change for an invalid form; otherwise the created or updated record, or the update's error; never left submitting |
| ArticleSearch.Filter | src/composables/useArticleSearch.ts:19-29 | exactly the matching articles, at most as many as the input |
| ArticleSearch.SearchResults | src/composables/useArticleSearch.ts:15-30 | everything for a blank query; otherwise exactly the articles whose joined, lower-cased fields contain the trimmed, lower-cased query |
| ArticleSearch.FilterIsSubsequence | src/composables/useArticleSearch.ts:19-29 | filtering keeps order |
| ArticleSearch.SearchKeepsOrder | src/composables/useArticleSearch.ts:15-30 | the results are a subsequence of the list |
| ArticleSearch.JoinSurrounds | src/composables/useArticleSearch.ts:20-26 | each field sits whole inside the joined text |
| ArticleSearch.FieldMatchFound | src/composables/useArticleSearch.ts:20-28 | an article with a field that holds the query, in any letter case, is found |
| ArticleSearch.HighlightText | src/composables/useArticleSearch.ts:8-12 | a blank query leaves the text as it is |
| ArticleSearch.HighlightAll | src/composables/useArticleSearch.ts:37-41 | one entry per result, in order, with the article unchanged |
| ArticleSearch.HighlightedResults | src/composables/useArticleSearch.ts:33-42 | nothing for a blank query; otherwise one entry per search result, in order |
| ArticleSearch.Search.constructor | src/composables/useArticleSearch.ts:5 | the query starts empty |
| ArticleSearch.Search.ClearSearch | src/composables/useArticleSearch.ts:44-46 | the query becomes empty |
| ArticleSearch.ClearedShowsAll | src/composables/useArticleSearch.ts:15-46 | with an empty query every article is a result and nothing is highlighted |
| ArticleComments.AuthorName | src/composables/useArticleComments.ts:31 | the trimmed name, or `匿名` when it is missing or blank; never empty |
| ArticleComments.Added | src/composables/useArticleComments.ts:28-46 | nothing exactly for blank content; otherwise the comment with the clock's id and time, the author and the trimmed content, under the article's key |
| ArticleComments.AddAppendsOne | src/composables/useArticleComments.ts:32-43 | the article's list grows by exactly that comment at its end, keeping the earlier ones |
| ArticleComments.AddKeepsOtherArticles | src/composables/useArticleComments.ts:40-43 | other articles' lists are unchanged |
| ArticleComments.ReloadOwnSave | src/composables/useArticleComments.ts:13-24 | a saved map loads back as itself |
| ArticleComments.CommentBoard.constructor | src/composables/useArticleComments.ts:11 | an empty map over the given storage |
| ArticleComments.CommentBoard.LoadComments | src/composables/useArticleComments.ts:13-20 | the map becomes the loaded one |
| ArticleComments.CommentBoard.AddComment | src/composables/useArticleComments.ts:28-46 | the result and the new map are what `Added` gives; the map is saved exactly when a comment was added |
| AppStore.ViewModeName | src/store/modules/app.ts:55-57 | the saved text is `list` or `timeline` |
| AppStore.LayoutName | src/store/modules/app.ts:66-68 | the saved text is `single` or `double` |
| AppStore.InitialViewMode | src/store/modules/app.ts:14-24 | timeline exactly when `timeline` is stored; list otherwise |
| AppStore.InitialLayout | src/store/modules/app.ts:26-36 | double exactly when `double` is stored; single otherwise |
| AppStore.SavedModeRestored | src/store/modules/app.ts:14-72 | a saved mode or layout is what the next page starts with |
| AppStore.OtherViewMode | src/store/modules/app.ts:55 | a toggle always changes the mode |
| AppStore.OtherLayout | src/store/modules/app.ts:66 | a toggle always changes the layout |
| AppStore.ToggleTwiceIsIdentity | src/store/modules/app.ts:54-72 | toggling twice gives back the start |
| AppStore.WithClass | src/store/modules/app.ts:49 | the class is present exactly when on, and the other classes stay |
| AppStore.App.constructor | src/store/modules/app.ts:10-39 | light theme, no reading mode, the mode and layout read from the storage |
| AppStore.App.ToggleTheme | src/store/modules/app.ts:46-50 | the theme flips, the root carries `dark` exactly when dark, and nothing else changes |
| AppStore.App.ToggleArticleViewMode | src/store/modules/app.ts:54-61 | the other mode, saved; nothing else changes |
| AppStore.App.ToggleArticleLayout | src/store/modules/app.ts:65-72 | the other layout, saved; nothing else changes |
| AppStore.App.ToggleReadingMode | src/store/modules/app.ts:76-83 | the reading mode flips, the body carries `reading-mode` exactly when on, and nothing else changes |

## Left out

**Runtime and environment:**

- Browser I/O and the runtime:
  - `import.meta.glob` and the module loaders are a list of file outcomes;
  - `localStorage` is a field holding what was stored;
  - the DOM is arrays of container values;
  - `nextTick`, `setTimeout` and promise timing are not modelled, so callers fire timers as events.
- `localStorage.setItem` failures are not modelled. Those the source catches only log, and the comments store does not catch them.
- JSON records are assumed to have the declared shape.
- The console output is not modelled.
- Clocks and randomness are inputs:
  - `Date.now()`, `toISOString()` and today's date;
  - `nanoid()`;
  - the random `Math.random` suffixes and ids;
  - `new Date(s).getTime()`, as a function `time`.
- Invalid dates (`NaN` in the comparator) are out of scope, because `time` returns an integer.

**Library internals:**

- The markdown-it tokenizer, its default rules, and the mark, katex and task-list plugins are out of scope. The model renders a given token list.
- highlight.js is out of scope. Whether it knows a language, and what it returns, are inputs.
- flowchart.js, `mermaid.render` and `getFlowchartOptions` are out of scope. Their outcomes (parses, draws, the rendered svg) are inputs, and so are the drawing options other than the theme colours.

**Text handling:**

- Case and encoding:
  - `ToLower` lower-cases ASCII letters only; `toLowerCase` on other scripts is not modelled;
  - strings are sequences of characters, not UTF-16 code units.
  - `trim` and `\s` use the ECMAScript white-space set, and `\w` is ASCII, as in JavaScript.
- Regular expressions are modelled only for the patterns these files use.

**Members stated weaker than the source:**

- ArticleSearch.HighlightText: only the blank query is modelled. The `<mark>` replacement uses the raw query as a regular expression and is an input function `mark`, because general regular expressions are not modelled. In particular, `new RegExp(query)` throws a `SyntaxError` for a query such as `(` or `c++`, so `highlightedResults` throws; the model gives `mark`'s result instead.
- ArticleMarkdown.SlugifyDropsNonAscii: holds for the ASCII-only `ToLower`. `toLowerCase` maps U+212A (Kelvin sign) to `k` and U+0130 to `i` with a combining dot, so those headings keep a letter in their slug.
- ArticleMarkdown.IdsDistinctPerBase, ArticleMarkdown.TocIdsDistinctPerSlug, ArticleMarkdown.TocIdsDistinctUpTo: the base `__proto__` is excluded, because as written all its headings share one id (`ProtoTocIdsCollide`).
- ArticleMarkdown.HeadingIdInjective: the base `__proto__` is excluded for the same reason.
- ArticleMarkdown.IdsCanCollide: the slugs `constructor` and `__proto__` are excluded, because their ids are not `b` and `b-1` (`ConstructorHeadingId`, `ProtoIdsCollide`).
- ArticleMarkdown.ConstructorHeadingId: the printed form of the function `Object` is V8's. Other engines may print it differently, and the model fixes V8's form.
- FlowchartRenderer.FlowchartRenderer.InitFlowchart, RenderPass, RenderPassStep, RerenderFlowchart: they require that the pass's containers are distinct elements, as `querySelectorAll` returns them. The cache is keyed by those elements, given as `containerKeys`.
- MarkdownExporter.ArticleToMarkdown: a numeric id makes `includes` throw. This is an error result, and the message text is not modelled.

**Not modelled:**

- `./dataArticles`, which `src/data/index.ts` imports, is not part of this model. Its article list is an input.
- `handleSubmitAndRedirect` (router navigation) is not modelled.
- `useArticleMarkdown`'s `computed` wrapper is not modelled; `ParseMarkdown` is the value it recomputes.
- Vue's reactivity is not modelled.

## Findings

| source | as written | input that shows it | evidently intended | confidence | as-written member | corrected member |
|---|---|---|---|---|---|---|
| src/composables/useCodeCopy.ts:25-34 | `showCopySuccess` saves the button's current text as the text its timer restores | two clicks within two seconds: the second click saves `已复制!`, so after both timers the button shows `已复制!` for good | the button returns to `复制` once every timer has fired | high, not executed | CodeCopy.DoubleClickSticksAsWritten | CodeCopy.ButtonAlwaysRecovers |
| src/data/index.ts:66-70 | `reloadArticles` calls `initializeContentArticles`, which returns at once after the first successful load | any reload after the first load, with changed files: the merged list keeps the old content articles | reload the content articles too, as its comment says, which `reloadContentArticles` does | medium, not executed | ArticleIndex.ReloadKeepsStaleContent | ArticleIndex.ReloadShowsNewContent |
| src/data/articles.ts:162-166 | `articles.length = 0` also empties `loaded` when the load falls back to `defaultArticles`, which is the module array itself after a first visit | a first visit with nothing stored, then `reloadArticles()` while storage still holds no non-empty list: the array ends empty, while storage holds the three defaults | the array is refilled with what loads, so it equals the saved snapshot | high, not executed | DataArticles.FirstVisitReloadEmpties | DataArticles.IntendedReloadPersists |
| src/composables/useArticleMarkdown.ts:146-149 | `headingCount` is `{}`, so `headingCount['__proto__']` reads `Object.prototype` and the write is ignored | two headings `` `__proto__` ``: both get the id `__proto__-[object Object]` | each base has its own count from 0, so the ids are `__proto__` and `__proto__-1` | high, not executed | ArticleMarkdown.ProtoTocIdsCollide | ArticleMarkdown.OwnIdsDistinctPerBase |
| src/composables/useArticleMarkdown.ts:146-149 | `headingCount['constructor']` first reads the inherited function `Object` | a heading `Constructor`: its id is `constructor-function Object() { [native code] }` | the id `constructor`, a slug | high, not executed | ArticleMarkdown.ConstructorTocId | ArticleMarkdown.OwnCounterIdIsSlug |
