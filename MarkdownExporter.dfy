/**
 * `src/utils/markdownExporter.ts`: an article written back as a markdown file with a `---`
 * header, and the file name for it.  The header is read back by `parseFrontmatter`; the
 * round trip between the two holds for values that survive the quoting, and is proved here.
 */
module MarkdownExporter {
  import opened Wrappers
  import opened Text
  import opened ArticleTypes
  import opened Frontmatter
  import ArticleMarkdown

  // ---------------------------------------------------------------------------------------
  // escapeYamlValue

  /** The characters that make `escapeYamlValue` quote a value: `: # | & * ! % @`, a
      backtick, and a line feed. */
  predicate IsSpecial(c: char) {
    c == ':' || c == '#' || c == '|' || c == '&' || c == '*' || c == '!' || c == '%' || c == '@'
    || c == '`' || c == '\n'
  }

  /** `value.includes(c)` for one of the special characters. */
  predicate HasSpecial(v: string)
    decreases |v|
  {
    v != [] && (IsSpecial(v[0]) || HasSpecial(v[1..]))
  }

  lemma {:induction false} HasSpecialIff(v: string)
    ensures HasSpecial(v) <==> exists i :: 0 <= i < |v| && IsSpecial(v[i])
    decreases |v|
  {
    if v != [] {
      HasSpecialIff(v[1..]);
      if exists i :: 0 <= i < |v| && IsSpecial(v[i]) {
        var i :| 0 <= i < |v| && IsSpecial(v[i]);
        if i > 0 {
          assert v[1..][i - 1] == v[i];
        }
      }
    }
  }

  /** The values `escapeYamlValue` quotes: one holding a special character, or starting or
      ending with a space. */
  predicate NeedsQuotes(v: string) {
    HasSpecial(v) || StartsWith(v, " ") || EndsWith(v, " ")
  }

  function EscapeYamlValue(v: string): string {
    if NeedsQuotes(v) then "\"" + ReplaceChar(v, '"', "\\\"") + "\"" else v
  }

  lemma {:induction false} ReplaceCharLength(s: string, c: char, r: string)
    requires |r| >= 1
    ensures |ReplaceChar(s, c, r)| >= |s| + (if Free(s, c) then 0 else |r| - 1)
    decreases |s|
  {
    if s != [] {
      ReplaceCharLength(s[1..], c, r);
      if s[0] != c && !Free(s, c) {
        var i :| 0 <= i < |s| && s[i] == c;
        assert s[1..][i - 1] == c;
      }
    }
  }

  /** Every `"` is preceded by a backslash. */
  predicate QuotesEscaped(t: string) {
    forall i :: 0 <= i < |t| && t[i] == '"' ==> i > 0 && t[i - 1] == '\\'
  }

  lemma {:induction false} ReplaceEscapesQuotes(v: string)
    ensures QuotesEscaped(ReplaceChar(v, '"', "\\\""))
    decreases |v|
  {
    if v != [] {
      ReplaceEscapesQuotes(v[1..]);
      var h := if v[0] == '"' then "\\\"" else [v[0]];
      var rest := ReplaceChar(v[1..], '"', "\\\"");
      var t := h + rest;
      forall i | 0 <= i < |t| && t[i] == '"' ensures i > 0 && t[i - 1] == '\\' {
        if i >= |h| {
          assert rest[i - |h|] == '"';
          if i - |h| > 0 {
            assert t[i - 1] == rest[i - |h| - 1];
          }
        }
      }
    }
  }

  /** A value is written unchanged exactly when it needs no quotes; otherwise it is wrapped in
      `"` and every `"` inside is written `\"`. */
  lemma EscapeYamlShape(v: string)
    ensures EscapeYamlValue(v) == v <==> !NeedsQuotes(v)
    ensures NeedsQuotes(v) ==> var r := EscapeYamlValue(v);
              |r| >= |v| + 2 && r[0] == '"' && r[|r| - 1] == '"' && QuotesEscaped(r[1..|r| - 1])
  {
    ReplaceCharLength(v, '"', "\\\"");
    ReplaceEscapesQuotes(v);
    if NeedsQuotes(v) {
      var r := EscapeYamlValue(v);
      assert r[1..|r| - 1] == ReplaceChar(v, '"', "\\\"");
    }
  }

  /** The parser never undoes the `\"`: a quoted value holding `"` reads back different. */
  lemma QuoteNotUnescaped(v: string)
    requires NeedsQuotes(v) && !Free(v, '"')
    ensures StripQuotes(EscapeYamlValue(v)) != v
  {
    var t := ReplaceChar(v, '"', "\\\"");
    ReplaceCharLength(v, '"', "\\\"");
    StripOnePair(t);
  }

  // ---------------------------------------------------------------------------------------
  // articleToMarkdown

  /** The id as the header's `articleId` value. */
  function IdText(id: ArticleId): string {
    match id
    case StrId(s) => s
    case NumId(_) => []
  }

  /** `escapeYamlValue(article.id)` with a number calls `includes` on a number and throws. */
  predicate IdThrows(a: Article) {
    a.id.NumId? && a.id.n != 0
  }

  datatype ExportError = NonStringId

  /** The keys of the lines the exporter may write, in its order. */
  const Keys: seq<string> := ["title", "description", "categoryKey", "tag", "badge", "date", "platform", "cover", "articleId"]

  /** The value each of those lines would carry (`''` when the field is absent). */
  function Values(a: Article): (r: seq<string>)
    ensures |r| == |Keys|
  {
    [a.title, a.description, a.categoryKey, a.tag, a.badge.GetOr([]), a.date, a.platform, a.cover, IdText(a.id)]
  }

  lemma KeysDistinct()
    ensures forall i, j :: 0 <= i < j < |Keys| ==> Keys[i] != Keys[j]
  {
  }

  /** The line for a truthy field. */
  function Opt(key: string, value: string): seq<(string, string)> {
    if value != [] then [(key, value)] else []
  }

  /** The fields written, in order: the truthy ones. */
  function Emitted(a: Article): seq<(string, string)> {
    Opt("title", a.title) + Opt("description", a.description) + Opt("categoryKey", a.categoryKey)
    + Opt("tag", a.tag) + Opt("badge", a.badge.GetOr([])) + Opt("date", a.date)
    + Opt("platform", a.platform) + Opt("cover", a.cover) + Opt("articleId", IdText(a.id))
  }

  /** The fields written are the truthy ones, each with its value, and no two share a key. */
  lemma EmittedFields(a: Article)
    ensures forall x :: x in Emitted(a) <==> exists i :: 0 <= i < |Keys| && Values(a)[i] != [] && x == (Keys[i], Values(a)[i])
    ensures KeysFunctional(Emitted(a))
  {
    var v := Values(a);
    forall x | x in Emitted(a)
      ensures exists i :: 0 <= i < |Keys| && v[i] != [] && x == (Keys[i], v[i])
    {
      if x in Opt("title", a.title) { assert x == (Keys[0], v[0]); }
      else if x in Opt("description", a.description) { assert x == (Keys[1], v[1]); }
      else if x in Opt("categoryKey", a.categoryKey) { assert x == (Keys[2], v[2]); }
      else if x in Opt("tag", a.tag) { assert x == (Keys[3], v[3]); }
      else if x in Opt("badge", a.badge.GetOr([])) { assert x == (Keys[4], v[4]); }
      else if x in Opt("date", a.date) { assert x == (Keys[5], v[5]); }
      else if x in Opt("platform", a.platform) { assert x == (Keys[6], v[6]); }
      else if x in Opt("cover", a.cover) { assert x == (Keys[7], v[7]); }
      else { assert x == (Keys[8], v[8]); }
    }
    forall i | 0 <= i < |Keys| && v[i] != [] ensures (Keys[i], v[i]) in Emitted(a) {
      if i == 0 { assert (Keys[i], v[i]) in Opt("title", a.title); }
      else if i == 1 { assert (Keys[i], v[i]) in Opt("description", a.description); }
      else if i == 2 { assert (Keys[i], v[i]) in Opt("categoryKey", a.categoryKey); }
      else if i == 3 { assert (Keys[i], v[i]) in Opt("tag", a.tag); }
      else if i == 4 { assert (Keys[i], v[i]) in Opt("badge", a.badge.GetOr([])); }
      else if i == 5 { assert (Keys[i], v[i]) in Opt("date", a.date); }
      else if i == 6 { assert (Keys[i], v[i]) in Opt("platform", a.platform); }
      else if i == 7 { assert (Keys[i], v[i]) in Opt("cover", a.cover); }
      else { assert (Keys[i], v[i]) in Opt("articleId", IdText(a.id)); }
    }
    KeysDistinct();
  }

  /** No key is paired with two values. */
  predicate KeysFunctional(ps: seq<(string, string)>) {
    forall x, y :: x in ps && y in ps && x.0 == y.0 ==> x == y
  }

  lemma LinesSnoc(ps: seq<(string, string)>, x: (string, string))
    ensures Lines(ps + [x]) == Lines(ps) + [Line(x)]
  {
    assert (ps + [x])[..|ps|] == ps;
  }

  lemma {:induction false} LinesIndex(ps: seq<(string, string)>)
    ensures |Lines(ps)| == |ps| && forall i :: 0 <= i < |ps| ==> Lines(ps)[i] == Line(ps[i])
    decreases |ps|
  {
    if ps != [] {
      LinesIndex(ps[..|ps| - 1]);
    }
  }

  /** A header line, `${key}: ${escapeYamlValue(value)}`. */
  function Line(kv: (string, string)): string {
    kv.0 + ": " + EscapeYamlValue(kv.1)
  }

  /** The header lines of the pairs, in order. */
  function Lines(ps: seq<(string, string)>): seq<string>
    decreases |ps|
  {
    if ps == [] then [] else Lines(ps[..|ps| - 1]) + [Line(ps[|ps| - 1])]
  }

  /** The header block: nothing without lines, otherwise the lines between `---` fences. */
  function Block(lines: seq<string>): string {
    if |lines| > 0 then "---\n" + Join(lines, "\n") + "\n---\n\n" else ""
  }

  /** The file: the header block, then the trimmed content. */
  function Document(lines: seq<string>, content: string): string {
    Block(lines) + Trim(content)
  }

  /** One `if (article.<key>) frontmatter.push(...)` of the exporter: a line for a truthy
      value, nothing otherwise. */
  method PushField(lines: seq<string>, ghost ps: seq<(string, string)>, key: string, value: string)
    returns (r: seq<string>)
    requires lines == Lines(ps)
    ensures r == Lines(ps + Opt(key, value))
  {
    r := lines;
    if value != [] {
      LinesSnoc(ps, (key, value));
      r := lines + [Line((key, value))];
    } else {
      assert ps + Opt(key, value) == ps;
    }
  }

  /** `articleToMarkdown(article)`: push a line per truthy field in the fixed order, then put
      the block in front of the trimmed content.  A numeric id other than 0 reaches
      `escapeYamlValue`, whose first `value.includes(':')` throws on a number. */
  method ArticleToMarkdown(a: Article) returns (r: Result<string, ExportError>)
    ensures IdThrows(a) ==> r == Err(NonStringId)
    ensures !IdThrows(a) ==> r == Ok(Document(Lines(Emitted(a)), a.content))
  {
    ghost var ps: seq<(string, string)> := [];
    var frontmatter: seq<string> := [];
    frontmatter := PushField(frontmatter, ps, "title", a.title);
    ps := ps + Opt("title", a.title);
    frontmatter := PushField(frontmatter, ps, "description", a.description);
    ps := ps + Opt("description", a.description);
    frontmatter := PushField(frontmatter, ps, "categoryKey", a.categoryKey);
    ps := ps + Opt("categoryKey", a.categoryKey);
    frontmatter := PushField(frontmatter, ps, "tag", a.tag);
    ps := ps + Opt("tag", a.tag);
    var badge := if a.badge.Some? then a.badge.value else [];
    frontmatter := PushField(frontmatter, ps, "badge", badge);
    ps := ps + Opt("badge", badge);
    frontmatter := PushField(frontmatter, ps, "date", a.date);
    ps := ps + Opt("date", a.date);
    frontmatter := PushField(frontmatter, ps, "platform", a.platform);
    ps := ps + Opt("platform", a.platform);
    frontmatter := PushField(frontmatter, ps, "cover", a.cover);
    ps := ps + Opt("cover", a.cover);
    if IdThrows(a) {
      return Err(NonStringId);
    }
    var articleId := if a.id.StrId? then a.id.s else [];
    frontmatter := PushField(frontmatter, ps, "articleId", articleId);
    ps := ps + Opt("articleId", articleId);
    assert ps == Emitted(a);
    r := Ok(Block(frontmatter) + Trim(a.content));
  }

  // ---------------------------------------------------------------------------------------
  // the round trip with parseFrontmatter

  /** The keys the exporter writes: no white space, no colon, not starting with `#` or `-`,
      and not the `__proto__` the parsed object cannot hold. */
  predicate IsKey(k: string) {
    k != [] && NoSpace(k) && Free(k, ':') && k[0] != '#' && k[0] != '-' && k != ProtoKey
  }

  /** An end character that survives: not white space, or a space (which forces quotes). */
  predicate EdgeSurvives(c: char) {
    !IsSpace(c) || c == ' '
  }

  /** A value that reads back as written: non-empty, one line, no `"`, no other white space at
      its ends, and not wrapped in single quotes. */
  predicate ExportSafe(v: string) {
    && v != [] && Free(v, '\n') && Free(v, '"')
    && EdgeSurvives(v[0]) && EdgeSurvives(v[|v| - 1])
    && !(v[0] == '\'' && v[|v| - 1] == '\'')
  }

  /** Every field the exporter would write is safe. */
  predicate ArticleExportSafe(a: Article) {
    forall i :: 0 <= i < |Keys| && Values(a)[i] != [] ==> ExportSafe(Values(a)[i])
  }

  /** ASCII letters only. */
  predicate IsLetters(k: string) {
    forall i :: 0 <= i < |k| ==> 'A' <= k[i] <= 'Z' || 'a' <= k[i] <= 'z'
  }

  lemma LettersAreKey(k: string)
    requires k != [] && IsLetters(k)
    ensures IsKey(k)
  {
  }

  lemma FieldKeys()
    ensures forall i :: 0 <= i < |Keys| ==> IsKey(Keys[i])
  {
    forall i | 0 <= i < |Keys| ensures IsKey(Keys[i]) {
      assert IsLetters(Keys[i]);
      LettersAreKey(Keys[i]);
    }
  }

  /** The escaped value of a safe value has no white space at its ends and no line feed. */
  lemma EscapedEnds(v: string)
    requires ExportSafe(v)
    ensures var e := EscapeYamlValue(v);
            e != [] && !IsSpace(e[0]) && !IsSpace(e[|e| - 1]) && Free(e, '\n')
            && StripQuotes(e) == v
  {
    if NeedsQuotes(v) {
      QuotedEnds(v);
    } else {
      PlainEnds(v);
    }
  }

  lemma QuotedEnds(v: string)
    requires ExportSafe(v) && NeedsQuotes(v)
    ensures var e := EscapeYamlValue(v);
            e == "\"" + v + "\"" && Free(e, '\n') && StripQuotes(e) == v
  {
    ReplaceAbsent(v, '"', "\\\"");
    StripOnePair(v);
  }

  lemma PlainEnds(v: string)
    requires ExportSafe(v) && !NeedsQuotes(v)
    ensures !IsSpace(v[0]) && !IsSpace(v[|v| - 1]) && StripQuotes(v) == v
  {
    assert !StartsWith(v, " ") && !EndsWith(v, " ");
    assert v[..1] == [v[0]] && v[|v| - 1..] == [v[|v| - 1]];
    assert !StartsWith(v, "\"") && !EndsWith(v, "\"");
  }

  /** A written line parses back to its key and value. */
  lemma LineParses(k: string, v: string)
    requires IsKey(k) && ExportSafe(v)
    ensures ParseLine(Line((k, v))) == Some((k, v))
  {
    var e := EscapeYamlValue(v);
    EscapedEnds(v);
    var t := Line((k, v));
    assert t == k + ": " + e;
    TrimOfTrimmed(t);
    assert t[..1] == [k[0]];
    OccursCharAt(t, ':', |k|);
    forall j | 0 <= j < |k| ensures !OccursAt(t, ":", j) {
      OccursCharAt(t, ':', j);
    }
    assert IndexOf(t, ":") == |k|;
    assert t[..|k|] == k;
    TrimOfTrimmed(k);
    assert t[|k| + 1..] == " " + e + [];
    TrimPadded(" ", e, []);
  }

  /** The object built from key/value pairs, a later key overwriting an earlier one. */
  function MapOf(ps: seq<(string, string)>): map<string, string> {
    if ps == [] then map[] else MapOf(ps[..|ps| - 1])[ps[|ps| - 1].0 := ps[|ps| - 1].1]
  }

  lemma {:induction false} MapOfLookup(ps: seq<(string, string)>)
    requires KeysFunctional(ps)
    ensures forall k :: k in MapOf(ps) <==> exists x :: x in ps && x.0 == k
    ensures forall x :: x in ps ==> MapOf(ps)[x.0] == x.1
    decreases |ps|
  {
    if ps != [] {
      var init := ps[..|ps| - 1];
      assert ps == init + [ps[|ps| - 1]];
      MapOfLookup(init);
    }
  }

  lemma {:induction false} FieldsOfLines(ps: seq<(string, string)>)
    requires forall x :: x in ps ==> IsKey(x.0) && ExportSafe(x.1)
    ensures FieldsOf(Lines(ps)) == MapOf(ps)
    decreases |ps|
  {
    if ps != [] {
      var init := ps[..|ps| - 1];
      var last := ps[|ps| - 1];
      LinesIndex(init);
      assert Lines(ps)[..|ps| - 1] == Lines(init);
      FieldsOfLines(init);
      LineParses(last.0, last.1);
    }
  }

  /** Lines that start with a key hold no `\n---`. */
  lemma {:induction false} JoinHasNoClosingLine(lines: seq<string>)
    requires forall i :: 0 <= i < |lines| ==> lines[i] != [] && Free(lines[i], '\n') && lines[i][0] != '-'
    ensures NoClosingLine(Join(lines, "\n"))
    ensures |lines| > 0 ==> Join(lines, "\n") != [] && Join(lines, "\n")[0] == lines[0][0]
    decreases |lines|
  {
    if |lines| > 1 {
      var s := Join(lines, "\n");
      var p := lines[0];
      var rest := Join(lines[1..], "\n");
      JoinHasNoClosingLine(lines[1..]);
      assert s == p + "\n" + rest;
      forall x: nat | x + 4 <= |s| ensures !OccursAt(s, "\n---", x) {
        if x < |p| {
          assert s[x..x + 4][0] == p[x];
        } else if x == |p| {
          assert s[x..x + 4][1] == rest[0];
        } else {
          assert s[x..x + 4] == rest[x - |p| - 1..x - |p| + 3];
          assert !OccursAt(rest, "\n---", x - |p| - 1);
        }
      }
    } else if |lines| == 1 {
      var s := lines[0];
      forall x: nat | x + 4 <= |s| ensures !OccursAt(s, "\n---", x) {
        assert s[x..x + 4][0] == s[x];
      }
    }
  }

  lemma LinesShape(ps: seq<(string, string)>)
    requires forall x :: x in ps ==> IsKey(x.0) && ExportSafe(x.1)
    ensures |Lines(ps)| == |ps|
    ensures forall i :: 0 <= i < |ps| ==>
      var l := Lines(ps)[i]; l != [] && Free(l, '\n') && l[0] != '-' && !IsSpace(l[0])
  {
    LinesIndex(ps);
    forall i | 0 <= i < |ps|
      ensures var l := Lines(ps)[i]; l != [] && Free(l, '\n') && l[0] != '-' && !IsSpace(l[0])
    {
      var x := ps[i];
      assert x in ps;
      EscapedEnds(x.1);
      var e := EscapeYamlValue(x.1);
      var l := Line(x);
      assert l == x.0 + ": " + e;
      assert l[0] == x.0[0];
    }
  }

  /** A block of safe lines in front of a body that starts with a non-space reads back as the
      fields and the body. */
  lemma BlockRoundTrip(ps: seq<(string, string)>, body: string)
    requires ps != [] && forall x :: x in ps ==> IsKey(x.0) && ExportSafe(x.1)
    requires body != [] && !IsSpace(body[0])
    ensures FrontmatterOf(Block(Lines(ps)) + body) == Parsed(MapOf(ps), body)
  {
    var lines := Lines(ps);
    LinesShape(ps);
    JoinHasNoClosingLine(lines);
    var header := Join(lines, "\n");
    assert Block(lines) + body == Fenced(header, body);
    MatchFenced(header, body);
    SplitJoin(lines, '\n');
    FieldsOfLines(ps);
  }

  /** Reading back what the exporter wrote gives each written field with its value, and the
      trimmed content as the body: when every written value is safe, the content is not
      blank, and (for an article with no fields) the content does not itself start with
      `---`. */
  lemma ExportRoundTrip(a: Article)
    requires !IdThrows(a) && ArticleExportSafe(a) && !IsBlank(a.content)
    requires Emitted(a) == [] ==> !StartsWith(Trim(a.content), "---")
    ensures FrontmatterOf(Document(Lines(Emitted(a)), a.content)) == Parsed(MapOf(Emitted(a)), Trim(a.content))
  {
    var ps := Emitted(a);
    var body := Trim(a.content);
    assert body != [] && !IsSpace(body[0]);
    if ps != [] {
      EmittedFields(a);
      FieldKeys();
      BlockRoundTrip(ps, body);
    } else {
      NoFenceNoFrontmatter(body);
    }
  }

  /** What the round trip gives, field by field: a truthy field comes back with its value, a
      falsy one is absent. */
  lemma ExportedFieldsReadBack(a: Article)
    ensures forall i :: 0 <= i < |Keys| ==>
      (Keys[i] in MapOf(Emitted(a)) <==> Values(a)[i] != [])
      && (Values(a)[i] != [] ==> MapOf(Emitted(a))[Keys[i]] == Values(a)[i])
  {
    EmittedFields(a);
    KeysDistinct();
    LookupByIndex(Emitted(a), Keys, Values(a));
  }

  lemma LookupByIndex(ps: seq<(string, string)>, keys: seq<string>, vals: seq<string>)
    requires |keys| == |vals| && KeysFunctional(ps)
    requires forall i, j :: 0 <= i < j < |keys| ==> keys[i] != keys[j]
    requires forall x :: x in ps <==> exists i :: 0 <= i < |keys| && vals[i] != [] && x == (keys[i], vals[i])
    ensures forall i :: 0 <= i < |keys| ==>
      (keys[i] in MapOf(ps) <==> vals[i] != []) && (vals[i] != [] ==> MapOf(ps)[keys[i]] == vals[i])
  {
    MapOfLookup(ps);
    forall i | 0 <= i < |keys|
      ensures (keys[i] in MapOf(ps) <==> vals[i] != []) && (vals[i] != [] ==> MapOf(ps)[keys[i]] == vals[i])
    {
      if keys[i] in MapOf(ps) {
        var x :| x in ps && x.0 == keys[i];
        var j :| 0 <= j < |keys| && vals[j] != [] && x == (keys[j], vals[j]);
        assert i == j;
      }
      if vals[i] != [] {
        assert (keys[i], vals[i]) in ps;
      }
    }
  }

  // ---------------------------------------------------------------------------------------
  // generateFilename

  /** Leading `-` characters dropped. */
  function DropDashes(s: string): (r: string)
    ensures |r| <= |s| && (r != [] ==> r[0] != '-')
    ensures forall i :: 0 <= i < |r| ==> r[i] in s
  {
    if s != [] && s[0] == '-' then DropDashes(s[1..]) else s
  }

  /** `.replace(/-+/g, '-')`: every run of `-` becomes one. */
  function CollapseDashes(s: string): (r: string)
    ensures s != [] ==> r != [] && r[0] == s[0]
    ensures forall i :: 0 <= i < |r| ==> r[i] in s
    decreases |s|
  {
    if s == [] then []
    else if s[0] == '-' then "-" + CollapseDashes(DropDashes(s[1..]))
    else [s[0]] + CollapseDashes(s[1..])
  }

  /** No two `-` in a row. */
  predicate NoDoubleDash(s: string) {
    forall i :: 0 <= i < |s| - 1 ==> !(s[i] == '-' && s[i + 1] == '-')
  }

  lemma {:induction false} CollapsedHasNoDoubleDash(s: string)
    ensures NoDoubleDash(CollapseDashes(s))
    decreases |s|
  {
    if s != [] {
      if s[0] == '-' {
        var d := DropDashes(s[1..]);
        CollapsedHasNoDoubleDash(d);
        var r := CollapseDashes(d);
        assert CollapseDashes(s) == "-" + r;
        assert r != [] ==> r[0] != '-';
      } else {
        CollapsedHasNoDoubleDash(s[1..]);
      }
    }
  }

  /** The title part of the file name. */
  function CleanTitle(title: string): string {
    Trim(CollapseDashes(ArticleMarkdown.CollapseSpaces(ArticleMarkdown.StripNonSlug(ToLower(title)))))
  }

  /** The title used when an article has none. */
  const Untitled: string := "untitled"

  /** `generateFilename(article)`, with today's date as an input: the date (or today), a `-`,
      and the cleaned title (or `untitled`). */
  function GenerateFilename(a: Article, today: string): string {
    var date := Or(a.date, today);
    var title := Or(a.title, Untitled);
    date + "-" + CleanTitle(title)
  }

  /** The cleaned title is lower case ASCII letters, digits, `_` and `-`, so no white space,
      and has no `--` run. */
  lemma CleanTitleShape(title: string)
    ensures ArticleMarkdown.IsSlugText(CleanTitle(title)) && NoDoubleDash(CleanTitle(title))
    ensures NoSpace(CleanTitle(title)) && ArticleMarkdown.NoUpper(CleanTitle(title))
  {
    var stripped := ArticleMarkdown.StripNonSlug(ToLower(title));
    var collapsed := ArticleMarkdown.CollapseSpaces(stripped);
    ArticleMarkdown.CollapseSlug(stripped);
    var r := CollapseDashes(collapsed);
    CollapsedHasNoDoubleDash(collapsed);
    assert ArticleMarkdown.IsSlugText(r) by {
      forall i | 0 <= i < |r| ensures ArticleMarkdown.IsSlugChar(r[i]) {
        var j :| 0 <= j < |collapsed| && collapsed[j] == r[i];
      }
    }
    ArticleMarkdown.SlugCharsAreFixed(r);
    TrimOfTrimmed(r);
  }

  lemma DashedPrefix(date: string, t: string)
    ensures StartsWith(date + "-" + t, date + "-")
  {
    assert (date + "-" + t)[..|date| + 1] == date + "-";
  }

  /** The name starts with the article's date, or with today's when it has none. */
  lemma FilenameDate(a: Article, today: string)
    ensures a.date == [] ==> StartsWith(GenerateFilename(a, today), today + "-")
    ensures a.date != [] ==> StartsWith(GenerateFilename(a, today), a.date + "-")
  {
    DashedPrefix(Or(a.date, today), CleanTitle(Or(a.title, Untitled)));
  }

  /** Without a title the name ends in `untitled`. */
  lemma UntitledFilename(a: Article, today: string)
    requires a.title == []
    ensures GenerateFilename(a, today) == Or(a.date, today) + "-" + Untitled
  {
    assert ArticleMarkdown.IsSlugText(Untitled) && Free(Untitled, '-');
    CleanWordIsFixed(Untitled);
  }

  /** A word of slug characters without `-` is its own cleaned title. */
  lemma CleanWordIsFixed(u: string)
    requires ArticleMarkdown.IsSlugText(u) && Free(u, '-')
    ensures CleanTitle(u) == u
  {
    ArticleMarkdown.SlugCharsAreFixed(u);
    ArticleMarkdown.StripKeeps(u);
    ArticleMarkdown.CollapseNoSpace(u);
    DashFreePrefix(u, []);
    assert u + [] == u;
    TrimOfTrimmed(u);
  }

  lemma {:induction false} DashFreePrefix(w: string, rest: string)
    requires Free(w, '-')
    ensures CollapseDashes(w + rest) == w + CollapseDashes(rest)
    decreases |w|
  {
    if w != [] {
      assert (w + rest)[1..] == w[1..] + rest;
      DashFreePrefix(w[1..], rest);
    } else {
      assert w + rest == rest;
    }
  }

  /** Each white space around a word becomes a `-`. */
  lemma SpacesAround(w: string)
    requires w != [] && ArticleMarkdown.IsSlugText(w) && Free(w, '-')
    ensures ArticleMarkdown.CollapseSpaces(ArticleMarkdown.StripNonSlug(ToLower(" " + w + " "))) == "-" + w + "-"
  {
    var s := " " + w + " ";
    ArticleMarkdown.SlugCharsAreFixed(w);
    assert ToLower(s) == s;
    ArticleMarkdown.StripKeeps(s);
    assert s[0] == ' ' && s[1..] == w + " ";
    assert TrimStart(w + " ") == w + " ";
    ArticleMarkdown.CollapseAfterWord(w, " ");
    assert ArticleMarkdown.CollapseSpaces(" ") == "-";
  }

  /** A dash-free word between two `-` has no run to collapse. */
  lemma DashesAround(w: string)
    requires w != [] && w[0] != '-' && Free(w, '-')
    ensures CollapseDashes("-" + w + "-") == "-" + w + "-"
  {
    var t := w + "-";
    var s := "-" + t;
    assert s == "-" + w + "-";
    assert s[0] == '-' && s[1..] == t;
    assert t[0] == w[0];
    assert DropDashes(t) == t;
    assert CollapseDashes(s) == "-" + CollapseDashes(t);
    DashFreePrefix(w, "-");
    assert CollapseDashes("-") == "-" by {
      assert "-"[1..] == [];
    }
  }

  /** White space around the title is not trimmed away but turned into dashes (the trim comes
      last), so the name holds `--` right after the date. */
  lemma PaddedTitleKeepsDashes(w: string)
    requires w != [] && ArticleMarkdown.IsSlugText(w) && Free(w, '-')
    ensures CleanTitle(" " + w + " ") == "-" + w + "-"
  {
    SpacesAround(w);
    DashesAround(w);
    TrimOfTrimmed("-" + w + "-");
  }
}
