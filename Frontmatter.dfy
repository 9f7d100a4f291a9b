/**
 * `src/utils/frontmatter.ts`: the `---` block parser, the filename helper and the description
 * extractor.  The regular expressions are written out as the searches the JavaScript engine
 * performs, with its backtracking order: greedy quantifiers try the longest run first, lazy
 * ones the shortest.
 */
module Frontmatter {
  import opened Wrappers
  import opened Text

  // ---------------------------------------------------------------------------------------
  // /^---\s*\n([\s\S]*?)\n---\s*\n([\s\S]*)$/

  /** The end of the white-space run that starts at `i`. */
  function SpaceRunEnd(s: string, i: nat): (r: nat)
    requires i <= |s|
    ensures i <= r <= |s|
    ensures forall k :: i <= k < r ==> IsSpace(s[k])
    ensures r < |s| ==> !IsSpace(s[r])
    decreases |s| - i
  {
    if i < |s| && IsSpace(s[i]) then SpaceRunEnd(s, i + 1) else i
  }

  /** The last line feed in `s[lo..hi]`. */
  function LastNewline(s: string, lo: nat, hi: nat): (r: Option<nat>)
    requires lo <= hi <= |s|
    ensures r.Some? ==> lo <= r.value < hi && s[r.value] == '\n'
    ensures r.Some? ==> forall k :: r.value < k < hi ==> s[k] != '\n'
    ensures r.None? ==> forall k :: lo <= k < hi ==> s[k] != '\n'
    decreases hi - lo
  {
    if hi == lo then None
    else if s[hi - 1] == '\n' then Some(hi - 1)
    else LastNewline(s, lo, hi - 1)
  }

  /** `\s*\n` at position `r`: the greedy `\s*` stops at the last line feed of the white-space
      run, which the `\n` then matches; `None` when the run holds no line feed. */
  function TailAt(s: string, r: nat): Option<nat>
    requires r <= |s|
  {
    LastNewline(s, r, SpaceRunEnd(s, r))
  }

  /** The lazy `([\s\S]*?)\n---\s*\n`: the first position `p` from which the closing line and
      its `\s*\n` match, with the position of that `\n`. */
  function FindClose(s: string, p: nat): (r: Option<(nat, nat)>)
    requires p <= |s|
    ensures r.Some? ==> p <= r.value.0 && r.value.0 + 4 <= r.value.1 < |s|
    decreases |s| - p
  {
    if OccursAt(s, "\n---", p) && TailAt(s, p + 4).Some? then Some((p, TailAt(s, p + 4).value))
    else if p == |s| then None
    else FindClose(s, p + 1)
  }

  /** The two groups of a match: the header lines and the body. */
  datatype BlockMatch = BlockMatch(header: string, body: string)

  /** The opening `\s*\n`, tried from its longest candidate down: each candidate line feed
      below `hi` that ends the opening run, until the rest of the pattern matches. */
  function OpenFrom(s: string, hi: nat): Option<BlockMatch>
    requires 3 <= hi <= |s|
    decreases hi
  {
    match LastNewline(s, 3, hi)
    case None => None
    case Some(j) =>
      match FindClose(s, j + 1)
      case Some((p, k)) => Some(BlockMatch(s[j + 1..p], s[k + 1..]))
      case None => OpenFrom(s, j)
  }

  /** `content.match(frontmatterRegex)` */
  function MatchBlock(s: string): Option<BlockMatch> {
    if StartsWith(s, "---") then OpenFrom(s, SpaceRunEnd(s, 3)) else None
  }

  /** The text `articleToMarkdown` writes around a header and a body. */
  function Fenced(header: string, body: string): string {
    "---\n" + header + "\n---\n\n" + body
  }

  /** No `\n---` inside `s`. */
  predicate NoClosingLine(s: string) {
    forall x: nat :: x + 4 <= |s| ==> !OccursAt(s, "\n---", x)
  }

  lemma {:induction false} FindCloseFirst(s: string, p: nat, q: nat)
    requires p <= q && q + 4 <= |s|
    requires forall x :: p <= x < q ==> !OccursAt(s, "\n---", x)
    requires OccursAt(s, "\n---", q) && TailAt(s, q + 4).Some?
    ensures FindClose(s, p) == Some((q, TailAt(s, q + 4).value))
    decreases q - p
  {
    if p < q {
      FindCloseFirst(s, p + 1, q);
    }
  }

  /** A header that starts with a non-space and holds no closing line, between the fences,
      matches with exactly that header and that body, as long as the body is empty or starts
      with a non-space. */
  lemma MatchFenced(header: string, body: string)
    requires header != [] && !IsSpace(header[0]) && NoClosingLine(header)
    requires body != [] ==> !IsSpace(body[0])
    ensures MatchBlock(Fenced(header, body)) == Some(BlockMatch(header, body))
  {
    var s := Fenced(header, body);
    var q := 4 + |header|;
    assert s[..3] == "---" && s[3] == '\n' && s[4] == header[0];
    OpeningLine(s);
    NoCloseInHeader(s, header);
    assert s[q..q + 4] == "\n---";
    assert s[q + 4] == '\n' && s[q + 5] == '\n';
    assert s[q + 6..] == body;
    ClosingLine(s, q);
    FindCloseFirst(s, 4, q);
    assert s[4..q] == header;
  }

  lemma OpeningLine(s: string)
    requires |s| > 4 && s[3] == '\n' && !IsSpace(s[4])
    ensures SpaceRunEnd(s, 3) == 4 && LastNewline(s, 3, 4) == Some(3)
  {
    assert SpaceRunEnd(s, 4) == 4;
  }

  lemma ClosingLine(s: string, q: nat)
    requires q + 6 <= |s| && s[q + 4] == '\n' && s[q + 5] == '\n'
    requires q + 6 < |s| ==> !IsSpace(s[q + 6])
    ensures TailAt(s, q + 4) == Some(q + 5)
  {
    assert SpaceRunEnd(s, q + 4) == q + 6 by {
      assert SpaceRunEnd(s, q + 6) == q + 6;
      assert SpaceRunEnd(s, q + 5) == q + 6;
    }
    assert LastNewline(s, q + 4, q + 6) == Some(q + 5);
  }

  lemma NoCloseInHeader(s: string, header: string)
    requires NoClosingLine(header)
    requires |s| >= |header| + 8 && s[4..4 + |header|] == header && s[4 + |header|] == '\n'
    ensures forall x :: 4 <= x < 4 + |header| ==> !OccursAt(s, "\n---", x)
  {
    var q := 4 + |header|;
    forall x | 4 <= x < q ensures !OccursAt(s, "\n---", x) {
      if x + 4 <= q {
        var w, h := s[x..x + 4], header[x - 4..x];
        forall j | 0 <= j < 4 ensures w[j] == h[j] {
          assert s[x + j] == s[4..4 + |header|][x - 4 + j];
        }
        assert s[x..x + 4] == header[x - 4..x];
        assert !OccursAt(header, "\n---", x - 4);
      } else {
        assert s[x..x + 4][q - x] == s[q] == '\n';
      }
    }
  }

  // ---------------------------------------------------------------------------------------
  // the key: value lines

  /** `value.slice(1, -1)` after a matching outer pair of `"` or `'`. */
  function StripQuotes(v: string): string {
    if (StartsWith(v, "\"") && EndsWith(v, "\"")) || (StartsWith(v, "'") && EndsWith(v, "'")) then
      (if |v| >= 2 then v[1..|v| - 1] else [])
    else v
  }

  /** Exactly one outer pair of double quotes is removed, and nothing inside is unescaped. */
  lemma StripOnePair(v: string)
    ensures StripQuotes("\"" + v + "\"") == v
  {
    var w := "\"" + v + "\"";
    assert w[..1] == "\"" && w[|w| - 1..] == "\"";
    assert w[1..|w| - 1] == v;
  }

  /** The key and value of one header line, or `None` for a skipped line. */
  function ParseLine(line: string): Option<(string, string)> {
    var t := Trim(line);
    if t == [] || StartsWith(t, "#") then None
    else
      var colon := IndexOf(t, ":");
      if colon > 0 then Some((Trim(t[..colon]), StripQuotes(Trim(t[colon + 1..])))) else None
  }

  /** The key a plain object `{}` does not store: `obj['__proto__'] = value` calls the
      inherited setter, which ignores a string. */
  const ProtoKey := "__proto__"

  /** `frontmatter[key] = value` on the plain object. */
  function Assign(m: map<string, string>, k: string, v: string): map<string, string> {
    if k == ProtoKey then m else m[k := v]
  }

  /** The frontmatter object after the lines, a later key overwriting an earlier one. */
  function FieldsOf(lines: seq<string>): map<string, string> {
    if lines == [] then map[]
    else
      var m := FieldsOf(lines[..|lines| - 1]);
      match ParseLine(lines[|lines| - 1])
      case Some((k, v)) => Assign(m, k, v)
      case None => m
  }

  /** The last line that sets a key decides its value, and every other key keeps its value; a
      `__proto__` line sets nothing. */
  lemma LaterKeyWins(lines: seq<string>, line: string, k: string, v: string)
    requires ParseLine(line) == Some((k, v))
    ensures k != ProtoKey ==> FieldsOf(lines + [line]) == FieldsOf(lines)[k := v]
    ensures k == ProtoKey ==> FieldsOf(lines + [line]) == FieldsOf(lines)
  {
    assert (lines + [line])[..|lines|] == lines;
  }

  /** No header line ever puts `__proto__` among the fields. */
  lemma {:induction false} NoProtoField(lines: seq<string>)
    ensures ProtoKey !in FieldsOf(lines)
    decreases |lines|
  {
    if lines != [] {
      NoProtoField(lines[..|lines| - 1]);
    }
  }

  /** A skipped line leaves the object as it was. */
  lemma SkippedLine(lines: seq<string>, line: string)
    requires var t := Trim(line); t == [] || StartsWith(t, "#") || IndexOf(t, ":") <= 0
    ensures FieldsOf(lines + [line]) == FieldsOf(lines)
  {
    assert (lines + [line])[..|lines|] == lines;
  }

  /** Lines without a colon, or whose colon comes first, are ignored. */
  lemma NoKeyNoField(line: string)
    requires Free(Trim(line), ':') || (Trim(line) != [] && Trim(line)[0] == ':')
    ensures ParseLine(line) == None
  {
    var t := Trim(line);
    if Free(t, ':') {
      forall j | 0 <= j <= |t| - 1 ensures !OccursAt(t, ":", j) {
        OccursCharAt(t, ':', j);
      }
    } else {
      OccursCharAt(t, ':', 0);
    }
  }

  /** `parseFrontmatter`'s result. */
  datatype Parsed = Parsed(frontmatter: map<string, string>, body: string)

  /** What `parseFrontmatter` returns: the fields of the header lines and the body when the
      block matches with a non-empty header and a non-empty body; otherwise no fields and the
      content unchanged. */
  function FrontmatterOf(content: string): Parsed {
    match MatchBlock(content)
    case Some(m) =>
      if m.header != [] && m.body != [] then Parsed(FieldsOf(Split(m.header, "\n")), m.body)
      else Parsed(map[], content)
    case None => Parsed(map[], content)
  }

  /** Whatever the content, `parseFrontmatter`'s object has no `__proto__` field. */
  lemma ParsedHasNoProtoField(content: string)
    ensures ProtoKey !in FrontmatterOf(content).frontmatter
  {
    var m := MatchBlock(content);
    if m.Some? && m.value.header != [] && m.value.body != [] {
      NoProtoField(Split(m.value.header, "\n"));
    }
  }

  /** Without the opening `---` there is no frontmatter, and the body is the content. */
  lemma NoFenceNoFrontmatter(content: string)
    requires !StartsWith(content, "---")
    ensures FrontmatterOf(content) == Parsed(map[], content)
  {
  }

  /** An empty body after the closing `---` means no frontmatter is taken. */
  lemma EmptyBodyNotTaken(header: string)
    requires header != [] && !IsSpace(header[0]) && NoClosingLine(header)
    ensures FrontmatterOf(Fenced(header, [])) == Parsed(map[], Fenced(header, []))
  {
    MatchFenced(header, []);
  }

  /** The loop of `parseFrontmatter` over the header lines. */
  method ParseHeaderLines(lines: seq<string>) returns (frontmatter: map<string, string>)
    ensures frontmatter == FieldsOf(lines)
  {
    frontmatter := map[];
    var i := 0;
    while i < |lines|
      invariant 0 <= i <= |lines|
      invariant frontmatter == FieldsOf(lines[..i])
    {
      assert lines[..i + 1][..i] == lines[..i] && lines[..i + 1][i] == lines[i];
      frontmatter := ParseHeaderLine(frontmatter, lines[i]);
      i := i + 1;
    }
    assert lines[..|lines|] == lines;
  }

  /** One turn of that loop: a `key: value` line sets the key, unless the key is `__proto__`;
      any other line is skipped. */
  method ParseHeaderLine(frontmatter: map<string, string>, line: string) returns (r: map<string, string>)
    ensures match ParseLine(line)
            case Some((k, v)) => r == Assign(frontmatter, k, v)
            case None => r == frontmatter
  {
    r := frontmatter;
    var kv := SplitHeaderLine(line);
    if kv.Some? {
      var (key, value) := kv.value;
      if key != ProtoKey {
        r := r[key := value];
      }
    }
  }

  /** The trimming, comment test, colon search and quote removal of one header line. */
  method SplitHeaderLine(line: string) returns (kv: Option<(string, string)>)
    ensures kv == ParseLine(line)
  {
    kv := None;
    var trimmed := Trim(line);
    if trimmed != [] && !StartsWith(trimmed, "#") {
      var colonIndex := IndexOf(trimmed, ":");
      if colonIndex > 0 {
        var key := Trim(trimmed[..colonIndex]);
        var value := Trim(trimmed[colonIndex + 1..]);
        if (StartsWith(value, "\"") && EndsWith(value, "\"")) || (StartsWith(value, "'") && EndsWith(value, "'")) {
          value := if |value| >= 2 then value[1..|value| - 1] else [];
        }
        kv := Some((key, value));
      }
    }
  }

  /** `parseFrontmatter(content)` */
  method ParseFrontmatter(content: string) returns (r: Parsed)
    ensures r == FrontmatterOf(content)
  {
    var m := MatchBlock(content);
    if m.Some? && m.value.header != [] && m.value.body != [] {
      var frontmatter := ParseHeaderLines(Split(m.value.header, "\n"));
      r := Parsed(frontmatter, m.value.body);
    } else {
      r := Parsed(map[], content);
    }
  }

  // ---------------------------------------------------------------------------------------
  // extractInfoFromFilename

  /** What the filename tells: a date, if it has the `YYYY-MM-DD-` prefix, and a title. */
  datatype FileInfo = FileInfo(date: Option<string>, title: string)

  /** `filename.replace(/\.md$/, '')` */
  function WithoutMd(filename: string): string {
    if EndsWith(filename, ".md") then filename[..|filename| - 3] else filename
  }

  /** The characters `.` does not match. */
  predicate IsLineTerminator(c: char) {
    c == '\n' || c == '\r' || c == '\U{2028}' || c == '\U{2029}'
  }

  /** `\d{4}-\d{2}-\d{2}` */
  predicate IsDate(d: string) {
    && |d| == 10
    && IsDigit(d[0]) && IsDigit(d[1]) && IsDigit(d[2]) && IsDigit(d[3]) && d[4] == '-'
    && IsDigit(d[5]) && IsDigit(d[6]) && d[7] == '-' && IsDigit(d[8]) && IsDigit(d[9])
  }

  /** `/^(\d{4}-\d{2}-\d{2})-(.+)$/` */
  predicate IsDatedName(name: string) {
    |name| >= 12 && IsDate(name[..10]) && name[10] == '-'
    && forall k :: 11 <= k < |name| ==> !IsLineTerminator(name[k])
  }

  function ExtractInfoFromFilename(filename: string): FileInfo {
    var name := WithoutMd(filename);
    if IsDatedName(name) then FileInfo(Some(name[..10]), ReplaceChar(name[11..], '-', " "))
    else FileInfo(None, ReplaceChar(name, '-', " "))
  }

  /** `YYYY-MM-DD-rest.md` gives the date and the rest with its dashes turned into spaces. */
  lemma DatedFilename(date: string, rest: string)
    requires IsDate(date) && rest != []
    requires forall k :: 0 <= k < |rest| ==> !IsLineTerminator(rest[k])
    ensures ExtractInfoFromFilename(date + "-" + rest + ".md") == FileInfo(Some(date), ReplaceChar(rest, '-', " "))
  {
    var name := date + "-" + rest;
    MdStripped(name);
    DatedName(date, rest);
  }

  lemma MdStripped(name: string)
    ensures WithoutMd(name + ".md") == name
  {
    var f := name + ".md";
    assert f[..|f| - 3] == name && f[|f| - 3..] == ".md";
  }

  lemma DatedName(date: string, rest: string)
    requires IsDate(date) && rest != []
    requires forall k :: 0 <= k < |rest| ==> !IsLineTerminator(rest[k])
    ensures var name := date + "-" + rest; IsDatedName(name) && name[..10] == date && name[11..] == rest
  {
    var name := date + "-" + rest;
    assert name[..10] == date && name[10] == '-' && name[11..] == rest;
    forall k | 11 <= k < |name| ensures !IsLineTerminator(name[k]) {
      assert name[k] == rest[k - 11];
    }
  }

  /** Any other name gives no date, and a title without dashes. */
  lemma UndatedFilename(filename: string)
    requires !IsDatedName(WithoutMd(filename))
    ensures var info := ExtractInfoFromFilename(filename);
            info.date == None && Free(info.title, '-')
            && info.title == ReplaceChar(WithoutMd(filename), '-', " ")
  {
  }

  // ---------------------------------------------------------------------------------------
  // extractDescription

  /** `^` with the `m` flag: the start of the text or of a line. */
  predicate LineStart(s: string, i: nat)
    requires i <= |s|
  {
    i == 0 || IsLineTerminator(s[i - 1])
  }

  /** The end of the line that position `i` is on. */
  function LineEnd(s: string, i: nat): (r: nat)
    requires i <= |s|
    ensures i <= r <= |s| && (r < |s| ==> IsLineTerminator(s[r]))
    ensures forall k :: i <= k < r ==> !IsLineTerminator(s[k])
    decreases |s| - i
  {
    if i == |s| || IsLineTerminator(s[i]) then i else LineEnd(s, i + 1)
  }

  function HashRunEnd(s: string, i: nat): (r: nat)
    requires i <= |s|
    ensures i <= r <= |s| && (r < |s| ==> s[r] != '#')
    decreases |s| - i
  {
    if i < |s| && s[i] == '#' then HashRunEnd(s, i + 1) else i
  }

  /** `#+\s+.*$` at position `i`: the end of the match.  `\s+` may run over line feeds, so the
      match ends on the line of the first non-space after the hashes. */
  function HeadingMatchAt(s: string, i: nat): (r: Option<nat>)
    requires i <= |s|
    ensures r.Some? ==> i < r.value <= |s|
  {
    if i < |s| && s[i] == '#' then
      var h := HashRunEnd(s, i);
      var e := SpaceRunEnd(s, h);
      if e > h then Some(LineEnd(s, e)) else None
    else None
  }

  /** `s.replace(/^#+\s+.*$/gm, '')` on `s[i..]`. */
  function StripHeadings(s: string, i: nat): string
    requires i <= |s|
    decreases |s| - i
  {
    if i == |s| then []
    else if LineStart(s, i) && HeadingMatchAt(s, i).Some? then StripHeadings(s, HeadingMatchAt(s, i).value)
    else [s[i]] + StripHeadings(s, i + 1)
  }

  /** A heading line `# Title` goes, its line feed stays. */
  lemma HeadingLineGoes(s: string, e: nat)
    requires 2 < e < |s| && s[0] == '#' && s[1] == ' ' && !IsSpace(s[2]) && IsLineTerminator(s[e])
    requires forall k :: 2 <= k < e ==> !IsLineTerminator(s[k])
    ensures StripHeadings(s, 0) == StripHeadings(s, e)
  {
    HeadingMatchLine(s, e);
  }

  lemma HeadingMatchLine(s: string, e: nat)
    requires 2 < e < |s| && s[0] == '#' && s[1] == ' ' && !IsSpace(s[2]) && IsLineTerminator(s[e])
    requires forall k :: 2 <= k < e ==> !IsLineTerminator(s[k])
    ensures HeadingMatchAt(s, 0) == Some(e)
  {
    assert HashRunEnd(s, 0) == 1 by {
      assert HashRunEnd(s, 1) == 1;
    }
    assert SpaceRunEnd(s, 1) == 2 by {
      assert SpaceRunEnd(s, 2) == 2;
    }
    assert LineEnd(s, 2) == e;
  }

  /** A `#` line followed by a blank line takes the next paragraph with it: `\s+` runs over the
      line feeds and `.*` over the paragraph's first line. */
  lemma BareHashTakesNextLine()
    ensures StripHeadings("#\n\nText", 0) == []
  {
    var s := "#\n\nText";
    assert HashRunEnd(s, 1) == 1;
    assert SpaceRunEnd(s, 3) == 3;
    assert SpaceRunEnd(s, 1) == 3;
    assert LineEnd(s, 7) == 7;
    assert LineEnd(s, 3) == 7;
  }

  /** A paragraph that, trimmed, is not empty and does not start a fence. */
  predicate IsCandidate(part: string) {
    Trim(part) != [] && !StartsWith(Trim(part), "```")
  }

  /** The first candidate paragraph, trimmed. */
  function FirstCandidate(parts: seq<string>): (r: Option<string>)
    ensures r.Some? <==> exists k :: 0 <= k < |parts| && IsCandidate(parts[k])
    ensures r.Some? ==> exists k :: 0 <= k < |parts| && IsCandidate(parts[k]) && r.value == Trim(parts[k])
                          && forall j :: 0 <= j < k ==> !IsCandidate(parts[j])
  {
    if parts == [] then None
    else
      var p := Trim(parts[0]);
      if IsCandidate(parts[0]) then Some(p)
      else
        var r := FirstCandidate(parts[1..]);
        assert forall k :: 1 <= k < |parts| ==> parts[k] == parts[1..][k - 1];
        r
  }

  /** The first occurrence of `c` at or after `i`, or `|s|`. */
  function FindCharFrom(s: string, c: char, i: nat): (r: nat)
    requires i <= |s|
    ensures i <= r <= |s| && (r < |s| ==> s[r] == c)
    ensures forall k :: i <= k < r ==> s[k] != c
    decreases |s| - i
  {
    if i == |s| || s[i] == c then i else FindCharFrom(s, c, i + 1)
  }

  /** `w` copies of `c` start at `i`. */
  predicate RunAt(s: string, c: char, i: nat, w: nat) {
    i + w <= |s| && forall k :: i <= k < i + w ==> s[k] == c
  }

  /** `s.replace(/D([^c]+)D/g, '$1')` on `s[i..]`, where the delimiter D is `w` copies of `c`:
      `**…**` with `*` and 2, `*…*` with `*` and 1, `` `…` `` with a backtick and 1. */
  function Unwrap(s: string, c: char, w: nat, i: nat): (r: string)
    requires w >= 1 && i <= |s|
    ensures |r| <= |s| - i
    decreases |s| - i
  {
    if i == |s| then []
    else if RunAt(s, c, i, w) && FindCharFrom(s, c, i + w) > i + w && RunAt(s, c, FindCharFrom(s, c, i + w), w) then
      var j := FindCharFrom(s, c, i + w);
      s[i + w..j] + Unwrap(s, c, w, j + w)
    else [s[i]] + Unwrap(s, c, w, i + 1)
  }

  /** `s.replace(/\[([^\]]+)\]\([^\)]+\)/g, '$1')` on `s[i..]`: a link becomes its text. */
  function UnwrapLinks(s: string, i: nat): (r: string)
    requires i <= |s|
    ensures |r| <= |s| - i
    decreases |s| - i
  {
    if i == |s| then []
    else
      var j := FindCharFrom(s, ']', i + 1);
      if s[i] == '[' && j > i + 1 && j + 1 < |s| && s[j + 1] == '(' && i + 1 < j
         && j + 2 < FindCharFrom(s, ')', j + 2) < |s| then
        s[i + 1..j] + UnwrapLinks(s, FindCharFrom(s, ')', j + 2) + 1)
      else [s[i]] + UnwrapLinks(s, i + 1)
  }

  lemma {:induction false} UnwrapPlain(s: string, c: char, w: nat, i: nat)
    requires w >= 1 && i <= |s| && Free(s, c)
    ensures Unwrap(s, c, w, i) == s[i..]
    decreases |s| - i
  {
    if i < |s| {
      assert s[i] != c;
      assert !RunAt(s, c, i, w);
      UnwrapPlain(s, c, w, i + 1);
      assert s[i..] == [s[i]] + s[i + 1..];
    }
  }

  lemma {:induction false} UnwrapLinksPlain(s: string, i: nat)
    requires i <= |s| && Free(s, '[')
    ensures UnwrapLinks(s, i) == s[i..]
    decreases |s| - i
  {
    if i < |s| {
      UnwrapLinksPlain(s, i + 1);
      assert s[i..] == [s[i]] + s[i + 1..];
    }
  }

  /** The markdown markers removed from the description: links, bold, italic, code. */
  function Unmark(p: string): (r: string)
    ensures |r| <= |p|
  {
    var links := UnwrapLinks(p, 0);
    var bold := Unwrap(links, '*', 2, 0);
    var italic := Unwrap(bold, '*', 1, 0);
    Unwrap(italic, '`', 1, 0)
  }

  /** `substring(0, n)` */
  function Take(s: string, n: nat): (r: string)
    ensures |r| <= n && |r| <= |s|
  {
    if |s| <= n then s else s[..n]
  }

  /** The body, without heading lines, split at blank lines. */
  function Paragraphs(content: string): seq<string> {
    Split(StripHeadings(FrontmatterOf(content).body, 0), "\n\n")
  }

  /** `extractDescription(content)`: the first paragraph of the body that is not a heading line
      and not a fence, without its markdown markers, trimmed and cut to 150 characters; `''`
      when there is none. */
  function ExtractDescription(content: string): (r: string)
    ensures |r| <= 150
  {
    match FirstCandidate(Paragraphs(content))
    case None => []
    case Some(p) => Take(Trim(Unmark(p)), 150)
  }

  /** Without a paragraph to take the description is empty. */
  lemma NoParagraphNoDescription(content: string)
    requires forall k :: 0 <= k < |Paragraphs(content)| ==> !IsCandidate(Paragraphs(content)[k])
    ensures ExtractDescription(content) == []
  {
  }

  /** A first paragraph without markdown markers and of at most 150 characters is the
      description as it stands. */
  lemma PlainParagraphIsDescription(content: string, p: string)
    requires FirstCandidate(Paragraphs(content)) == Some(p)
    requires Free(p, '[') && Free(p, '*') && Free(p, '`') && |p| <= 150
    ensures ExtractDescription(content) == p
  {
    UnwrapLinksPlain(p, 0);
    UnwrapPlain(p, '*', 2, 0);
    UnwrapPlain(p, '*', 1, 0);
    UnwrapPlain(p, '`', 1, 0);
    assert Unmark(p) == p;
    TrimOfTrimmed(p);
  }
}
