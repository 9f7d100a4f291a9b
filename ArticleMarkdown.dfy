/**
 * The Markdown render side-channel of src/composables/useArticleMarkdown.ts: heading slugs and
 * ids, the table of contents, the plain text of a heading's inline tokens, and the fence
 * classifier that markdown-it calls as `highlight`.
 *
 * markdown-it's tokenizer and its default rules are not part of this model: a document is the
 * block-token stream the tokenizer produces. The rendered HTML is a sequence of pieces: the
 * opening heading tag that the overridden `heading_open` rule writes, with its id; for a fence,
 * the string `highlight` returns, before markdown-it's default fence rule wraps it (in
 * `<pre><code class="language-…">…</code></pre>` when it does not start with `<pre`, as the
 * diagram placeholders do not, else with a trailing line feed); and every other token, left to
 * markdown-it's default rendering.
 */
module ArticleMarkdown {
  import opened Wrappers
  import opened Text
  import opened Html

  // ---------------------------------------------------------------------------------------
  // slugify

  /** The characters a slug can hold: what `\w` keeps after lower-casing, and `-`. */
  predicate IsSlugChar(c: char) {
    ('a' <= c <= 'z') || ('0' <= c <= '9') || c == '_' || c == '-'
  }

  predicate IsSlugText(s: string) {
    forall i :: 0 <= i < |s| ==> IsSlugChar(s[i])
  }

  /** No ASCII capital letter. */
  predicate NoUpper(s: string) {
    forall i :: 0 <= i < |s| ==> !('A' <= s[i] <= 'Z')
  }

  /** What `[^\w\s-]` does not match. */
  predicate Keepable(c: char) {
    IsWordChar(c) || IsSpace(c) || c == '-'
  }

  /** Slug characters and white space only. */
  predicate SlugOrSpace(s: string) {
    forall i :: 0 <= i < |s| ==> IsSlugChar(s[i]) || IsSpace(s[i])
  }

  /** `.replace(/[^\w\s-]/g, '')` */
  function StripNonSlug(s: string): (r: string)
    ensures forall i :: 0 <= i < |r| ==> Keepable(r[i])
    ensures NoUpper(s) ==> SlugOrSpace(r)
  {
    if s == [] then []
    else (if Keepable(s[0]) then [s[0]] else []) + StripNonSlug(s[1..])
  }

  /** `.replace(/\s+/g, '-')`: every maximal run of white space becomes one `-`. */
  function CollapseSpaces(s: string): string
    decreases |s|
  {
    if s == [] then []
    else if IsSpace(s[0]) then "-" + CollapseSpaces(TrimStart(s[1..]))
    else [s[0]] + CollapseSpaces(s[1..])
  }

  lemma {:induction false} CollapseRunSlug(s: string)
    requires SlugOrSpace(s) && s != [] && IsSpace(s[0])
    ensures IsSlugText(CollapseSpaces(s))
    decreases |s|, 0
  {
    var t := TrimStart(s[1..]);
    TrimStartSuffix(s[1..]);
    assert SlugOrSpace(t);
    CollapseSlug(t);
  }

  /** Collapsing white space in slug characters and white space leaves slug characters. */
  lemma {:induction false} CollapseSlug(s: string)
    requires SlugOrSpace(s)
    ensures IsSlugText(CollapseSpaces(s))
    decreases |s|, 1
  {
    if s != [] {
      if IsSpace(s[0]) {
        CollapseRunSlug(s);
      } else {
        CollapseSlug(s[1..]);
      }
    }
  }

  /** `slugify(text)`: lower-case, trim, drop what is not `\w`, white space or `-`, then turn
      white-space runs into `-`. */
  function Slugify(text: string): string {
    CollapseSpaces(StripNonSlug(Trim(ToLower(text))))
  }

  /** A slug only holds lower-case ASCII letters, digits, `_` and `-`: `\w` is ASCII, so
      letters outside ASCII never reach an id. */
  lemma SlugifyIsSlug(text: string)
    ensures IsSlugText(Slugify(text))
  {
    var lowered := Trim(ToLower(text));
    TrimSlice(ToLower(text));
    assert NoUpper(lowered);
    CollapseSlug(StripNonSlug(lowered));
  }

  lemma {:induction false} StripKeeps(s: string)
    requires forall i :: 0 <= i < |s| ==> Keepable(s[i])
    ensures StripNonSlug(s) == s
  {
    if s != [] {
      StripKeeps(s[1..]);
    }
  }

  lemma {:induction false} StripDropsAll(s: string)
    requires forall i :: 0 <= i < |s| ==> !Keepable(s[i])
    ensures StripNonSlug(s) == []
  {
    if s != [] {
      StripDropsAll(s[1..]);
    }
  }

  lemma {:induction false} CollapseNoSpace(s: string)
    requires NoSpace(s)
    ensures CollapseSpaces(s) == s
  {
    if s != [] {
      CollapseNoSpace(s[1..]);
    }
  }

  lemma {:induction false} CollapseAfterWord(a: string, rest: string)
    requires NoSpace(a)
    ensures CollapseSpaces(a + rest) == a + CollapseSpaces(rest)
  {
    if a != [] {
      assert (a + rest)[1..] == a[1..] + rest;
      CollapseAfterWord(a[1..], rest);
    } else {
      assert a + rest == rest;
    }
  }

  lemma SlugCharsAreFixed(s: string)
    requires IsSlugText(s)
    ensures ToLower(s) == s && NoSpace(s)
    ensures forall i :: 0 <= i < |s| ==> Keepable(s[i])
  {
  }

  /** A string that is already a slug slugs to itself. */
  lemma SlugTextIsFixed(s: string)
    requires IsSlugText(s)
    ensures Slugify(s) == s
  {
    SlugCharsAreFixed(s);
    TrimOfTrimmed(s);
    StripKeeps(s);
    CollapseNoSpace(s);
  }

  /** Slugging a slug changes nothing. */
  lemma SlugifyIdempotent(text: string)
    ensures Slugify(Slugify(text)) == Slugify(text)
  {
    SlugifyIsSlug(text);
    SlugTextIsFixed(Slugify(text));
  }

  /** Text with no ASCII word character, no `-` and no white space (a heading in CJK
      characters, say) slugs to the empty string. */
  lemma SlugifyDropsNonAscii(text: string)
    requires forall i :: 0 <= i < |text| ==> !IsWordChar(text[i]) && text[i] != '-' && !IsSpace(text[i])
    ensures Slugify(text) == []
  {
    assert ToLower(text) == text;
    TrimOfTrimmed(text);
    StripDropsAll(text);
  }

  lemma WordsAroundSpaceAreFixed(a: string, w: string, b: string)
    requires IsSlugText(a) && IsSlugText(b) && a != [] && b != []
    requires AllSpace(w)
    ensures var s := a + w + b;
            && ToLower(s) == s
            && s[0] == a[0] && s[|s| - 1] == b[|b| - 1]
            && forall i :: 0 <= i < |s| ==> Keepable(s[i])
  {
    var s := a + w + b;
    forall i | 0 <= i < |s|
      ensures LowerChar(s[i]) == s[i]
      ensures Keepable(s[i])
    {
      if i < |a| {
        assert s[i] == a[i];
      } else if i < |a| + |w| {
        assert s[i] == w[i - |a|];
      } else {
        assert s[i] == b[i - |a| - |w|];
      }
    }
  }

  lemma CollapseWords(a: string, w: string, b: string)
    requires IsSlugText(a) && IsSlugText(b)
    requires w != [] && AllSpace(w)
    ensures CollapseSpaces(a + w + b) == a + "-" + b
  {
    SlugCharsAreFixed(a);
    SlugCharsAreFixed(b);
    assert a + w + b == a + (w + b);
    CollapseAfterWord(a, w + b);
    CollapseRun(w, b);
  }

  lemma CollapseRun(w: string, b: string)
    requires w != [] && AllSpace(w) && NoSpace(b)
    ensures CollapseSpaces(w + b) == "-" + b
  {
    var t := w + b;
    assert t[0] == w[0];
    assert IsSpace(t[0]);
    assert t[1..] == w[1..] + b;
    assert AllSpace(w[1..]);
    TrimStartPadded(w[1..], b);
    CollapseNoSpace(b);
  }

  /** A run of white space between two words becomes exactly one `-`. */
  lemma SlugifyJoinsWords(a: string, w: string, b: string)
    requires IsSlugText(a) && IsSlugText(b) && a != [] && b != []
    requires w != [] && AllSpace(w)
    ensures Slugify(a + w + b) == a + "-" + b
  {
    var s := a + w + b;
    WordsAroundSpaceAreFixed(a, w, b);
    assert !IsSpace(s[0]) && !IsSpace(s[|s| - 1]);
    TrimOfTrimmed(s);
    StripKeeps(s);
    CollapseWords(a, w, b);
  }

  // ---------------------------------------------------------------------------------------
  // heading ids

  /** A value the counter object `headingCount` holds or inherits: `undefined`, a number, a
      string, one of the built-in functions `Object.prototype` carries (by the text it prints
      as), or `Object.prototype` itself. */
  datatype JsValue = Undefined | Number(n: nat) | JsString(s: string) | NativeFunction(source: string) | ObjectPrototype

  /** How V8 prints the built-in function called `name`. */
  function NativeSource(name: string): string {
    "function " + name + "() { [native code] }"
  }

  /** How V8 prints the function `Object`. */
  const ObjectSource: string := "function Object() { [native code] }"

  /** The methods every plain object inherits from `Object.prototype`, besides `constructor`. */
  const PrototypeMethods: set<string> :=
    {"hasOwnProperty", "isPrototypeOf", "propertyIsEnumerable", "toString", "valueOf", "toLocaleString",
     "__defineGetter__", "__defineSetter__", "__lookupGetter__", "__lookupSetter__"}

  /** What `{}[key]` gives: `constructor` is the function `Object`, `__proto__` is
      `Object.prototype`, the other inherited methods are themselves, anything else is
      `undefined`. */
  function Inherited(key: string): JsValue {
    if key == "__proto__" then ObjectPrototype
    else if key == "constructor" then NativeFunction(ObjectSource)
    else if key in PrototypeMethods then NativeFunction(NativeSource(key))
    else Undefined
  }

  /** Truthiness, as `||` and `?:` test it. */
  predicate Truthy(v: JsValue) {
    match v
    case Undefined => false
    case Number(n) => n != 0
    case JsString(s) => s != ""
    case _ => true
  }

  /** The text a template literal or a string concatenation makes of a value. */
  function JsToString(v: JsValue): string {
    match v
    case Undefined => "undefined"
    case Number(n) => NatToString(n)
    case JsString(s) => s
    case NativeFunction(source) => source
    case ObjectPrototype => "[object Object]"
  }

  /** `headingCount[key]` on the object made by `{}` with own properties `counts`: an own
      property, else an inherited one; `__proto__` is an accessor of `Object.prototype` that
      reads the object's prototype. */
  function CounterRead(counts: map<string, JsValue>, key: string): JsValue {
    if key == "__proto__" then ObjectPrototype
    else if key in counts then counts[key]
    else Inherited(key)
  }

  /** `headingCount[key] = v` for a number or a string `v`: an own property is written, except
      that the `__proto__` setter ignores a value that is not an object. */
  function CounterWrite(counts: map<string, JsValue>, key: string, v: JsValue): map<string, JsValue>
    requires v.Number? || v.JsString?
  {
    if key == "__proto__" then counts else counts[key := v]
  }

  /** `headingCount[baseId] || 0` */
  function OrZero(v: JsValue): (r: JsValue)
  {
    if Truthy(v) then v else Number(0)
  }

  /** `count + 1`: addition on a number, concatenation with `"1"` on anything else. */
  function PlusOne(v: JsValue): (r: JsValue)
  {
    if v.Number? then Number(v.n + 1) else JsString(JsToString(v) + "1")
  }

  /** `count ? `${baseId}-${count}` : baseId` */
  function IdOf(base: string, count: JsValue): string {
    if Truthy(count) then base + "-" + JsToString(count) else base
  }

  /** `n` copies of the digit `1`. */
  function Ones(n: nat): (r: string)
    ensures |r| == n && forall i :: 0 <= i < n ==> r[i] == '1'
  {
    seq(n, _ => '1')
  }

  /** What `headingCount[base]` reads once `n` headings with base `base` went through the
      counter: `__proto__` always reads the prototype; another inherited key first reads its
      inherited function, then a string with one more `1` per heading; any other base reads
      `undefined`, then the number of headings. */
  function ReadAfter(base: string, n: nat): JsValue {
    if base == "__proto__" then ObjectPrototype
    else if Inherited(base) != Undefined then
      if n == 0 then Inherited(base) else JsString(JsToString(Inherited(base)) + Ones(n))
    else if n == 0 then Undefined
    else Number(n)
  }

  /** One heading with base `base` going through the counter: `headingCount[base] =
      (headingCount[base] || 0) + 1`. */
  function Counted(counts: map<string, JsValue>, base: string): map<string, JsValue> {
    CounterWrite(counts, base, PlusOne(OrZero(CounterRead(counts, base))))
  }

  /** One heading going through the counter advances what its base reads. */
  lemma CounterStep(counts: map<string, JsValue>, base: string, n: nat)
    requires CounterRead(counts, base) == ReadAfter(base, n)
    ensures CounterRead(Counted(counts, base), base) == ReadAfter(base, n + 1)
  {
    if base != "__proto__" && Inherited(base) != Undefined && n > 0 {
      assert Ones(n + 1) == Ones(n) + "1";
    }
  }

  /** One heading going through the counter leaves what every other key reads as it was. */
  lemma CounterFrame(counts: map<string, JsValue>, base: string, k: string)
    requires k != base
    ensures CounterRead(Counted(counts, base), k) == CounterRead(counts, k)
  {
  }

  /** The id of a heading whose base `base` was met `n` times before in this render. */
  function HeadingId(base: string, n: nat): string {
    IdOf(base, OrZero(ReadAfter(base, n)))
  }

  /** The counter as its authors evidently meant it (a `Map`, or an object without a
      prototype): a base not counted yet reads as 0. */
  function OwnCounterId(base: string, n: nat): string {
    if n == 0 then base else base + "-" + NatToString(n)
  }

  /** For a base that is no key of `Object.prototype`, the counter behaves as meant: the first
      heading gets the base, the later ones the base with `-1`, `-2`, … */
  lemma HeadingIdOfOwnKey(base: string, n: nat)
    requires Inherited(base) == Undefined
    ensures HeadingId(base, n) == OwnCounterId(base, n)
  {
  }

  /** A slug is lower case, so the only keys of `Object.prototype` it can be are
      `constructor` and `__proto__`. */
  lemma SlugInheritedKeys(b: string)
    ensures NoUpper(b) ==> (Inherited(b) != Undefined <==> b == "constructor" || b == "__proto__")
  {
    if b == "hasOwnProperty" {
      assert b[3] == 'O';
    } else if b == "valueOf" {
      assert b[5] == 'O';
    } else if b == "toString" || b == "toLocaleString" || b == "isPrototypeOf" {
      assert 'A' <= b[2] <= 'Z';
    } else if b in PrototypeMethods {
      assert 'A' <= b[8] <= 'Z';
    }
  }

  /** Two occurrence counts of one base give two different ids, unless the base is
      `__proto__` (`ProtoIdsCollide`). */
  lemma HeadingIdInjective(base: string, m: nat, n: nat)
    requires m != n && base != "__proto__"
    ensures HeadingId(base, m) != HeadingId(base, n)
  {
    if Inherited(base) != Undefined {
      var f := JsToString(Inherited(base));
      assert |HeadingId(base, m)| == |base| + 1 + |f| + m;
      assert |HeadingId(base, n)| == |base| + 1 + |f| + n;
    } else if m != 0 && n != 0 {
      NatToStringInjective(m, n);
      assert HeadingId(base, m)[|base| + 1..] == NatToString(m);
      assert HeadingId(base, n)[|base| + 1..] == NatToString(n);
    }
  }

  /** Every heading whose base is `__proto__` gets the same id: the counter reads the
      prototype each time, and the setter drops the string written back. */
  lemma ProtoIdsCollide(n: nat)
    ensures HeadingId("__proto__", n) == "__proto__-[object Object]"
  {
  }

  /** A heading whose base is `constructor` gets the text of the function `Object` in its id,
      white space and brackets included, with one more `1` per earlier such heading; such an
      id is no slug. */
  lemma ConstructorHeadingId(n: nat)
    ensures HeadingId("constructor", n) == "constructor-" + ObjectSource + Ones(n)
    ensures !IsSlugText(HeadingId("constructor", n))
  {
    var b := "constructor";
    var id := HeadingId(b, n);
    ConstructorCount(n);
    assert id == b + "-" + (ObjectSource + Ones(n));
    assert id[|b| + 1 + 8] == (ObjectSource + Ones(n))[8] == ' ';
  }

  /** What the counter reads for `constructor` after `n` such headings, as the id prints it. */
  lemma ConstructorCount(n: nat)
    ensures var v := OrZero(ReadAfter("constructor", n));
            Truthy(v) && JsToString(v) == ObjectSource + Ones(n)
  {
    assert Inherited("constructor") == NativeFunction(ObjectSource);
  }

  /** The intended counter keeps a slug a slug: every id it gives is a valid slug, for every
      base. */
  lemma OwnCounterIdIsSlug(base: string, n: nat)
    requires IsSlugText(base)
    ensures IsSlugText(OwnCounterId(base, n))
  {
    var id := OwnCounterId(base, n);
    if n != 0 {
      var d := NatToString(n);
      assert id == base + "-" + d;
      forall i | 0 <= i < |id| ensures IsSlugChar(id[i]) {
        if i < |base| {
          assert id[i] == base[i];
        } else if i > |base| {
          assert id[i] == d[i - |base| - 1];
        }
      }
    }
  }

  // ---------------------------------------------------------------------------------------
  // tokens and their text

  /** A markdown-it token as the rules below read it: `kind` is `token.type`; `hasChildren`
      is false where markdown-it leaves `children` null; for a fence, `info` is the language
      name markdown-it passes to `highlight` and `content` the fence body. */
  datatype Token = Token(kind: string, tag: string, info: string, content: string,
                         hasChildren: bool, children: seq<Token>)

  /** What one inline token adds to the plain text: its content for a non-empty `text` or
      `code_inline` token, the text of its children otherwise, nothing without children. */
  function TokenText(t: Token): string
    decreases t, 0
  {
    if t.kind == "text" && t.content != "" then t.content
    else if t.kind == "code_inline" && t.content != "" then t.content
    else if t.hasChildren then InlineText(t.children)
    else ""
  }

  /** The plain text of a token list, in order. */
  function InlineText(tokens: seq<Token>): string
    decreases tokens, 1
  {
    if tokens == [] then ""
    else InlineText(tokens[..|tokens| - 1]) + TokenText(tokens[|tokens| - 1])
  }

  /** `extractTextFromTokens(tokens)`, with its loop and its recursion into children. */
  method ExtractTextFromTokens(tokens: seq<Token>) returns (text: string)
    ensures text == InlineText(tokens)
    decreases tokens, 1
  {
    text := "";
    var i := 0;
    while i < |tokens|
      invariant 0 <= i <= |tokens|
      invariant text == InlineText(tokens[..i])
    {
      var token := tokens[i];
      assert tokens[..i + 1][..i] == tokens[..i];
      if token.kind == "text" && token.content != "" {
        text := text + token.content;
      } else if token.kind == "code_inline" && token.content != "" {
        text := text + token.content;
      } else if token.hasChildren {
        var sub := ExtractTextFromTokens(token.children);
        text := text + sub;
      }
      i := i + 1;
    }
    assert tokens[..i] == tokens;
  }

  /** The text of a token list is the text of its parts, in order. */
  lemma {:induction false} InlineTextAppend(a: seq<Token>, b: seq<Token>)
    ensures InlineText(a + b) == InlineText(a) + InlineText(b)
    decreases |b|
  {
    if b == [] {
      assert a + b == a;
    } else {
      var b' := b[..|b| - 1];
      assert (a + b)[..|a + b| - 1] == a + b';
      assert (a + b)[|a + b| - 1] == b[|b| - 1];
      InlineTextAppend(a, b');
    }
  }

  /** Tokens that are neither non-empty text nor inline code and have no children (markup
      such as `strong_open` or `softbreak`) add nothing; text and inline code add their
      content; a token with children adds their text. */
  lemma InlineTextOfOne(t: Token)
    ensures InlineText([t]) == TokenText(t)
    ensures t.kind != "text" && t.kind != "code_inline" && !t.hasChildren ==> InlineText([t]) == ""
    ensures (t.kind == "text" || t.kind == "code_inline") && t.content != "" ==> InlineText([t]) == t.content
    ensures t.kind != "text" && t.kind != "code_inline" && t.hasChildren ==> InlineText([t]) == InlineText(t.children)
  {
    assert [t][..0] == [];
  }

  // ---------------------------------------------------------------------------------------
  // the heading_open rule

  /** What the `heading_open` rule reads for a heading whose scan starts at `i`: the first
      `inline` token before the next `heading_close` gives its children's text, or its content
      when it has no children; "" when there is no such token. */
  function HeadingTextFrom(tokens: seq<Token>, i: nat): string
    decreases |tokens| - i
  {
    if i >= |tokens| || tokens[i].kind == "heading_close" then ""
    else if tokens[i].kind == "inline" then
      (if tokens[i].hasChildren then InlineText(tokens[i].children) else tokens[i].content)
    else HeadingTextFrom(tokens, i + 1)
  }

  /** The longest prefix of decimal digits. */
  function LeadingDigits(s: string): (d: string)
    ensures |d| <= |s| && d == s[..|d|]
    ensures forall i :: 0 <= i < |d| ==> IsDigit(d[i])
  {
    if s != [] && IsDigit(s[0]) then [s[0]] + LeadingDigits(s[1..]) else []
  }

  /** `parseInt(token.tag.slice(1))`; markdown-it's heading tags are `h1` … `h6`. */
  function HeadingLevel(tag: string): nat {
    if |tag| >= 1 then DecimalValue(LeadingDigits(tag[1..])) else 0
  }

  /** The tags `h1` … `h6` give the levels 1 … 6. */
  lemma HeadingLevelOfTag(d: nat)
    requires 1 <= d <= 6
    ensures HeadingLevel("h" + [DigitChar(d)]) == d
  {
    var tag := "h" + [DigitChar(d)];
    assert tag[1..] == [DigitChar(d)];
    assert [DigitChar(d)][1..] == [];
    assert LeadingDigits(tag[1..]) == [DigitChar(d)] == NatToString(d);
    DecimalRoundTrip(d);
  }

  datatype TocItem = TocItem(id: string, text: string, level: nat)

  /** The render environment `{ toc, headingCount }` that `parseMarkdown` creates afresh;
      `headingCount` holds the own properties of the object `{}`. */
  class RenderEnv {
    var headingCount: map<string, JsValue>
    var toc: seq<TocItem>

    constructor ()
      ensures headingCount == map[] && toc == []
    {
      headingCount := map[];
      toc := [];
    }
  }

  /** One rendered piece of HTML: the opening tag of a heading with its `id`, the string a
      fence's `highlight` call returned (before the default fence rule wraps it), or a token
      left to markdown-it's own rules. */
  datatype Piece = HeadingOpenTag(tag: string, id: string) | FenceBlock(html: string) | DefaultRender(token: Token)

  /** The scan of the `heading_open` rule for the heading's text: forward from the token after
      `idx` to the first `inline` token, stopping at `heading_close`. */
  method ScanHeadingText(tokens: seq<Token>, idx: nat) returns (text: string)
    requires idx < |tokens|
    ensures text == HeadingTextFrom(tokens, idx + 1)
  {
    text := "";
    var i := idx + 1;
    while i < |tokens| && tokens[i].kind != "heading_close"
      invariant idx + 1 <= i <= |tokens|
      invariant HeadingTextFrom(tokens, i) == HeadingTextFrom(tokens, idx + 1)
      invariant text == ""
    {
      if tokens[i].kind == "inline" {
        if tokens[i].hasChildren {
          text := ExtractTextFromTokens(tokens[i].children);
        } else {
          text := tokens[i].content;
        }
        break;
      }
      i := i + 1;
    }
  }

  /** The rule installed as `md.renderer.rules.heading_open`: the heading's id is its base slug,
      suffixed with what the counter object held for that base, and the heading is appended
      to the table of contents. */
  method HeadingOpenRule(tokens: seq<Token>, idx: nat, env: RenderEnv) returns (piece: Piece)
    requires idx < |tokens|
    modifies env
    ensures var text := HeadingTextFrom(tokens, idx + 1);
            var base := Slugify(text);
            var count := OrZero(CounterRead(old(env.headingCount), base));
            && piece == HeadingOpenTag(tokens[idx].tag, IdOf(base, count))
            && env.headingCount == CounterWrite(old(env.headingCount), base, PlusOne(count))
            && env.toc == old(env.toc) + [TocItem(IdOf(base, count), text, HeadingLevel(tokens[idx].tag))]
  {
    var token := tokens[idx];
    var level := HeadingLevel(token.tag);
    var text := ScanHeadingText(tokens, idx);
    var baseId := Slugify(text);
    var count := OrZero(CounterRead(env.headingCount, baseId));
    env.headingCount := CounterWrite(env.headingCount, baseId, PlusOne(count));
    var id := IdOf(baseId, count);
    env.toc := env.toc + [TocItem(id, text, level)];
    piece := HeadingOpenTag(token.tag, id);
  }

  // ---------------------------------------------------------------------------------------
  // the fence classifier (`highlight`)

  /** highlight.js as the callback uses it: `getLanguage(lang)` is truthy, and the `value` of
      `highlight(str, { language })`, None when that call throws. */
  datatype Hljs = Hljs(getLanguage: string -> bool, highlight: (string, string) -> Option<string>)

  /** The twelve fence languages handed to mermaid. */
  predicate IsMermaidLang(lang: string) {
    lang == "mermaid" || lang == "sequenceDiagram" || lang == "classDiagram" || lang == "stateDiagram"
    || lang == "erDiagram" || lang == "journey" || lang == "gantt" || lang == "pie"
    || lang == "requirement" || lang == "gitgraph" || lang == "mindmap" || lang == "timeline"
  }

  predicate IsFlowchartLang(lang: string) {
    lang == "flowchart" || lang == "flow"
  }

  /** The opening of a diagram placeholder: `kind` is `flowchart` or `mermaid`. */
  function PlaceholderOpen(kind: string, suffix: string): string {
    "<div class=\"" + kind + "-container\"><pre class=\"" + kind + "\" id=\"" + kind + "-" + suffix + "\">"
  }

  const PlaceholderClose := "</pre></div>"

  /** The `highlight(str, lang)` callback; `suffix` stands for the nine base-36 characters of
      `Math.random().toString(36).substr(2, 9)`. */
  function Highlight(str: string, lang: string, suffix: string, hljs: Hljs): string {
    if IsFlowchartLang(lang) then
      PlaceholderOpen("flowchart", suffix) + EscapeHtml(str) + PlaceholderClose
    else if IsMermaidLang(lang) then
      PlaceholderOpen("mermaid", suffix) + EscapeHtml(str) + PlaceholderClose
    else if lang != "" && hljs.getLanguage(lang) && hljs.highlight(str, lang).Some? then
      "<pre class=\"hljs\"><code class=\"language-" + EscapeHtml(lang) + "\">"
      + hljs.highlight(str, lang).value + "</code></pre>"
    else
      "<pre class=\"hljs\"><code>" + EscapeHtml(str) + "</code></pre>"
  }

  /** The body of a placeholder or of an unhighlighted block: the escaped source, which holds
      no tag and whose text, once the browser decodes its entities, is the fence body. */
  predicate CarriesSource(inner: string, str: string) {
    inner == EscapeHtml(str) && Unescape(inner) == str && forall i :: 0 <= i < |inner| ==> inner[i] != '<'
  }

  lemma EscapedCarriesSource(str: string)
    ensures CarriesSource(EscapeHtml(str), str)
  {
    UnescapeEscape(str);
    EscapeNoMarkup(str);
  }

  lemma Middle(a: string, b: string, c: string)
    ensures var s := a + b + c;
            StartsWith(s, a) && EndsWith(s, c) && |a| + |c| <= |s| && s[|a|..|s| - |c|] == b
  {
    var s := a + b + c;
    assert s[..|a|] == a;
    assert s[|s| - |c|..] == c;
    assert s[|a|..|s| - |c|] == b;
  }

  /** What a placeholder of either kind holds between its opening and its closing tags. */
  predicate IsPlaceholderFor(r: string, kind: string, suffix: string, str: string) {
    var open := PlaceholderOpen(kind, suffix);
    && StartsWith(r, open) && EndsWith(r, PlaceholderClose) && |open| + |PlaceholderClose| <= |r|
    && CarriesSource(r[|open|..|r| - |PlaceholderClose|], str)
  }

  lemma PlaceholderCarries(kind: string, suffix: string, str: string)
    ensures IsPlaceholderFor(PlaceholderOpen(kind, suffix) + EscapeHtml(str) + PlaceholderClose, kind, suffix, str)
  {
    Middle(PlaceholderOpen(kind, suffix), EscapeHtml(str), PlaceholderClose);
    EscapedCarriesSource(str);
  }

  /** A `flowchart`/`flow` fence becomes a flowchart placeholder whose text is its body,
      whatever highlight.js knows. */
  lemma FlowchartFence(str: string, lang: string, suffix: string, hljs: Hljs)
    requires IsFlowchartLang(lang)
    ensures IsPlaceholderFor(Highlight(str, lang, suffix, hljs), "flowchart", suffix, str)
  {
    PlaceholderCarries("flowchart", suffix, str);
  }

  /** A fence in one of the twelve mermaid languages becomes a mermaid placeholder whose text
      is its body, whatever highlight.js knows. */
  lemma MermaidFence(str: string, lang: string, suffix: string, hljs: Hljs)
    requires IsMermaidLang(lang)
    ensures IsPlaceholderFor(Highlight(str, lang, suffix, hljs), "mermaid", suffix, str)
  {
    PlaceholderCarries("mermaid", suffix, str);
  }

  /** Diagram fences are never highlighted: the result does not depend on highlight.js. */
  lemma DiagramFenceIgnoresHljs(str: string, lang: string, suffix: string, h1: Hljs, h2: Hljs)
    requires IsFlowchartLang(lang) || IsMermaidLang(lang)
    ensures Highlight(str, lang, suffix, h1) == Highlight(str, lang, suffix, h2)
  {
  }

  /** Any other fence becomes a `pre.hljs` block: highlighted with a language class exactly
      when the language is non-empty, known and highlights without throwing; otherwise the
      escaped body with no language class. */
  lemma CodeFence(str: string, lang: string, suffix: string, hljs: Hljs)
    requires !IsFlowchartLang(lang) && !IsMermaidLang(lang)
    ensures var r := Highlight(str, lang, suffix, hljs);
            var plain := "<pre class=\"hljs\"><code>" + EscapeHtml(str) + "</code></pre>";
            && StartsWith(r, "<pre class=\"hljs\"><code")
            && (r == plain <==> !(lang != "" && hljs.getLanguage(lang) && hljs.highlight(str, lang).Some?))
            && (r == plain ==> CarriesSource(r[|"<pre class=\"hljs\"><code>"|..|r| - |"</code></pre>"|], str))
  {
    var r := Highlight(str, lang, suffix, hljs);
    var head := "<pre class=\"hljs\"><code>";
    var plain := head + EscapeHtml(str) + "</code></pre>";
    if lang != "" && hljs.getLanguage(lang) && hljs.highlight(str, lang).Some? {
      assert r[|"<pre class=\"hljs\"><code"|] == ' ';
      assert plain[|"<pre class=\"hljs\"><code"|] == '>';
    } else {
      assert r[|head|..|r| - |"</code></pre>"|] == EscapeHtml(str);
      EscapedCarriesSource(str);
    }
  }

  // ---------------------------------------------------------------------------------------
  // parseMarkdown

  /** markdown-it's `highlight` option, applied to a fence's body and language; the third
      argument is the fence's token index, which stands for the random draw the callback
      makes for each fence. */
  type FenceCallback = (string, string, nat) -> string

  /** The option `useArticleMarkdown` installs: `Highlight`, with one random suffix per fence. */
  function ArticleHighlight(suffixes: nat -> string, hljs: Hljs): FenceCallback {
    (str: string, lang: string, i: nat) => Highlight(str, lang, suffixes(i), hljs)
  }

  /** How a heading's text becomes its base id. The render below is stated for any such
      function; `parseMarkdown` uses `Slugify`. */
  type SlugFunction = string -> string

  datatype RenderState = RenderState(headingCount: map<string, JsValue>, toc: seq<TocItem>, pieces: seq<Piece>)

  datatype RenderResult = RenderResult(html: seq<Piece>, toc: seq<TocItem>)

  /** What the `heading_open` rule does for the heading opened at `i`. */
  function RenderHeading(tokens: seq<Token>, i: nat, st: RenderState, slug: SlugFunction): RenderState
    requires i < |tokens|
  {
    var text := HeadingTextFrom(tokens, i + 1);
    var base := slug(text);
    var count := OrZero(CounterRead(st.headingCount, base));
    RenderState(Counted(st.headingCount, base),
                st.toc + [TocItem(IdOf(base, count), text, HeadingLevel(tokens[i].tag))],
                st.pieces + [HeadingOpenTag(tokens[i].tag, IdOf(base, count))])
  }

  /** What rendering token `i` does to the environment and the output. */
  function RenderStep(tokens: seq<Token>, i: nat, st: RenderState, highlight: FenceCallback, slug: SlugFunction): RenderState
    requires i < |tokens|
  {
    var t := tokens[i];
    if t.kind == "heading_open" then RenderHeading(tokens, i, st, slug)
    else if t.kind == "fence" then
      st.(pieces := st.pieces + [FenceBlock(highlight(t.content, t.info, i))])
    else
      st.(pieces := st.pieces + [DefaultRender(t)])
  }

  /** The state after rendering the first `n` tokens, starting from an empty environment. */
  function RenderUpTo(tokens: seq<Token>, n: nat, highlight: FenceCallback, slug: SlugFunction): RenderState
    requires n <= |tokens|
  {
    if n == 0 then RenderState(map[], [], [])
    else RenderStep(tokens, n - 1, RenderUpTo(tokens, n - 1, highlight, slug), highlight, slug)
  }

  function Render(tokens: seq<Token>, highlight: FenceCallback): RenderResult {
    var st := RenderUpTo(tokens, |tokens|, highlight, Slugify);
    RenderResult(st.pieces, st.toc)
  }

  /** markdown-it rendering one token: the `heading_open` rule, the `highlight` option for a
      fence, the default rules for anything else. */
  method RenderToken(tokens: seq<Token>, i: nat, env: RenderEnv, pieces: seq<Piece>, highlight: FenceCallback)
    returns (out: seq<Piece>)
    requires i < |tokens|
    modifies env
    ensures RenderState(env.headingCount, env.toc, out)
            == RenderStep(tokens, i, RenderState(old(env.headingCount), old(env.toc), pieces), highlight, Slugify)
  {
    var token := tokens[i];
    if token.kind == "heading_open" {
      var piece := HeadingOpenRule(tokens, i, env);
      out := pieces + [piece];
    } else if token.kind == "fence" {
      out := pieces + [FenceBlock(highlight(token.content, token.info, i))];
    } else {
      out := pieces + [DefaultRender(token)];
    }
  }

  /** `parseMarkdown`: a fresh environment, then markdown-it's pass over the tokens. The result
      is a function of the tokens alone (and of the `highlight` option): two calls on the same
      document give the same table of contents. */
  method ParseMarkdown(tokens: seq<Token>, highlight: FenceCallback) returns (r: RenderResult)
    ensures r == Render(tokens, highlight)
  {
    var env := new RenderEnv();
    var pieces: seq<Piece> := [];
    var i := 0;
    while i < |tokens|
      invariant 0 <= i <= |tokens|
      invariant RenderUpTo(tokens, i, highlight, Slugify) == RenderState(env.headingCount, env.toc, pieces)
    {
      pieces := RenderToken(tokens, i, env, pieces, highlight);
      i := i + 1;
    }
    r := RenderResult(pieces, env.toc);
  }

  // ---------------------------------------------------------------------------------------
  // one piece per token

  /** The number of headings among the first `n` tokens. */
  function HeadingCountUpTo(tokens: seq<Token>, n: nat): nat
    requires n <= |tokens|
  {
    if n == 0 then 0
    else HeadingCountUpTo(tokens, n - 1) + (if tokens[n - 1].kind == "heading_open" then 1 else 0)
  }

  /** Piece `i` is what token `i` renders to: an opening heading tag carrying the id of the
      heading's table-of-contents entry, the `highlight` result of a fence, or the default
      rendering of any other token. */
  predicate PieceMatches(tokens: seq<Token>, i: nat, pieces: seq<Piece>, toc: seq<TocItem>, highlight: FenceCallback)
    requires i < |tokens| && i < |pieces|
  {
    var t := tokens[i];
    if t.kind == "heading_open" then
      var k := HeadingCountUpTo(tokens, i);
      k < |toc| && pieces[i] == HeadingOpenTag(t.tag, toc[k].id)
    else if t.kind == "fence" then pieces[i] == FenceBlock(highlight(t.content, t.info, i))
    else pieces[i] == DefaultRender(t)
  }

  predicate PiecesMatch(tokens: seq<Token>, n: nat, pieces: seq<Piece>, toc: seq<TocItem>, highlight: FenceCallback)
    requires n <= |tokens|
  {
    && |pieces| == n && |toc| == HeadingCountUpTo(tokens, n)
    && forall i :: 0 <= i < n ==> PieceMatches(tokens, i, pieces, toc, highlight)
  }

  lemma {:induction false} RenderUpToPieces(tokens: seq<Token>, n: nat, highlight: FenceCallback, slug: SlugFunction)
    requires n <= |tokens|
    ensures var st := RenderUpTo(tokens, n, highlight, slug);
            PiecesMatch(tokens, n, st.pieces, st.toc, highlight)
  {
    if n > 0 {
      RenderUpToPieces(tokens, n - 1, highlight, slug);
      PiecesStep(tokens, n - 1, RenderUpTo(tokens, n - 1, highlight, slug), highlight, slug);
    }
  }

  /** Rendering token `i` adds the one piece that matches it and keeps the earlier ones. */
  lemma PiecesStep(tokens: seq<Token>, i: nat, st: RenderState, highlight: FenceCallback, slug: SlugFunction)
    requires i < |tokens| && PiecesMatch(tokens, i, st.pieces, st.toc, highlight)
    ensures var st' := RenderStep(tokens, i, st, highlight, slug);
            PiecesMatch(tokens, i + 1, st'.pieces, st'.toc, highlight)
  {
    var st' := RenderStep(tokens, i, st, highlight, slug);
    assert st'.pieces[..i] == st.pieces;
    assert st'.toc[..|st.toc|] == st.toc;
    forall j | 0 <= j < i + 1 ensures PieceMatches(tokens, j, st'.pieces, st'.toc, highlight) {
      if j < i {
        assert PieceMatches(tokens, j, st.pieces, st.toc, highlight);
        PieceMatchKept(tokens, j, st.pieces, st.toc, st'.pieces, st'.toc, highlight);
      }
    }
  }

  /** A piece that matched its token still does once more pieces and entries follow. */
  lemma PieceMatchKept(tokens: seq<Token>, i: nat, p1: seq<Piece>, t1: seq<TocItem>, p2: seq<Piece>, t2: seq<TocItem>,
                       highlight: FenceCallback)
    requires i < |tokens| && i < |p1| <= |p2| && p2[..|p1|] == p1 && |t1| <= |t2| && t2[..|t1|] == t1
    requires PieceMatches(tokens, i, p1, t1, highlight)
    ensures PieceMatches(tokens, i, p2, t2, highlight)
  {
    assert p2[i] == p1[i];
    if tokens[i].kind == "heading_open" {
      var k := HeadingCountUpTo(tokens, i);
      assert t2[k] == t1[k];
    }
  }

  /** `parseMarkdown` renders every token to exactly one piece, in order: headings carry the id
      of their table-of-contents entry, and fences are what the `highlight` option returns. */
  lemma EveryTokenRendersOnce(tokens: seq<Token>, highlight: FenceCallback)
    ensures var r := Render(tokens, highlight);
            PiecesMatch(tokens, |tokens|, r.html, r.toc, highlight)
  {
    RenderUpToPieces(tokens, |tokens|, highlight, Slugify);
  }

  /** With the option `useArticleMarkdown` installs, a diagram fence renders to a placeholder
      whose text is the fence body. */
  lemma DiagramFencesBecomePlaceholders(tokens: seq<Token>, suffixes: nat -> string, hljs: Hljs, i: nat)
    requires i < |tokens| && tokens[i].kind == "fence"
    ensures var r := Render(tokens, ArticleHighlight(suffixes, hljs));
            var t := tokens[i];
            && i < |r.html| && r.html[i].FenceBlock?
            && (IsFlowchartLang(t.info) ==> IsPlaceholderFor(r.html[i].html, "flowchart", suffixes(i), t.content))
            && (IsMermaidLang(t.info) ==> IsPlaceholderFor(r.html[i].html, "mermaid", suffixes(i), t.content))
  {
    var h := ArticleHighlight(suffixes, hljs);
    EveryTokenRendersOnce(tokens, h);
    var r := Render(tokens, h);
    var t := tokens[i];
    assert PieceMatches(tokens, i, r.html, r.toc, h);
    assert r.html[i] == FenceBlock(Highlight(t.content, t.info, suffixes(i), hljs));
    if IsFlowchartLang(t.info) {
      FlowchartFence(t.content, t.info, suffixes(i), hljs);
    }
    if IsMermaidLang(t.info) {
      MermaidFence(t.content, t.info, suffixes(i), hljs);
    }
  }

  // ---------------------------------------------------------------------------------------
  // properties of the table of contents

  /** A heading of the document: its text, its base slug and its level. */
  datatype Heading = Heading(text: string, base: string, level: nat)

  /** A heading as `parseMarkdown` sees it: its base is the slug of its text. */
  function HeadingOf(text: string, level: nat): (h: Heading)
  {
    Heading(text, Slugify(text), level)
  }

  /** The headings among the first `n` tokens, in document order. */
  function HeadingsUpTo(tokens: seq<Token>, n: nat, slug: SlugFunction): seq<Heading>
    requires n <= |tokens|
  {
    if n == 0 then []
    else if tokens[n - 1].kind == "heading_open" then
      var text := HeadingTextFrom(tokens, n);
      HeadingsUpTo(tokens, n - 1, slug) + [Heading(text, slug(text), HeadingLevel(tokens[n - 1].tag))]
    else HeadingsUpTo(tokens, n - 1, slug)
  }

  /** How many of the headings have the base `base`. */
  function SlugCount(hs: seq<Heading>, base: string): nat {
    if hs == [] then 0
    else SlugCount(hs[..|hs| - 1], base) + (if hs[|hs| - 1].base == base then 1 else 0)
  }

  /** The id the counter gives heading `k`: what its base slug and the number of earlier
      headings that share that base make of it. */
  function IdFor(hs: seq<Heading>, k: nat): string
    requires k < |hs|
  {
    HeadingId(hs[k].base, SlugCount(hs[..k], hs[k].base))
  }

  /** The table of contents lists the headings in document order, with their text, their level
      and the id of the per-render counter. */
  predicate TocOfHeadings(toc: seq<TocItem>, hs: seq<Heading>) {
    && |toc| == |hs|
    && forall k :: 0 <= k < |hs| ==> toc[k] == TocItem(IdFor(hs, k), hs[k].text, hs[k].level)
  }

  /** Counting a heading as the counter does: one more for its base, none for the others. */
  lemma SlugCountSnoc(hs: seq<Heading>, h: Heading, b: string)
    ensures SlugCount(hs + [h], b) == SlugCount(hs, b) + if h.base == b then 1 else 0
  {
    assert (hs + [h])[..|hs|] == hs;
  }

  /** What rendering token `i` does to the counter: a heading goes through it, any other token
      leaves it as it was. */
  lemma RenderStepCounter(tokens: seq<Token>, i: nat, st: RenderState, highlight: FenceCallback, slug: SlugFunction)
    requires i < |tokens|
    ensures RenderStep(tokens, i, st, highlight, slug).headingCount
              == if tokens[i].kind == "heading_open" then Counted(st.headingCount, slug(HeadingTextFrom(tokens, i + 1)))
                 else st.headingCount
  {
  }

  /** The headings among the first `n + 1` tokens. */
  lemma HeadingsUpToStep(tokens: seq<Token>, n: nat, slug: SlugFunction)
    requires n < |tokens|
    ensures HeadingsUpTo(tokens, n + 1, slug)
              == if tokens[n].kind == "heading_open" then HeadingsUpTo(tokens, n, slug) + [HeadingAt(tokens, n, slug)]
                 else HeadingsUpTo(tokens, n, slug)
  {
  }

  /** The counter after the first `n` tokens: each heading goes through it in turn. */
  function CountsUpTo(tokens: seq<Token>, n: nat, slug: SlugFunction): map<string, JsValue>
    requires n <= |tokens|
  {
    if n == 0 then map[]
    else if tokens[n - 1].kind == "heading_open" then Counted(CountsUpTo(tokens, n - 1, slug), HeadingAt(tokens, n - 1, slug).base)
    else CountsUpTo(tokens, n - 1, slug)
  }

  lemma {:induction false} RenderUpToCounter(tokens: seq<Token>, n: nat, highlight: FenceCallback, slug: SlugFunction)
    requires n <= |tokens|
    ensures RenderUpTo(tokens, n, highlight, slug).headingCount == CountsUpTo(tokens, n, slug)
  {
    if n > 0 {
      RenderUpToCounter(tokens, n - 1, highlight, slug);
      RenderStepCounter(tokens, n - 1, RenderUpTo(tokens, n - 1, highlight, slug), highlight, slug);
    }
  }

  lemma {:induction false} CountsUpToReads(tokens: seq<Token>, n: nat, slug: SlugFunction, b: string)
    requires n <= |tokens|
    ensures CounterRead(CountsUpTo(tokens, n, slug), b) == ReadAfter(b, SlugCount(HeadingsUpTo(tokens, n, slug), b))
  {
    if n > 0 {
      HeadingsUpToStep(tokens, n - 1, slug);
      CountsUpToReads(tokens, n - 1, slug, b);
      if tokens[n - 1].kind == "heading_open" {
        CountedReads(CountsUpTo(tokens, n - 1, slug), HeadingsUpTo(tokens, n - 1, slug), HeadingAt(tokens, n - 1, slug), b);
      }
    }
  }

  /** Counting one more heading keeps what `b` reads in step with the headings. */
  lemma CountedReads(counts: map<string, JsValue>, hs: seq<Heading>, h: Heading, b: string)
    requires CounterRead(counts, b) == ReadAfter(b, SlugCount(hs, b))
    ensures CounterRead(Counted(counts, h.base), b) == ReadAfter(b, SlugCount(hs + [h], b))
  {
    SlugCountSnoc(hs, h, b);
    if h.base == b {
      CounterStep(counts, b, SlugCount(hs, b));
    } else {
      CounterFrame(counts, h.base, b);
    }
  }

  /** The counter reads, for each base, what the number of headings so far with that base
      leaves in it. */
  lemma RenderUpToCounts(tokens: seq<Token>, n: nat, highlight: FenceCallback, slug: SlugFunction, b: string)
    requires n <= |tokens|
    ensures CounterRead(RenderUpTo(tokens, n, highlight, slug).headingCount, b)
         == ReadAfter(b, SlugCount(HeadingsUpTo(tokens, n, slug), b))
  {
    RenderUpToCounter(tokens, n, highlight, slug);
    CountsUpToReads(tokens, n, slug, b);
  }

  /** Appending a heading with the counter's id keeps the table in step with the headings. */
  lemma TocAppend(toc: seq<TocItem>, hs: seq<Heading>, h: Heading)
    requires TocOfHeadings(toc, hs)
    ensures TocOfHeadings(toc + [TocItem(HeadingId(h.base, SlugCount(hs, h.base)), h.text, h.level)], hs + [h])
  {
    var hs' := hs + [h];
    assert hs'[..|hs|] == hs;
    forall k | 0 <= k < |hs| ensures IdFor(hs', k) == IdFor(hs, k) {
      assert hs'[..k] == hs[..k];
    }
  }

  /** The heading opened at token `i`, as the table of contents records it. */
  function HeadingAt(tokens: seq<Token>, i: nat, slug: SlugFunction): Heading
    requires i < |tokens|
  {
    var text := HeadingTextFrom(tokens, i + 1);
    Heading(text, slug(text), HeadingLevel(tokens[i].tag))
  }

  /** Rendering one token keeps the table of contents in step with the headings, provided the
      counter reads for the new heading's base what the earlier headings leave in it. */
  lemma TocStep(tokens: seq<Token>, i: nat, st: RenderState, highlight: FenceCallback, slug: SlugFunction,
                hs: seq<Heading>)
    requires i < |tokens| && TocOfHeadings(st.toc, hs)
    requires var b := HeadingAt(tokens, i, slug).base;
             CounterRead(st.headingCount, b) == ReadAfter(b, SlugCount(hs, b))
    ensures TocOfHeadings(RenderStep(tokens, i, st, highlight, slug).toc,
                          if tokens[i].kind == "heading_open" then hs + [HeadingAt(tokens, i, slug)] else hs)
  {
    if tokens[i].kind == "heading_open" {
      TocAppend(st.toc, hs, HeadingAt(tokens, i, slug));
    }
  }

  lemma {:induction false} RenderUpToToc(tokens: seq<Token>, n: nat, highlight: FenceCallback, slug: SlugFunction)
    requires n <= |tokens|
    ensures TocOfHeadings(RenderUpTo(tokens, n, highlight, slug).toc, HeadingsUpTo(tokens, n, slug))
  {
    if n > 0 {
      var prev := RenderUpTo(tokens, n - 1, highlight, slug);
      var hs0 := HeadingsUpTo(tokens, n - 1, slug);
      var hs := if tokens[n - 1].kind == "heading_open" then hs0 + [HeadingAt(tokens, n - 1, slug)] else hs0;
      assert RenderUpTo(tokens, n, highlight, slug).toc == RenderStep(tokens, n - 1, prev, highlight, slug).toc;
      assert HeadingsUpTo(tokens, n, slug) == hs by {
        HeadingsUpToStep(tokens, n - 1, slug);
      }
      RenderUpToCounts(tokens, n - 1, highlight, slug, HeadingAt(tokens, n - 1, slug).base);
      RenderUpToToc(tokens, n - 1, highlight, slug);
      TocStep(tokens, n - 1, prev, highlight, slug, hs0);
    }
  }

  /** Every heading's base is the slug of its text. */
  predicate BasesAreSlugs(hs: seq<Heading>, slug: SlugFunction) {
    forall k :: 0 <= k < |hs| ==> hs[k].base == slug(hs[k].text)
  }

  lemma {:induction false} HeadingBases(tokens: seq<Token>, n: nat, slug: SlugFunction)
    requires n <= |tokens|
    ensures BasesAreSlugs(HeadingsUpTo(tokens, n, slug), slug)
  {
    if n > 0 {
      HeadingBases(tokens, n - 1, slug);
      var hs0 := HeadingsUpTo(tokens, n - 1, slug);
      if tokens[n - 1].kind == "heading_open" {
        var text := HeadingTextFrom(tokens, n);
        var hs := hs0 + [Heading(text, slug(text), HeadingLevel(tokens[n - 1].tag))];
        assert forall k :: 0 <= k < |hs0| ==> hs[k] == hs0[k];
        assert BasesAreSlugs(hs, slug);
      }
    }
  }

  /** The table of contents of `parseMarkdown` has one entry per heading, in document order,
      with the heading's text and level and the counter's id. */
  lemma TocListsHeadings(tokens: seq<Token>, highlight: FenceCallback)
    ensures TocOfHeadings(Render(tokens, highlight).toc, HeadingsUpTo(tokens, |tokens|, Slugify))
  {
    RenderUpToToc(tokens, |tokens|, highlight, Slugify);
  }

  lemma {:induction false} SlugCountGrows(hs: seq<Heading>, i: nat, j: nat, base: string)
    requires i < j <= |hs|
    requires hs[i].base == base
    ensures SlugCount(hs[..j], base) >= SlugCount(hs[..i], base) + 1
    decreases j - i
  {
    var p := hs[..j];
    assert p[..|p| - 1] == hs[..j - 1];
    if j == i + 1 {
      assert p[|p| - 1] == hs[i];
    } else {
      SlugCountGrows(hs, i, j - 1, base);
    }
  }

  /** Headings that share a base slug other than `__proto__` get pairwise different ids. */
  lemma IdsDistinctPerBase(hs: seq<Heading>, i: nat, j: nat)
    requires i < j < |hs|
    requires hs[i].base == hs[j].base && hs[i].base != "__proto__"
    ensures IdFor(hs, i) != IdFor(hs, j)
  {
    SlugCountGrows(hs, i, j, hs[i].base);
    HeadingIdInjective(hs[i].base, SlugCount(hs[..i], hs[i].base), SlugCount(hs[..j], hs[i].base));
  }

  /** The id the intended counter gives heading `k`. */
  function OwnIdFor(hs: seq<Heading>, k: nat): string
    requires k < |hs|
  {
    OwnCounterId(hs[k].base, SlugCount(hs[..k], hs[k].base))
  }

  /** With the intended counter, headings that share any base slug get pairwise different
      ids. */
  lemma OwnIdsDistinctPerBase(hs: seq<Heading>, i: nat, j: nat)
    requires i < j < |hs|
    requires hs[i].base == hs[j].base
    ensures OwnIdFor(hs, i) != OwnIdFor(hs, j)
  {
    var b := hs[i].base;
    var m, n := SlugCount(hs[..i], b), SlugCount(hs[..j], b);
    SlugCountGrows(hs, i, j, b);
    if m != 0 {
      NatToStringInjective(m, n);
      assert OwnIdFor(hs, i)[|b| + 1..] == NatToString(m);
      assert OwnIdFor(hs, j)[|b| + 1..] == NatToString(n);
    }
  }

  /** The table of contents up to `n`, entry by entry: the heading's text and level and the
      counter's id, with a base that is the slug of the text. */
  lemma TocEntry(tokens: seq<Token>, n: nat, highlight: FenceCallback, slug: SlugFunction, i: nat)
    requires n <= |tokens|
    requires i < |RenderUpTo(tokens, n, highlight, slug).toc|
    ensures var toc := RenderUpTo(tokens, n, highlight, slug).toc;
            var hs := HeadingsUpTo(tokens, n, slug);
            i < |hs| && toc[i] == TocItem(IdFor(hs, i), hs[i].text, hs[i].level) && hs[i].base == slug(hs[i].text)
  {
    RenderUpToToc(tokens, n, highlight, slug);
    HeadingBases(tokens, n, slug);
  }

  lemma TocIdsDistinctUpTo(tokens: seq<Token>, n: nat, highlight: FenceCallback, slug: SlugFunction, i: nat, j: nat)
    requires n <= |tokens|
    requires i < j < |RenderUpTo(tokens, n, highlight, slug).toc|
    requires var toc := RenderUpTo(tokens, n, highlight, slug).toc;
             slug(toc[i].text) == slug(toc[j].text) && slug(toc[i].text) != "__proto__"
    ensures var toc := RenderUpTo(tokens, n, highlight, slug).toc; toc[i].id != toc[j].id
  {
    var toc := RenderUpTo(tokens, n, highlight, slug).toc;
    var hs := HeadingsUpTo(tokens, n, slug);
    RenderUpToToc(tokens, n, highlight, slug);
    HeadingBases(tokens, n, slug);
    assert toc[i] == TocItem(IdFor(hs, i), hs[i].text, hs[i].level);
    assert toc[j] == TocItem(IdFor(hs, j), hs[j].text, hs[j].level);
    assert hs[i].base == slug(hs[i].text) && hs[j].base == slug(hs[j].text);
    IdsDistinctPerBase(hs, i, j);
  }

  /** In the table of contents of one render, two headings whose texts slug alike get
      different ids, unless that slug is `__proto__` (`ProtoTocIdsCollide`). */
  lemma TocIdsDistinctPerSlug(tokens: seq<Token>, highlight: FenceCallback, i: nat, j: nat)
    requires i < j < |Render(tokens, highlight).toc|
    requires var toc := Render(tokens, highlight).toc;
             Slugify(toc[i].text) == Slugify(toc[j].text) && Slugify(toc[i].text) != "__proto__"
    ensures var toc := Render(tokens, highlight).toc; toc[i].id != toc[j].id
  {
    TocIdsDistinctUpTo(tokens, |tokens|, highlight, Slugify, i, j);
  }

  /** As written, every heading whose text slugs to `__proto__` (a heading `` `__proto__` ``,
      say) gets the one id `__proto__-[object Object]`, so two of them collide. */
  lemma ProtoTocIdsCollide(tokens: seq<Token>, highlight: FenceCallback, i: nat)
    requires i < |Render(tokens, highlight).toc|
    requires Slugify(Render(tokens, highlight).toc[i].text) == "__proto__"
    ensures Render(tokens, highlight).toc[i].id == "__proto__-[object Object]"
  {
    var hs := HeadingsUpTo(tokens, |tokens|, Slugify);
    TocEntry(tokens, |tokens|, highlight, Slugify, i);
    ProtoIdsCollide(SlugCount(hs[..i], hs[i].base));
  }

  /** As written, a heading whose text slugs to `constructor` (a heading `Constructor`, say)
      gets an id that starts with `constructor-` and the text of the function `Object`, and
      so is no slug. */
  lemma ConstructorTocId(tokens: seq<Token>, highlight: FenceCallback, i: nat)
    requires i < |Render(tokens, highlight).toc|
    requires Slugify(Render(tokens, highlight).toc[i].text) == "constructor"
    ensures var id := Render(tokens, highlight).toc[i].id;
            var p := "constructor-" + ObjectSource;
            |p| <= |id| && id[..|p|] == p && !IsSlugText(id)
  {
    var hs := HeadingsUpTo(tokens, |tokens|, Slugify);
    TocEntry(tokens, |tokens|, highlight, Slugify, i);
    ConstructorHeadingId(SlugCount(hs[..i], hs[i].base));
  }

  /** Text that lower-cases to a slug slugs to that slug. */
  lemma SlugOfLowered(text: string, s: string)
    requires IsSlugText(s) && ToLower(text) == s
    ensures Slugify(text) == s
  {
    SlugCharsAreFixed(s);
    SlugTextIsFixed(s);
  }

  /** A heading `Constructor` has the base `constructor`. */
  lemma ConstructorSlug()
    ensures Slugify("Constructor") == "constructor"
  {
    var text, c := "Constructor", "constructor";
    assert IsSlugText(c);
    assert ToLower(text) == c by {
      assert forall i :: 1 <= i < |text| ==> text[i] == c[i] && 'a' <= c[i] <= 'z';
    }
    SlugOfLowered(text, c);
  }

  /** The base `__proto__` is a slug: a heading `` `__proto__` `` keeps it. */
  lemma ProtoIsSlug()
    ensures Slugify("__proto__") == "__proto__"
  {
    assert IsSlugText("__proto__");
    SlugTextIsFixed("__proto__");
  }

  lemma CollidingIds(b: string, l: nat)
    requires Inherited(b) == Undefined && Inherited(b + "-1") == Undefined
    ensures var hs := [Heading(b, b, l), Heading(b, b, l), Heading(b + "-1", b + "-1", l)];
            IdFor(hs, 0) == b && IdFor(hs, 1) == b + "-1" && IdFor(hs, 2) == b + "-1"
  {
    var hs := [Heading(b, b, l), Heading(b, b, l), Heading(b + "-1", b + "-1", l)];
    assert |b + "-1"| != |b|;
    assert hs[..1][..0] == [];
    assert hs[..2][..1] == hs[..1];
    assert hs[..1][0] == hs[0] && hs[..2][1] == hs[1];
    assert SlugCount(hs[..1], b) == 1;
    assert b != b + "-1";
    assert SlugCount(hs[..1], b + "-1") == 0;
    assert SlugCount(hs[..2], b + "-1") == 0;
    assert NatToString(1) == "1";
  }

  /** The counter does not prevent collisions across base slugs: headings `b`, `b` and `b-1`
      get the ids `b`, `b-1` and `b-1`, for any slug `b` other than the two keys of
      `Object.prototype` a slug can be (whose ids `ConstructorHeadingId` and `ProtoIdsCollide`
      give). */
  lemma IdsCanCollide(b: string, l: nat)
    requires IsSlugText(b) && b != "constructor" && b != "__proto__"
    ensures var hs := [HeadingOf(b, l), HeadingOf(b, l), HeadingOf(b + "-1", l)];
            IdFor(hs, 0) == b && IdFor(hs, 1) == b + "-1" && IdFor(hs, 2) == b + "-1"
  {
    var b1 := b + "-1";
    SlugTextIsFixed(b);
    assert IsSlugText(b1);
    SlugTextIsFixed(b1);
    SlugCharsHaveNoUpper(b);
    SlugCharsHaveNoUpper(b1);
    SlugInheritedKeys(b);
    assert b1[|b1| - 1] == '1';
    SlugInheritedKeys(b1);
    CollidingIds(b, l);
  }

  lemma SlugCharsHaveNoUpper(s: string)
    requires IsSlugText(s)
    ensures NoUpper(s)
  {
  }

  /** An empty base slug still takes part in the counter: headings with no slug characters get
      "", "-1", "-2", … */
  lemma EmptySlugIds(hs: seq<Heading>, k: nat)
    requires k < |hs| && hs[k].base == []
    ensures IdFor(hs, k) == if SlugCount(hs[..k], []) == 0 then [] else "-" + NatToString(SlugCount(hs[..k], []))
  {
  }
}
