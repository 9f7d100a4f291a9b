/**
 * The JavaScript string operations the blog's code relies on, over `string` (= seq<char>):
 * `trim` and the regex class `\s`, ASCII `toLowerCase`, `includes`, `startsWith`,
 * `indexOf`, `split`, `join`, global single-character `replace`, and decimal rendering
 * of numbers for template literals.
 */
module Text {

  /** The characters that `String.prototype.trim` removes and the regex class `\s` matches. */
  predicate IsSpace(c: char) {
    c == '\t' || c == '\n' || c == '\U{000B}' || c == '\U{000C}' || c == '\r' || c == ' '
    || c == '\U{00A0}' || c == '\U{1680}' || ('\U{2000}' <= c <= '\U{200A}')
    || c == '\U{2028}' || c == '\U{2029}' || c == '\U{202F}' || c == '\U{205F}'
    || c == '\U{3000}' || c == '\U{FEFF}'
  }

  /** The characters of the regex class `\w` (ASCII letters, digits and `_`). */
  predicate IsWordChar(c: char) {
    ('a' <= c <= 'z') || ('A' <= c <= 'Z') || ('0' <= c <= '9') || c == '_'
  }

  /** `\d`: an ASCII digit. */
  predicate IsDigit(c: char) {
    '0' <= c <= '9'
  }

  predicate AllSpace(s: string) {
    forall i :: 0 <= i < |s| ==> IsSpace(s[i])
  }

  predicate NoSpace(s: string) {
    forall i :: 0 <= i < |s| ==> !IsSpace(s[i])
  }

  function TrimStart(s: string): (r: string)
    ensures |r| <= |s|
    ensures r != [] ==> !IsSpace(r[0])
  {
    if s != [] && IsSpace(s[0]) then TrimStart(s[1..]) else s
  }

  function TrimEnd(s: string): (r: string)
    ensures |r| <= |s|
    ensures r != [] ==> !IsSpace(r[|r| - 1])
  {
    if s != [] && IsSpace(s[|s| - 1]) then TrimEnd(s[..|s| - 1]) else s
  }

  /** `trimStart` keeps a suffix. */
  lemma {:induction false} TrimStartSuffix(s: string)
    ensures TrimStart(s) == s[|s| - |TrimStart(s)|..]
  {
    if s != [] && IsSpace(s[0]) {
      TrimStartSuffix(s[1..]);
    }
  }

  /** `trimEnd` keeps a prefix. */
  lemma {:induction false} TrimEndPrefix(s: string)
    ensures TrimEnd(s) == s[..|TrimEnd(s)|]
  {
    if s != [] && IsSpace(s[|s| - 1]) {
      TrimEndPrefix(s[..|s| - 1]);
    }
  }

  /** `trimStart` removes white space only. */
  lemma {:induction false} TrimStartDropsSpace(s: string)
    ensures AllSpace(s[..|s| - |TrimStart(s)|])
  {
    if s != [] && IsSpace(s[0]) {
      TrimStartDropsSpace(s[1..]);
      assert s[..|s| - |TrimStart(s)|] == [s[0]] + s[1..][..|s[1..]| - |TrimStart(s[1..])|];
    }
  }

  /** `trimEnd` removes white space only. */
  lemma {:induction false} TrimEndDropsSpace(s: string)
    ensures AllSpace(s[|TrimEnd(s)|..])
  {
    if s != [] && IsSpace(s[|s| - 1]) {
      var p := s[..|s| - 1];
      TrimEndDropsSpace(p);
      assert s[|TrimEnd(s)|..] == p[|TrimEnd(p)|..] + [s[|s| - 1]];
    }
  }

  /** `s.trim()` */
  function Trim(s: string): (r: string)
    ensures |r| <= |s|
    ensures r != [] ==> !IsSpace(r[0]) && !IsSpace(r[|r| - 1])
  {
    TrimEndPrefix(TrimStart(s));
    TrimEnd(TrimStart(s))
  }

  /** `trim` keeps a slice: what follows the leading white space, cut before the trailing. */
  lemma TrimSlice(s: string)
    ensures var k := |s| - |TrimStart(s)|; k + |Trim(s)| <= |s| && Trim(s) == s[k..k + |Trim(s)|]
  {
    TrimStartSuffix(s);
    TrimEndPrefix(TrimStart(s));
  }

  /** `!s.trim()`: the string is empty or white space only. */
  predicate IsBlank(s: string) {
    Trim(s) == []
  }

  lemma BlankIffAllSpace(s: string)
    ensures IsBlank(s) <==> AllSpace(s)
  {
    var t := TrimStart(s);
    TrimStartSuffix(s);
    if IsBlank(s) {
      TrimStartDropsSpace(s);
      TrimEndDropsSpace(t);
      assert AllSpace(t[0..]);
      assert s == s[..|s| - |t|] + t;
    }
  }

  /** A string whose ends are not white space is its own trim. */
  lemma TrimOfTrimmed(s: string)
    requires s != [] ==> !IsSpace(s[0]) && !IsSpace(s[|s| - 1])
    ensures Trim(s) == s
  {
  }

  lemma {:induction false} TrimStartPadded(pre: string, t: string)
    requires AllSpace(pre)
    requires t != [] ==> !IsSpace(t[0])
    ensures TrimStart(pre + t) == t
  {
    if pre != [] {
      assert (pre + t)[1..] == pre[1..] + t;
      TrimStartPadded(pre[1..], t);
    } else {
      assert pre + t == t;
    }
  }

  lemma {:induction false} TrimEndPadded(t: string, post: string)
    requires AllSpace(post)
    requires t != [] ==> !IsSpace(t[|t| - 1])
    ensures TrimEnd(t + post) == t
  {
    if post != [] {
      assert (t + post)[..|t + post| - 1] == t + post[..|post| - 1];
      TrimEndPadded(t, post[..|post| - 1]);
    } else {
      assert t + post == t;
    }
  }

  /** Trimming a string that has white space only on its ends gives the middle back. */
  lemma TrimPadded(pre: string, s: string, post: string)
    requires AllSpace(pre) && AllSpace(post)
    requires s != [] ==> !IsSpace(s[0]) && !IsSpace(s[|s| - 1])
    ensures Trim(pre + s + post) == s
  {
    if s != [] {
      assert pre + s + post == pre + (s + post);
      TrimStartPadded(pre, s + post);
      TrimEndPadded(s, post);
    } else {
      assert pre + s + post == (pre + post) + [];
      assert AllSpace(pre + post);
      TrimStartPadded(pre + post, []);
    }
  }

  /** ASCII `toLowerCase` of one character. */
  function LowerChar(c: char): char {
    if 'A' <= c <= 'Z' then (c as int - 'A' as int + 'a' as int) as char else c
  }

  /** `s.toLowerCase()`, on ASCII letters. */
  function ToLower(s: string): (r: string)
    ensures |r| == |s|
    ensures forall i :: 0 <= i < |s| ==> r[i] == LowerChar(s[i])
    ensures forall i :: 0 <= i < |r| ==> !('A' <= r[i] <= 'Z')
  {
    seq(|s|, i requires 0 <= i < |s| => LowerChar(s[i]))
  }

  lemma ToLowerAppend(a: string, b: string)
    ensures ToLower(a + b) == ToLower(a) + ToLower(b)
  {
  }

  predicate StartsWith(s: string, p: string) {
    |p| <= |s| && s[..|p|] == p
  }

  predicate EndsWith(s: string, p: string) {
    |p| <= |s| && s[|s| - |p|..] == p
  }

  /** `t` occurs in `s` starting at position `i`. */
  predicate OccursAt(s: string, t: string, i: int) {
    0 <= i && i + |t| <= |s| && s[i..i + |t|] == t
  }

  /** `s.includes(t)` */
  predicate Contains(s: string, t: string) {
    exists i :: 0 <= i <= |s| - |t| && OccursAt(s, t, i)
  }

  lemma ContainsInMiddle(a: string, t: string, b: string)
    ensures Contains(a + t + b, t)
  {
    assert OccursAt(a + t + b, t, |a|);
  }

  /** The first position at or after `k` where `t` occurs in `s`, or -1 (`s.indexOf(t, k)`). */
  function FindFrom(s: string, t: string, k: nat): (r: int)
    requires k <= |s|
    ensures r == -1 || (k <= r && OccursAt(s, t, r))
    ensures r == -1 ==> forall j :: k <= j <= |s| - |t| ==> !OccursAt(s, t, j)
    ensures r >= 0 ==> forall j :: k <= j < r ==> !OccursAt(s, t, j)
    decreases |s| - k
  {
    if OccursAt(s, t, k) then k
    else if k + |t| >= |s| then -1
    else FindFrom(s, t, k + 1)
  }

  /** `s.indexOf(t)` */
  function IndexOf(s: string, t: string): (r: int)
    ensures r == -1 || OccursAt(s, t, r)
    ensures r == -1 ==> !Contains(s, t)
    ensures r >= 0 ==> forall j :: 0 <= j < r ==> !OccursAt(s, t, j)
  {
    FindFrom(s, t, 0)
  }

  /** `s.split(sep)` for a non-empty separator. */
  function Split(s: string, sep: string): (parts: seq<string>)
    requires sep != []
    ensures |parts| >= 1
    decreases |s|
  {
    var i := IndexOf(s, sep);
    if i < 0 then [s] else [s[..i]] + Split(s[i + |sep|..], sep)
  }

  /** `parts.join(sep)` */
  function Join(parts: seq<string>, sep: string): string {
    if parts == [] then []
    else if |parts| == 1 then parts[0]
    else parts[0] + sep + Join(parts[1..], sep)
  }

  /** `c` does not occur in `s`. */
  predicate Free(s: string, c: char) {
    forall i :: 0 <= i < |s| ==> s[i] != c
  }

  lemma OccursCharAt(s: string, c: char, j: int)
    ensures OccursAt(s, [c], j) <==> 0 <= j < |s| && s[j] == c
  {
    if 0 <= j < |s| {
      assert s[j..j + 1] == [s[j]];
    }
  }

  /** Splitting a join on a separator character that no part contains gives the parts back. */
  lemma {:induction false} SplitJoin(parts: seq<string>, c: char)
    requires parts != []
    requires forall k :: 0 <= k < |parts| ==> Free(parts[k], c)
    ensures Split(Join(parts, [c]), [c]) == parts
    decreases |parts|
  {
    var s := Join(parts, [c]);
    if |parts| == 1 {
      assert s == parts[0];
      forall j | 0 <= j < |s| ensures !OccursAt(s, [c], j) {
        OccursCharAt(s, c, j);
      }
    } else {
      var p := parts[0];
      var rest := Join(parts[1..], [c]);
      assert s == p + [c] + rest;
      assert OccursAt(s, [c], |p|);
      forall j | 0 <= j < |p| ensures !OccursAt(s, [c], j) {
        OccursCharAt(s, c, j);
      }
      var r := IndexOf(s, [c]);
      assert r == |p|;
      assert s[..r] == p;
      assert s[r + 1..] == rest;
      SplitJoin(parts[1..], c);
    }
  }

  /** Apply `f` to every character and concatenate the results. */
  function FlatMap(s: string, f: char -> string): string {
    if s == [] then [] else f(s[0]) + FlatMap(s[1..], f)
  }

  /** `s.replace(/c/g, r)`: every occurrence of the character `c` becomes `r`. */
  function ReplaceChar(s: string, c: char, r: string): (t: string)
    ensures Free(r, c) ==> Free(t, c)
  {
    if s == [] then [] else (if s[0] == c then r else [s[0]]) + ReplaceChar(s[1..], c, r)
  }

  /** Replacing a character that does not occur changes nothing. */
  lemma {:induction false} ReplaceAbsent(s: string, c: char, r: string)
    requires Free(s, c)
    ensures ReplaceChar(s, c, r) == s
  {
    if s != [] {
      ReplaceAbsent(s[1..], c, r);
    }
  }

  function DigitChar(d: nat): char
    requires d < 10
  {
    ('0' as int + d) as char
  }

  /** The decimal text of `n`, as a template literal `${n}` writes it. */
  function NatToString(n: nat): (s: string)
    ensures s != [] && (forall i :: 0 <= i < |s| ==> IsDigit(s[i]))
    ensures |s| > 1 ==> s[0] != '0'
  {
    if n < 10 then [DigitChar(n)] else NatToString(n / 10) + [DigitChar(n % 10)]
  }

  /** The number a string of decimal digits denotes. */
  function DecimalValue(s: string): nat
    requires forall i :: 0 <= i < |s| ==> IsDigit(s[i])
  {
    if s == [] then 0 else DecimalValue(s[..|s| - 1]) * 10 + DigitValue(s[|s| - 1])
  }

  function DigitValue(c: char): nat
    requires IsDigit(c)
  {
    c as int - '0' as int
  }

  lemma {:induction false} DecimalRoundTrip(n: nat)
    ensures DecimalValue(NatToString(n)) == n
  {
    if n >= 10 {
      var s := NatToString(n);
      assert s[..|s| - 1] == NatToString(n / 10);
      DecimalRoundTrip(n / 10);
    }
  }

  /** Different numbers have different decimal texts. */
  lemma NatToStringInjective(m: nat, n: nat)
    requires m != n
    ensures NatToString(m) != NatToString(n)
  {
    DecimalRoundTrip(m);
    DecimalRoundTrip(n);
  }
}
