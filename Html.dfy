/**
 * `escapeHtml` (src/utils/html.ts): five chained global replaces, `&` first, so that the
 * entities introduced by the later replaces are not escaped again.
 */
module Html {
  import opened Text

  /** The five characters `escapeHtml` rewrites. */
  predicate IsSpecial(c: char) {
    c == '&' || c == '<' || c == '>' || c == '"' || c == '\''
  }

  predicate HasSpecial(s: string) {
    exists i :: 0 <= i < |s| && IsSpecial(s[i])
  }

  /** `escapeHtml(text)`, written as the source chains it. */
  function EscapeHtml(text: string): string {
    ReplaceChar(
      ReplaceChar(
        ReplaceChar(
          ReplaceChar(
            ReplaceChar(text, '&', "&amp;"),
            '<', "&lt;"),
          '>', "&gt;"),
        '"', "&quot;"),
      '\'', "&#039;")
  }

  /** The entity each special character becomes; every other character stays. */
  function EscapeChar(c: char): (e: string)
    ensures |e| >= 1
    ensures IsSpecial(c) <==> |e| > 1
    ensures !IsSpecial(c) ==> e == [c]
  {
    if c == '&' then "&amp;"
    else if c == '<' then "&lt;"
    else if c == '>' then "&gt;"
    else if c == '"' then "&quot;"
    else if c == '\'' then "&#039;"
    else [c]
  }

  /** The five entities the output may contain. */
  predicate IsEntity(e: string) {
    e == "&amp;" || e == "&lt;" || e == "&gt;" || e == "&quot;" || e == "&#039;"
  }

  /** An entity begins at position `i` of `s`. */
  predicate StartsEntity(s: string, i: int) {
    OccursAt(s, "&amp;", i) || OccursAt(s, "&lt;", i) || OccursAt(s, "&gt;", i)
    || OccursAt(s, "&quot;", i) || OccursAt(s, "&#039;", i)
  }

  /** Decoding the five entities, leftmost first; every other character is copied. */
  function Unescape(s: string): string
    decreases |s|
  {
    if s == [] then []
    else if StartsWith(s, "&amp;") then "&" + Unescape(s[5..])
    else if StartsWith(s, "&lt;") then "<" + Unescape(s[4..])
    else if StartsWith(s, "&gt;") then ">" + Unescape(s[4..])
    else if StartsWith(s, "&quot;") then "\"" + Unescape(s[6..])
    else if StartsWith(s, "&#039;") then "'" + Unescape(s[6..])
    else [s[0]] + Unescape(s[1..])
  }

  lemma {:induction false} ReplaceAppend(a: string, b: string, c: char, r: string)
    ensures ReplaceChar(a + b, c, r) == ReplaceChar(a, c, r) + ReplaceChar(b, c, r)
  {
    if a != [] {
      assert (a + b)[1..] == a[1..] + b;
      ReplaceAppend(a[1..], b, c, r);
    } else {
      assert a + b == b;
    }
  }

  lemma ReplaceSingle(x: char, c: char, r: string)
    ensures ReplaceChar([x], c, r) == if x == c then r else [x]
  {
    assert [x][1..] == [];
  }

  lemma EscapeAppend(a: string, b: string)
    ensures EscapeHtml(a + b) == EscapeHtml(a) + EscapeHtml(b)
  {
    var a1, b1 := ReplaceChar(a, '&', "&amp;"), ReplaceChar(b, '&', "&amp;");
    ReplaceAppend(a, b, '&', "&amp;");
    var a2, b2 := ReplaceChar(a1, '<', "&lt;"), ReplaceChar(b1, '<', "&lt;");
    ReplaceAppend(a1, b1, '<', "&lt;");
    var a3, b3 := ReplaceChar(a2, '>', "&gt;"), ReplaceChar(b2, '>', "&gt;");
    ReplaceAppend(a2, b2, '>', "&gt;");
    var a4, b4 := ReplaceChar(a3, '"', "&quot;"), ReplaceChar(b3, '"', "&quot;");
    ReplaceAppend(a3, b3, '"', "&quot;");
    ReplaceAppend(a4, b4, '\'', "&#039;");
  }

  /** An entity the first replaces produced passes the later replaces unchanged. */
  lemma EntityStays(e: string)
    requires Free(e, '<') && Free(e, '>') && Free(e, '"') && Free(e, '\'')
    ensures ReplaceChar(ReplaceChar(ReplaceChar(ReplaceChar(e, '<', "&lt;"), '>', "&gt;"), '"', "&quot;"), '\'', "&#039;") == e
  {
    ReplaceAbsent(e, '<', "&lt;");
    ReplaceAbsent(e, '>', "&gt;");
    ReplaceAbsent(e, '"', "&quot;");
    ReplaceAbsent(e, '\'', "&#039;");
  }

  lemma EscapeOneLate(c: char)
    requires c != '&' && c != '<' && c != '>'
    ensures ReplaceChar(ReplaceChar([c], '"', "&quot;"), '\'', "&#039;") == EscapeChar(c)
  {
    ReplaceSingle(c, '"', "&quot;");
    if c == '"' {
      ReplaceAbsent("&quot;", '\'', "&#039;");
    } else {
      ReplaceSingle(c, '\'', "&#039;");
    }
  }

  lemma EscapeOneMiddle(c: char)
    requires c != '&'
    ensures ReplaceChar(ReplaceChar(ReplaceChar(ReplaceChar([c], '<', "&lt;"), '>', "&gt;"), '"', "&quot;"), '\'', "&#039;") == EscapeChar(c)
  {
    ReplaceSingle(c, '<', "&lt;");
    if c == '<' {
      EntityStays("&lt;");
      ReplaceAbsent("&lt;", '<', "&lt;");
    } else {
      ReplaceSingle(c, '>', "&gt;");
      if c == '>' {
        ReplaceAbsent("&gt;", '"', "&quot;");
        ReplaceAbsent("&gt;", '\'', "&#039;");
      } else {
        EscapeOneLate(c);
      }
    }
  }

  /** Because `&` is replaced first, one character escapes to exactly its own entity. */
  lemma EscapeOne(c: char)
    ensures EscapeHtml([c]) == EscapeChar(c)
  {
    ReplaceSingle(c, '&', "&amp;");
    if c == '&' {
      EntityStays("&amp;");
    } else {
      EscapeOneMiddle(c);
    }
  }

  /** The chained replaces act character by character. */
  lemma {:induction false} EscapeIsCharwise(text: string)
    ensures EscapeHtml(text) == FlatMap(text, EscapeChar)
  {
    if text == [] {
      assert EscapeHtml(text) == [];
    } else {
      assert text == [text[0]] + text[1..];
      EscapeAppend([text[0]], text[1..]);
      EscapeOne(text[0]);
      EscapeIsCharwise(text[1..]);
    }
  }

  /** A character that is not special is copied in place: the output around it is the
      escaped text before it and the escaped text after it. */
  lemma EscapeKeepsOrdinary(a: string, c: char, b: string)
    requires !IsSpecial(c)
    ensures EscapeHtml(a + [c] + b) == EscapeHtml(a) + [c] + EscapeHtml(b)
  {
    EscapeAppend(a + [c], b);
    EscapeAppend(a, [c]);
    EscapeOne(c);
  }

  /** Text without the five special characters is its own escape. */
  lemma {:induction false} EscapeIdentity(text: string)
    requires !HasSpecial(text)
    ensures EscapeHtml(text) == text
  {
    if text != [] {
      assert forall i :: 0 <= i < |text[1..]| ==> text[1..][i] == text[i + 1];
      EscapeIdentity(text[1..]);
      EscapeKeepsOrdinary([], text[0], text[1..]);
      assert text == [] + [text[0]] + text[1..];
      assert EscapeHtml([]) == [];
    } else {
      assert EscapeHtml(text) == [];
    }
  }

  /** The output contains none of `<`, `>`, `"` and `'`. */
  lemma {:induction false} EscapeNoMarkup(text: string)
    ensures forall i :: 0 <= i < |EscapeHtml(text)| ==> var c := EscapeHtml(text)[i];
      c != '<' && c != '>' && c != '"' && c != '\''
  {
    EscapeIsCharwise(text);
    NoMarkupCharwise(text);
  }

  lemma {:induction false} NoMarkupCharwise(text: string)
    ensures forall i :: 0 <= i < |FlatMap(text, EscapeChar)| ==> var c := FlatMap(text, EscapeChar)[i];
      c != '<' && c != '>' && c != '"' && c != '\''
  {
    if text != [] {
      NoMarkupCharwise(text[1..]);
      var e := EscapeChar(text[0]);
      assert forall i :: 0 <= i < |e| ==> e[i] != '<' && e[i] != '>' && e[i] != '"' && e[i] != '\'';
    }
  }

  /** Every `&` of the output begins one of the five entities. */
  lemma {:induction false} EscapeAmpersandsStartEntities(text: string)
    ensures forall i :: 0 <= i < |EscapeHtml(text)| && EscapeHtml(text)[i] == '&' ==>
      StartsEntity(EscapeHtml(text), i)
  {
    EscapeIsCharwise(text);
    AmpersandsCharwise(text);
  }

  lemma {:induction false} AmpersandsCharwise(text: string)
    ensures forall i :: 0 <= i < |FlatMap(text, EscapeChar)| && FlatMap(text, EscapeChar)[i] == '&' ==>
      StartsEntity(FlatMap(text, EscapeChar), i)
  {
    if text != [] {
      var e, rest := EscapeChar(text[0]), FlatMap(text[1..], EscapeChar);
      var s := e + rest;
      AmpersandsCharwise(text[1..]);
      forall i | 0 <= i < |s| && s[i] == '&' ensures StartsEntity(s, i) {
        if i < |e| {
          assert i == 0 && IsSpecial(text[0]);
          assert s[..|e|] == e;
        } else {
          var j := i - |e|;
          assert rest[j] == '&';
          assert StartsEntity(rest, j);
          ShiftOccurrence(e, rest, j);
        }
      }
    }
  }

  lemma ShiftOccurrence(e: string, rest: string, j: int)
    requires StartsEntity(rest, j)
    ensures StartsEntity(e + rest, j + |e|)
  {
    var s := e + rest;
    forall t | OccursAt(rest, t, j) ensures OccursAt(s, t, j + |e|) {
      assert s[j + |e|..j + |e| + |t|] == rest[j..j + |t|];
    }
  }

  /** Decoding the output recovers the input: escaping loses nothing. */
  lemma {:induction false} UnescapeEscape(text: string)
    ensures Unescape(EscapeHtml(text)) == text
  {
    EscapeIsCharwise(text);
    UnescapeCharwise(text);
  }

  lemma {:induction false} UnescapeCharwise(text: string)
    ensures Unescape(FlatMap(text, EscapeChar)) == text
  {
    if text != [] {
      UnescapeCharwise(text[1..]);
      UnescapeFirst(text[0], FlatMap(text[1..], EscapeChar));
    }
  }

  /** The decoder reads back the first character from its escape. */
  lemma UnescapeFirst(c: char, rest: string)
    ensures Unescape(EscapeChar(c) + rest) == [c] + Unescape(rest)
  {
    var s := EscapeChar(c) + rest;
    if c == '&' {
      assert StartsWith(s, "&amp;") && s[5..] == rest;
    } else if c == '<' {
      assert s[1] == 'l' && "&amp;"[1] == 'a';
      assert StartsWith(s, "&lt;") && s[4..] == rest;
    } else if c == '>' {
      assert s[1] == 'g' && "&amp;"[1] == 'a' && "&lt;"[1] == 'l';
      assert StartsWith(s, "&gt;") && s[4..] == rest;
    } else if c == '"' {
      assert s[1] == 'q' && "&amp;"[1] == 'a' && "&lt;"[1] == 'l' && "&gt;"[1] == 'g';
      assert StartsWith(s, "&quot;") && s[6..] == rest;
    } else if c == '\'' {
      assert s[1] == '#' && "&amp;"[1] == 'a' && "&lt;"[1] == 'l' && "&gt;"[1] == 'g' && "&quot;"[1] == 'q';
      assert StartsWith(s, "&#039;") && s[6..] == rest;
    } else {
      assert s[0] == c && s[1..] == rest;
      assert !StartsWith(s, "&amp;") && !StartsWith(s, "&lt;") && !StartsWith(s, "&gt;");
      assert !StartsWith(s, "&quot;") && !StartsWith(s, "&#039;");
    }
  }

  /** Escaping is injective. */
  lemma EscapeInjective(a: string, b: string)
    requires EscapeHtml(a) == EscapeHtml(b)
    ensures a == b
  {
    UnescapeEscape(a);
    UnescapeEscape(b);
  }

  /** The output is never shorter, and it has the input's length exactly when the input has
      none of the five special characters. */
  lemma {:induction false} EscapeLength(text: string)
    ensures |EscapeHtml(text)| >= |text|
    ensures |EscapeHtml(text)| == |text| <==> !HasSpecial(text)
  {
    EscapeIsCharwise(text);
    LengthCharwise(text);
  }

  lemma {:induction false} LengthCharwise(text: string)
    ensures |FlatMap(text, EscapeChar)| >= |text|
    ensures |FlatMap(text, EscapeChar)| == |text| <==> !HasSpecial(text)
  {
    if text != [] {
      LengthCharwise(text[1..]);
      if HasSpecial(text[1..]) {
        var i :| 0 <= i < |text[1..]| && IsSpecial(text[1..][i]);
        assert IsSpecial(text[i + 1]);
      }
      if !IsSpecial(text[0]) && HasSpecial(text) {
        var i :| 0 <= i < |text| && IsSpecial(text[i]);
        assert IsSpecial(text[1..][i - 1]);
      }
    }
  }
}
