/**
 * `escapeHtml` of the collection viewer (src/view.js:9-16): five global
 * replacements applied one after the other, `&` first.  The module proves
 * that the chain acts character by character, that its output is "safe"
 * markup text (no raw `<`, `>`, `"` or `'`, and every `&` opens one of the
 * five entities), and that decoding those five entities gives the input back.
 */
module Html {

  /** `s.replace(/c/g, rep)` for a one-character pattern. */
  function ReplaceAll(s: string, c: char, rep: string): string
  {
    if s == [] then [] else (if s[0] == c then rep else [s[0]]) + ReplaceAll(s[1..], c, rep)
  }

  /** The source's chain of replacements, in the source's order. */
  function EscapeHtml(unsafe: string): string
  {
    var amp := ReplaceAll(unsafe, '&', "&amp;");
    var lt := ReplaceAll(amp, '<', "&lt;");
    var gt := ReplaceAll(lt, '>', "&gt;");
    var quot := ReplaceAll(gt, '"', "&quot;");
    ReplaceAll(quot, '\'', "&#039;")
  }

  /** Reference definition: each reserved character replaced by its entity, independently. */
  function EscapeChar(c: char): string
  {
    match c
    case '&' => "&amp;"
    case '<' => "&lt;"
    case '>' => "&gt;"
    case '"' => "&quot;"
    case '\'' => "&#039;"
    case _ => [c]
  }

  function EscapeEach(s: string): string
  {
    if s == [] then [] else EscapeChar(s[0]) + EscapeEach(s[1..])
  }

  predicate IsReserved(c: char) {
    c == '&' || c == '<' || c == '>' || c == '"' || c == '\''
  }

  predicate StartsWith(s: string, prefix: string) {
    |prefix| <= |s| && s[..|prefix|] == prefix
  }

  /** One of the five entities `escapeHtml` produces starts at position `i`. */
  predicate EntityAt(s: string, i: nat)
    requires i <= |s|
  {
    var rest := s[i..];
    StartsWith(rest, "&amp;") || StartsWith(rest, "&lt;") || StartsWith(rest, "&gt;")
    || StartsWith(rest, "&quot;") || StartsWith(rest, "&#039;")
  }

  /** Text that can be placed in markup as is: no raw `<`, `>`, `"` or `'`, and each `&` opens an entity. */
  predicate Safe(s: string) {
    forall i | 0 <= i < |s| ::
      s[i] != '<' && s[i] != '>' && s[i] != '"' && s[i] != '\'' && (s[i] == '&' ==> EntityAt(s, i))
  }

  /** No reserved character at all. */
  predicate Plain(s: string) {
    forall i | 0 <= i < |s| :: !IsReserved(s[i])
  }

  lemma PlainSafe(s: string)
    requires Plain(s)
    ensures Safe(s)
  {
  }

  /** The notional inverse: decodes exactly the five entities, left to right. */
  function Unescape(s: string): string
  {
    if s == [] then []
    else if StartsWith(s, "&amp;") then "&" + Unescape(s[5..])
    else if StartsWith(s, "&lt;") then "<" + Unescape(s[4..])
    else if StartsWith(s, "&gt;") then ">" + Unescape(s[4..])
    else if StartsWith(s, "&quot;") then "\"" + Unescape(s[6..])
    else if StartsWith(s, "&#039;") then "'" + Unescape(s[6..])
    else [s[0]] + Unescape(s[1..])
  }

  // ---------------------------------------------------------------------
  // The chain of replacements is the per-character escape

  lemma {:induction false} ReplaceAllConcat(a: string, b: string, c: char, rep: string)
    ensures ReplaceAll(a + b, c, rep) == ReplaceAll(a, c, rep) + ReplaceAll(b, c, rep)
  {
    if a != [] {
      assert (a + b)[1..] == a[1..] + b;
      ReplaceAllConcat(a[1..], b, c, rep);
    } else {
      assert a + b == b;
    }
  }

  lemma {:induction false} ReplaceAllAbsent(s: string, c: char, rep: string)
    requires forall i | 0 <= i < |s| :: s[i] != c
    ensures ReplaceAll(s, c, rep) == s
  {
    if s != [] {
      ReplaceAllAbsent(s[1..], c, rep);
    }
  }

  lemma ReplaceAllOne(x: char, c: char, rep: string)
    ensures ReplaceAll([x], c, rep) == if x == c then rep else [x]
  {
    assert [x][1..] == [];
  }

  /** Once an entity is in place, the later replacements of the chain leave it alone. */
  lemma AmpStable()
    ensures ReplaceAll("&amp;", '<', "&lt;") == "&amp;"
    ensures ReplaceAll("&amp;", '>', "&gt;") == "&amp;"
    ensures ReplaceAll("&amp;", '"', "&quot;") == "&amp;"
    ensures ReplaceAll("&amp;", '\'', "&#039;") == "&amp;"
  {
  }

  lemma LtStable()
    ensures ReplaceAll("&lt;", '>', "&gt;") == "&lt;"
    ensures ReplaceAll("&lt;", '"', "&quot;") == "&lt;"
    ensures ReplaceAll("&lt;", '\'', "&#039;") == "&lt;"
  {
  }

  lemma GtStable()
    ensures ReplaceAll("&gt;", '"', "&quot;") == "&gt;"
    ensures ReplaceAll("&gt;", '\'', "&#039;") == "&gt;"
  {
  }

  lemma QuotStable()
    ensures ReplaceAll("&quot;", '\'', "&#039;") == "&quot;"
  {
  }

  /** On one character the chain agrees with `EscapeChar`: no later replacement touches an earlier entity. */
  lemma EscapeHtmlChar(c: char)
    ensures EscapeHtml([c]) == EscapeChar(c)
  {
    ReplaceAllOne(c, '&', "&amp;");
    if c == '&' {
      AmpStable();
      return;
    }
    ReplaceAllOne(c, '<', "&lt;");
    if c == '<' {
      LtStable();
      return;
    }
    ReplaceAllOne(c, '>', "&gt;");
    if c == '>' {
      GtStable();
      return;
    }
    ReplaceAllOne(c, '"', "&quot;");
    if c == '"' {
      QuotStable();
      return;
    }
    ReplaceAllOne(c, '\'', "&#039;");
  }

  /** The chain distributes over concatenation. */
  lemma EscapeHtmlConcat(a: string, b: string)
    ensures EscapeHtml(a + b) == EscapeHtml(a) + EscapeHtml(b)
  {
    var amp, amp' := ReplaceAll(a, '&', "&amp;"), ReplaceAll(b, '&', "&amp;");
    ReplaceAllConcat(a, b, '&', "&amp;");
    var lt, lt' := ReplaceAll(amp, '<', "&lt;"), ReplaceAll(amp', '<', "&lt;");
    ReplaceAllConcat(amp, amp', '<', "&lt;");
    var gt, gt' := ReplaceAll(lt, '>', "&gt;"), ReplaceAll(lt', '>', "&gt;");
    ReplaceAllConcat(lt, lt', '>', "&gt;");
    var quot, quot' := ReplaceAll(gt, '"', "&quot;"), ReplaceAll(gt', '"', "&quot;");
    ReplaceAllConcat(gt, gt', '"', "&quot;");
    ReplaceAllConcat(quot, quot', '\'', "&#039;");
  }

  /** `escapeHtml` replaces every reserved character by its entity and keeps every other character. */
  lemma {:induction false} EscapeHtmlPerChar(s: string)
    ensures EscapeHtml(s) == EscapeEach(s)
  {
    if s != [] {
      assert s == [s[0]] + s[1..];
      EscapeHtmlConcat([s[0]], s[1..]);
      EscapeHtmlChar(s[0]);
      EscapeHtmlPerChar(s[1..]);
    } else {
      assert EscapeHtml(s) == [];
    }
  }

  /** Text with no reserved character is left as it is. */
  lemma EscapeHtmlPlain(s: string)
    requires forall i | 0 <= i < |s| :: !IsReserved(s[i])
    ensures EscapeHtml(s) == s
  {
    ReplaceAllAbsent(s, '&', "&amp;");
    ReplaceAllAbsent(s, '<', "&lt;");
    ReplaceAllAbsent(s, '>', "&gt;");
    ReplaceAllAbsent(s, '"', "&quot;");
    ReplaceAllAbsent(s, '\'', "&#039;");
  }

  // ---------------------------------------------------------------------
  // Safety of the output

  lemma StartsWithExtend(s: string, t: string, prefix: string)
    requires StartsWith(s, prefix)
    ensures StartsWith(s + t, prefix)
  {
    assert (s + t)[..|prefix|] == s[..|prefix|];
  }

  lemma SafeConcat(a: string, b: string)
    requires Safe(a) && Safe(b)
    ensures Safe(a + b)
  {
    var s := a + b;
    forall i | 0 <= i < |s| && s[i] == '&'
      ensures EntityAt(s, i)
    {
      if i < |a| {
        assert s[i..] == a[i..] + b;
        assert EntityAt(a, i);
        var rest := a[i..];
        if StartsWith(rest, "&amp;") { StartsWithExtend(rest, b, "&amp;"); }
        else if StartsWith(rest, "&lt;") { StartsWithExtend(rest, b, "&lt;"); }
        else if StartsWith(rest, "&gt;") { StartsWithExtend(rest, b, "&gt;"); }
        else if StartsWith(rest, "&quot;") { StartsWithExtend(rest, b, "&quot;"); }
        else { StartsWithExtend(rest, b, "&#039;"); }
      } else {
        assert s[i..] == b[i - |a|..];
        assert b[i - |a|] == '&';
      }
    }
  }

  lemma SafeEscapeChar(c: char)
    ensures Safe(EscapeChar(c))
  {
    var e := EscapeChar(c);
    if IsReserved(c) {
      assert e[1..] != [] && forall i | 1 <= i < |e| :: !IsReserved(e[i]);
      assert StartsWith(e, e);
      assert e[0..] == e;
    }
  }

  lemma {:induction false} SafeEscapeEach(s: string)
    ensures Safe(EscapeEach(s))
  {
    if s != [] {
      SafeEscapeChar(s[0]);
      SafeEscapeEach(s[1..]);
      SafeConcat(EscapeChar(s[0]), EscapeEach(s[1..]));
    }
  }

  /** The output of `escapeHtml` never holds a raw `<`, `>`, `"` or `'`, and every `&` in it opens an entity. */
  lemma EscapeHtmlSafe(s: string)
    ensures Safe(EscapeHtml(s))
  {
    EscapeHtmlPerChar(s);
    SafeEscapeEach(s);
  }

  // ---------------------------------------------------------------------
  // Round trip

  lemma UnescapeEscapeChar(c: char, t: string)
    ensures Unescape(EscapeChar(c) + t) == [c] + Unescape(t)
  {
    var s := EscapeChar(c) + t;
    assert s[..|EscapeChar(c)|] == EscapeChar(c);
    assert s[|EscapeChar(c)|..] == t;
    if !IsReserved(c) {
      assert s[0] == c && s[1..] == t;
      assert !StartsWith(s, "&amp;") && !StartsWith(s, "&lt;") && !StartsWith(s, "&gt;");
      assert !StartsWith(s, "&quot;") && !StartsWith(s, "&#039;");
    } else if c == '<' {
      assert s[1] == 'l';
      assert !StartsWith(s, "&amp;");
    } else if c == '>' {
      assert s[1] == 'g';
      assert !StartsWith(s, "&amp;") && !StartsWith(s, "&lt;");
    } else if c == '"' {
      assert s[1] == 'q';
      assert !StartsWith(s, "&amp;") && !StartsWith(s, "&lt;") && !StartsWith(s, "&gt;");
    } else if c == '\'' {
      assert s[1] == '#';
      assert !StartsWith(s, "&amp;") && !StartsWith(s, "&lt;") && !StartsWith(s, "&gt;");
      assert !StartsWith(s, "&quot;");
    }
  }

  lemma {:induction false} UnescapeEscapeEach(s: string)
    ensures Unescape(EscapeEach(s)) == s
  {
    if s == [] {
    } else {
      UnescapeEscapeChar(s[0], EscapeEach(s[1..]));
      UnescapeEscapeEach(s[1..]);
      assert s == [s[0]] + s[1..];
    }
  }

  /** Unescaping the output of `escapeHtml` gives back the input exactly. */
  lemma EscapeHtmlRoundTrip(s: string)
    ensures Unescape(EscapeHtml(s)) == s
  {
    EscapeHtmlPerChar(s);
    UnescapeEscapeEach(s);
  }
}
