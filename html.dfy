/** HTML escaping as both result renderers do it (src/resultRenderer.ts:3-9
    and src/controller.ts:158-164 are the same function): four global
    replacements, `&` first. */
module Html {
  import opened Text

  /** `escapeHtml(text)`, exactly as the source chains the replacements. */
  function EscapeHtml(text: string): string
  {
    ReplaceAll(ReplaceAll(ReplaceAll(ReplaceAll(text, '&', "&amp;"), '<', "&lt;"), '>', "&gt;"), '"', "&quot;")
  }

  /** The entity one character becomes. */
  function Entity(c: char): string
  {
    if c == '&' then "&amp;"
    else if c == '<' then "&lt;"
    else if c == '>' then "&gt;"
    else if c == '"' then "&quot;"
    else [c]
  }

  /** Escaping one character at a time: the reference the chained
      replacements are measured against. */
  function EscapeEach(s: string): string
  {
    if |s| == 0 then "" else Entity(s[0]) + EscapeEach(s[1..])
  }

  lemma {:induction false} ReplaceAllAbsent(s: string, c: char, r: string)
    requires c !in s
    ensures ReplaceAll(s, c, r) == s
    decreases |s|
  {
    if |s| > 0 {
      assert c !in s[1..];
      ReplaceAllAbsent(s[1..], c, r);
      assert [s[0]] + s[1..] == s;
    }
  }

  lemma ReplaceAllHit(c: char, r: string)
    ensures ReplaceAll([c], c, r) == r
  {
    assert [c][1..] == [];
  }

  lemma EscapeAmp()
    ensures EscapeHtml("&") == "&amp;"
  {
    var amp := "&amp;";
    ReplaceAllHit('&', amp);
    assert ReplaceAll("&", '&', "&amp;") == amp;
    assert '<' !in amp && '>' !in amp && '"' !in amp;
    ReplaceAllAbsent(amp, '<', "&lt;");
    ReplaceAllAbsent(amp, '>', "&gt;");
    ReplaceAllAbsent(amp, '"', "&quot;");
  }

  lemma EscapeLt()
    ensures EscapeHtml("<") == "&lt;"
  {
    ReplaceAllAbsent("<", '&', "&amp;");
    ReplaceAllHit('<', "&lt;");
    ReplaceAllAbsent("&lt;", '>', "&gt;");
    ReplaceAllAbsent("&lt;", '"', "&quot;");
  }

  lemma EscapeGt()
    ensures EscapeHtml(">") == "&gt;"
  {
    ReplaceAllAbsent(">", '&', "&amp;");
    ReplaceAllAbsent(">", '<', "&lt;");
    ReplaceAllHit('>', "&gt;");
    ReplaceAllAbsent("&gt;", '"', "&quot;");
  }

  lemma EscapeQuot()
    ensures EscapeHtml("\"") == "&quot;"
  {
    ReplaceAllAbsent("\"", '&', "&amp;");
    ReplaceAllAbsent("\"", '<', "&lt;");
    ReplaceAllAbsent("\"", '>', "&gt;");
    ReplaceAllHit('"', "&quot;");
  }

  lemma EscapePlain(c: char)
    requires c != '&' && c != '<' && c != '>' && c != '"'
    ensures EscapeHtml([c]) == [c]
  {
    ReplaceAllAbsent([c], '&', "&amp;");
    ReplaceAllAbsent([c], '<', "&lt;");
    ReplaceAllAbsent([c], '>', "&gt;");
    ReplaceAllAbsent([c], '"', "&quot;");
  }

  lemma EscapeOneChar(c: char)
    ensures EscapeHtml([c]) == Entity(c)
  {
    if c == '&' {
      EscapeAmp();
    } else if c == '<' {
      EscapeLt();
    } else if c == '>' {
      EscapeGt();
    } else if c == '"' {
      EscapeQuot();
    } else {
      EscapePlain(c);
    }
  }


  /** Because `&` is replaced first, no entity produced by a later step is
      escaped again: the four passes escape each character exactly once. */
  lemma {:induction false} EscapeHtmlIsEscapeEach(s: string)
    ensures EscapeHtml(s) == EscapeEach(s)
    decreases |s|
  {
    if |s| > 0 {
      var a, b := [s[0]], s[1..];
      assert s == a + b;
      ReplaceAllConcat(a, b, '&', "&amp;");
      var a1, b1 := ReplaceAll(a, '&', "&amp;"), ReplaceAll(b, '&', "&amp;");
      ReplaceAllConcat(a1, b1, '<', "&lt;");
      var a2, b2 := ReplaceAll(a1, '<', "&lt;"), ReplaceAll(b1, '<', "&lt;");
      ReplaceAllConcat(a2, b2, '>', "&gt;");
      var a3, b3 := ReplaceAll(a2, '>', "&gt;"), ReplaceAll(b2, '>', "&gt;");
      ReplaceAllConcat(a3, b3, '"', "&quot;");
      assert EscapeHtml(s) == EscapeHtml(a) + EscapeHtml(b);
      EscapeOneChar(s[0]);
      EscapeHtmlIsEscapeEach(b);
    }
  }

  /** Escaped text holds no `<`, `>` or `"`, so it can neither open or close
      an element nor end an attribute value. */
  lemma {:induction false} EscapeEachAvoids(s: string, c: char)
    requires c == '<' || c == '>' || c == '"'
    ensures c !in EscapeEach(s)
    decreases |s|
  {
    if |s| > 0 {
      EscapeEachAvoids(s[1..], c);
    }
  }

  lemma EscapeHtmlAvoids(s: string, c: char)
    requires c == '<' || c == '>' || c == '"'
    ensures c !in EscapeHtml(s)
  {
    EscapeHtmlIsEscapeEach(s);
    EscapeEachAvoids(s, c);
  }

  /** How a browser decodes the four entities back into characters. */
  function Unescape(s: string): string
    decreases |s|
  {
    if |s| == 0 then ""
    else if |s| >= 5 && s[..5] == "&amp;" then "&" + Unescape(s[5..])
    else if |s| >= 4 && s[..4] == "&lt;" then "<" + Unescape(s[4..])
    else if |s| >= 4 && s[..4] == "&gt;" then ">" + Unescape(s[4..])
    else if |s| >= 6 && s[..6] == "&quot;" then "\"" + Unescape(s[6..])
    else [s[0]] + Unescape(s[1..])
  }

  lemma UnescapeAmp(rest: string)
    ensures Unescape("&amp;" + rest) == "&" + Unescape(rest)
  {
    var t := "&amp;" + rest;
    assert t[..5] == "&amp;" && t[5..] == rest;
  }

  lemma UnescapeLt(rest: string)
    ensures Unescape("&lt;" + rest) == "<" + Unescape(rest)
  {
    var t := "&lt;" + rest;
    assert t[1] == 'l';
    assert !(|t| >= 5 && t[..5] == "&amp;");
    assert t[..4] == "&lt;" && t[4..] == rest;
  }

  lemma UnescapeGt(rest: string)
    ensures Unescape("&gt;" + rest) == ">" + Unescape(rest)
  {
    var t := "&gt;" + rest;
    assert t[1] == 'g';
    assert !(|t| >= 5 && t[..5] == "&amp;");
    assert !(t[..4] == "&lt;");
    assert t[..4] == "&gt;" && t[4..] == rest;
  }

  lemma UnescapeQuot(rest: string)
    ensures Unescape("&quot;" + rest) == "\"" + Unescape(rest)
  {
    var t := "&quot;" + rest;
    assert t[1] == 'q';
    assert !(|t| >= 5 && t[..5] == "&amp;");
    assert !(t[..4] == "&lt;") && !(t[..4] == "&gt;");
    assert t[..6] == "&quot;" && t[6..] == rest;
  }

  lemma UnescapePlain(c: char, rest: string)
    requires c != '&'
    ensures Unescape([c] + rest) == [c] + Unescape(rest)
  {
    var t := [c] + rest;
    assert t[0] == c && t[1..] == rest;
  }

  /** Decoding undoes the entity of one character, whatever follows it. */
  lemma UnescapeEntity(c: char, rest: string)
    ensures Unescape(Entity(c) + rest) == [c] + Unescape(rest)
  {
    if c == '&' {
      UnescapeAmp(rest);
    } else if c == '<' {
      UnescapeLt(rest);
    } else if c == '>' {
      UnescapeGt(rest);
    } else if c == '"' {
      UnescapeQuot(rest);
    } else {
      UnescapePlain(c, rest);
    }
  }

  /** Decoding escaped text gives the original text back: escaping loses
      nothing and never double-escapes. */
  lemma {:induction false} UnescapeEscapeEach(s: string)
    ensures Unescape(EscapeEach(s)) == s
    decreases |s|
  {
    if |s| > 0 {
      UnescapeEntity(s[0], EscapeEach(s[1..]));
      UnescapeEscapeEach(s[1..]);
      assert [s[0]] + s[1..] == s;
    }
  }

  lemma UnescapeEscapeHtml(s: string)
    ensures Unescape(EscapeHtml(s)) == s
  {
    EscapeHtmlIsEscapeEach(s);
    UnescapeEscapeEach(s);
  }

  /** Escaping is injective: different texts stay different on the page. */
  lemma EscapeHtmlInjective(s: string, t: string)
    requires EscapeHtml(s) == EscapeHtml(t)
    ensures s == t
  {
    UnescapeEscapeHtml(s);
    UnescapeEscapeHtml(t);
  }

  lemma EscapeHtmlConcat(a: string, b: string)
    ensures EscapeHtml(a + b) == EscapeHtml(a) + EscapeHtml(b)
  {
    ReplaceAllConcat(a, b, '&', "&amp;");
    var a1, b1 := ReplaceAll(a, '&', "&amp;"), ReplaceAll(b, '&', "&amp;");
    ReplaceAllConcat(a1, b1, '<', "&lt;");
    var a2, b2 := ReplaceAll(a1, '<', "&lt;"), ReplaceAll(b1, '<', "&lt;");
    ReplaceAllConcat(a2, b2, '>', "&gt;");
    var a3, b3 := ReplaceAll(a2, '>', "&gt;"), ReplaceAll(b2, '>', "&gt;");
    ReplaceAllConcat(a3, b3, '"', "&quot;");
  }

  /** The number of `<` characters in escaped text is zero. */
  lemma EscapeHtmlNoTags(s: string)
    ensures Count(EscapeHtml(s), '<') == 0
  {
    EscapeHtmlAvoids(s, '<');
    CountAbsent(EscapeHtml(s), '<');
  }
}
