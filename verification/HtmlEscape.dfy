// HTML escaping: five whole-string replacements in a row, and why they amount to one substitution.
module HtmlEscape {

  /** Replaces every occurrence of one character, left to right, in one pass. */
  function Replace(s: string, c: char, entity: string): string {
    if s == "" then "" else (if s[0] == c then entity else [s[0]]) + Replace(s[1..], c, entity)
  }

  /** Ampersands first, then the characters whose entities contain ampersands. */
  function Escape(s: string): string {
    Replace(Replace(Replace(Replace(Replace(s, '&', "&amp;"), '<', "&lt;"), '>', "&gt;"), '\"', "&quot;"), '\'',
            "&#39;")
  }

  /** What one character becomes. */
  function Entity(c: char): (e: string)
    ensures e != ""
  {
    if c == '&' then "&amp;"
    else if c == '<' then "&lt;"
    else if c == '>' then "&gt;"
    else if c == '\"' then "&quot;"
    else if c == '\'' then "&#39;"
    else [c]
  }

  function Substitute(s: string): string {
    if s == "" then "" else Entity(s[0]) + Substitute(s[1..])
  }

  /** Reads the entities back; anything else stands for itself. */
  function Unescape(s: string): string
    decreases |s|
  {
    if s == "" then ""
    else if "&amp;" <= s then "&" + Unescape(s[5..])
    else if "&lt;" <= s then "<" + Unescape(s[4..])
    else if "&gt;" <= s then ">" + Unescape(s[4..])
    else if "&quot;" <= s then "\"" + Unescape(s[6..])
    else if "&#39;" <= s then "'" + Unescape(s[5..])
    else [s[0]] + Unescape(s[1..])
  }

  lemma {:induction false} ReplaceConcat(s: string, t: string, c: char, entity: string)
    ensures Replace(s + t, c, entity) == Replace(s, c, entity) + Replace(t, c, entity)
  {
    if s == "" {
      assert s + t == t;
    } else {
      assert (s + t)[1..] == s[1..] + t;
      ReplaceConcat(s[1..], t, c, entity);
    }
  }

  lemma {:induction false} ReplaceAbsent(s: string, c: char, entity: string)
    requires c !in s
    ensures Replace(s, c, entity) == s
  {
    if s != "" { ReplaceAbsent(s[1..], c, entity); }
  }

  lemma EscapeConcat(s: string, t: string)
    ensures Escape(s + t) == Escape(s) + Escape(t)
  {
    hide Replace;
    ReplaceConcat(s, t, '&', "&amp;");
    var s1, t1 := Replace(s, '&', "&amp;"), Replace(t, '&', "&amp;");
    ReplaceConcat(s1, t1, '<', "&lt;");
    var s2, t2 := Replace(s1, '<', "&lt;"), Replace(t1, '<', "&lt;");
    ReplaceConcat(s2, t2, '>', "&gt;");
    var s3, t3 := Replace(s2, '>', "&gt;"), Replace(t2, '>', "&gt;");
    ReplaceConcat(s3, t3, '\"', "&quot;");
    var s4, t4 := Replace(s3, '\"', "&quot;"), Replace(t3, '\"', "&quot;");
    ReplaceConcat(s4, t4, '\'', "&#39;");
  }

  lemma ReplaceOne(x: char, c: char, entity: string)
    ensures Replace([x], c, entity) == if x == c then entity else [x]
  {
    assert [x][1..] == "";
    assert entity + "" == entity;
  }

  lemma EscapeChar(c: char)
    ensures Escape([c]) == Entity(c)
  {
    ReplaceOne(c, '&', "&amp;");
    ReplaceOne(c, '<', "&lt;");
    ReplaceOne(c, '>', "&gt;");
    ReplaceOne(c, '\"', "&quot;");
    ReplaceOne(c, '\'', "&#39;");
    hide Replace;
    var e := Entity(c);
    if c == '&' || c == '<' || c == '>' || c == '\"' || c == '\'' {
      if c == '&' { ReplaceAbsent(e, '<', "&lt;"); }
      if c == '&' || c == '<' { ReplaceAbsent(e, '>', "&gt;"); }
      if c == '&' || c == '<' || c == '>' { ReplaceAbsent(e, '\"', "&quot;"); }
      if c != '\'' { ReplaceAbsent(e, '\'', "&#39;"); }
    }
  }

  /** What becomes of each of the five characters, and that others stay. */
  lemma EntitiesAre(c: char)
    ensures Escape("&") == "&amp;" && Escape("<") == "&lt;" && Escape(">") == "&gt;"
    ensures Escape("\"") == "&quot;" && Escape("'") == "&#39;"
    ensures c !in "&<>\"'" ==> Escape([c]) == [c]
  {
    EscapeChar('&');
    EscapeChar('<');
    EscapeChar('>');
    EscapeChar('\"');
    EscapeChar('\'');
    EscapeChar(c);
    hide Escape;
  }

  /** The sequential replacements equal one simultaneous substitution. */
  lemma {:induction false} EscapeIsSubstitution(s: string)
    ensures Escape(s) == Substitute(s)
  {
    if s != "" {
      hide Escape, Entity;
      EscapeChar(s[0]);
      EscapeConcat([s[0]], s[1..]);
      assert s == [s[0]] + s[1..];
      EscapeIsSubstitution(s[1..]);
    }
  }

  /** Replacing ampersands last instead would escape the other entities a second time. */
  lemma AmpersandMustComeFirst()
    ensures Replace(Replace("<", '<', "&lt;"), '&', "&amp;") == "&amp;lt;" && Escape("<") == "&lt;"
  {
    EscapeChar('<');
    hide Replace, Escape;
    ReplaceOne('<', '<', "&lt;");
    assert "&lt;" == "&" + "lt;";
    ReplaceConcat("&", "lt;", '&', "&amp;");
    ReplaceOne('&', '&', "&amp;");
    ReplaceAbsent("lt;", '&', "&amp;");
  }

  lemma {:induction false} SubstituteHasNoMarkup(s: string)
    ensures forall c :: c in Substitute(s) ==> c != '<' && c != '>' && c != '\"' && c != '\''
  {
    if s != "" { SubstituteHasNoMarkup(s[1..]); }
  }

  /** No markup character survives, so the text cannot open or close a tag or an attribute value. */
  lemma {:induction false} EscapedHasNoMarkup(s: string)
    ensures forall c :: c in Escape(s) ==> c != '<' && c != '>' && c != '\"' && c != '\''
  {
    EscapeIsSubstitution(s);
    SubstituteHasNoMarkup(s);
  }

  lemma UnescapeEntity(c: char, rest: string)
    ensures Unescape(Entity(c) + rest) == [c] + Unescape(rest)
  {
    var t := Entity(c) + rest;
    assert t[|Entity(c)|..] == rest;
    if c == '&' {
      assert "&amp;" <= t;
    } else if c == '<' {
      assert t[1] == 'l';
      assert "&lt;" <= t;
    } else if c == '>' {
      assert t[1] == 'g';
      assert "&gt;" <= t;
    } else if c == '\"' {
      assert t[1] == 'q';
      assert "&quot;" <= t;
    } else if c == '\'' {
      assert t[1] == '#';
      assert "&#39;" <= t;
    } else {
      assert t[0] == c;
    }
  }

  lemma {:induction false} SubstituteRoundTrip(s: string)
    ensures Unescape(Substitute(s)) == s
  {
    if s != "" {
      hide Entity, Unescape;
      UnescapeEntity(s[0], Substitute(s[1..]));
      SubstituteRoundTrip(s[1..]);
      assert [s[0]] + s[1..] == s;
    } else {
      assert Unescape("") == "";
    }
  }

  /** Escaping loses nothing: unescaping gives the text back. */
  lemma EscapeRoundTrip(s: string)
    ensures Unescape(Escape(s)) == s
  {
    EscapeIsSubstitution(s);
    SubstituteRoundTrip(s);
  }

  lemma EscapeInjective(s: string, t: string)
    requires Escape(s) == Escape(t)
    ensures s == t
  {
    EscapeRoundTrip(s);
    EscapeRoundTrip(t);
  }
}
