/** HTML escaping: `esc` of the editor highlighter (`ui.js`) and
    `escapeHtml` of the saved-schema list (`dragdrop.js`), both chains of
    global replacements with `&` replaced first; and what an unescaped
    attribute value reads back as. */
module Html {
  import opened Wrappers
  import opened Text

  /** `esc`: `&`, then `<`, then `>` replaced by their entities. */
  function Esc(s: string): string {
    ReplaceChar(ReplaceChar(ReplaceChar(s, '&', "&amp;"), '<', "&lt;"), '>', "&gt;")
  }

  /** `escapeHtml`: the same chain followed by `"`. */
  function EscapeHtml(s: string): string {
    ReplaceChar(Esc(s), '"', "&quot;")
  }

  /** What one character becomes in a single left-to-right pass; `quotes`
      says whether `"` is escaped too. */
  function Entity(c: char, quotes: bool): string {
    if c == '&' then "&amp;"
    else if c == '<' then "&lt;"
    else if c == '>' then "&gt;"
    else if c == '"' && quotes then "&quot;"
    else [c]
  }

  function EscapedChars(s: string, quotes: bool): (r: string)
    ensures '<' !in r && '>' !in r
    ensures quotes ==> '"' !in r
  {
    if |s| == 0 then "" else Entity(s[0], quotes) + EscapedChars(s[1..], quotes)
  }

  /** Replacing `&` first means no entity written by a later replacement is
      escaped again: the chain equals the single pass. */
  lemma {:induction false} EscIsSinglePass(s: string)
    ensures Esc(s) == EscapedChars(s, false)
  {
    if |s| > 0 {
      var c, rest := s[0], s[1..];
      assert s == [c] + rest;
      ReplaceCharConcat([c], rest, '&', "&amp;");
      var a := ReplaceChar([c], '&', "&amp;");
      var a' := ReplaceChar(rest, '&', "&amp;");
      ReplaceCharConcat(a, a', '<', "&lt;");
      var b := ReplaceChar(a, '<', "&lt;");
      var b' := ReplaceChar(a', '<', "&lt;");
      ReplaceCharConcat(b, b', '>', "&gt;");
      SingleEntity(c);
      EscIsSinglePass(rest);
    }
  }

  lemma SingleEntity(c: char)
    ensures ReplaceChar(ReplaceChar(ReplaceChar([c], '&', "&amp;"), '<', "&lt;"), '>', "&gt;") == Entity(c, false)
  {
    var a := ReplaceChar([c], '&', "&amp;");
    ReplaceOne(c, '&', "&amp;");
    if c == '&' {
      assert a == "&amp;";
      assert '<' !in a && '>' !in a;
      ReplaceCharAbsent(a, '<', "&lt;");
      ReplaceCharAbsent(a, '>', "&gt;");
    } else {
      assert a == [c];
      var b := ReplaceChar(a, '<', "&lt;");
      ReplaceOne(c, '<', "&lt;");
      if c == '<' {
        assert b == "&lt;" && '>' !in b;
        ReplaceCharAbsent(b, '>', "&gt;");
      } else {
        assert b == [c];
        ReplaceOne(c, '>', "&gt;");
      }
    }
  }

  lemma ReplaceOne(c: char, x: char, r: string)
    ensures ReplaceChar([c], x, r) == if c == x then r else [c]
  {
    assert [c][1..] == "";
  }

  /** The same for `escapeHtml`. */
  lemma {:induction false} EscapeHtmlIsSinglePass(s: string)
    ensures EscapeHtml(s) == EscapedChars(s, true)
  {
    EscIsSinglePass(s);
    QuotesAfter(s);
  }

  lemma {:induction false} QuotesAfter(s: string)
    ensures ReplaceChar(EscapedChars(s, false), '"', "&quot;") == EscapedChars(s, true)
  {
    if |s| > 0 {
      var e, rest := Entity(s[0], false), EscapedChars(s[1..], false);
      assert EscapedChars(s, false) == e + rest;
      ReplaceCharConcat(e, rest, '"', "&quot;");
      QuoteEntity(s[0]);
      QuotesAfter(s[1..]);
      assert EscapedChars(s, true) == Entity(s[0], true) + EscapedChars(s[1..], true);
    }
  }

  lemma QuoteEntity(c: char)
    ensures ReplaceChar(Entity(c, false), '"', "&quot;") == Entity(c, true)
  {
    if c == '"' {
      ReplaceOne(c, '"', "&quot;");
    } else {
      ReplaceCharAbsent(Entity(c, false), '"', "&quot;");
    }
  }

  /** Reading the four entities back, left to right. */
  function Unescape(s: string): string
    decreases |s|
  {
    if |s| == 0 then ""
    else if |s| >= 5 && s[..5] == "&amp;" then "&" + Unescape(s[5..])
    else if |s| >= 4 && s[..4] == "&lt;" then "<" + Unescape(s[4..])
    else if |s| >= 4 && s[..4] == "&gt;" then ">" + Unescape(s[4..])
    else if |s| >= 6 && s[..6] == "&quot;" then "\"" + Unescape(s[6..])
    else [s[0]] + Unescape(s[1..])
  }

  lemma UnescapeEntity(c: char, quotes: bool, rest: string)
    ensures Unescape(Entity(c, quotes) + rest) == [c] + Unescape(rest)
  {
    var e := Entity(c, quotes);
    var s := e + rest;
    assert s[..|e|] == e;
    assert s[|e|..] == rest;
    if e == [c] {
      assert s[0] == c && s[1..] == rest;
      assert |s| >= 4 ==> s[..4][0] == c;
      assert |s| >= 5 ==> s[..5][0] == c;
      assert |s| >= 6 ==> s[..6][0] == c;
    } else if c == '<' {
      assert |s| >= 5 ==> s[..5][1] == 'l';
    } else if c == '>' {
      assert |s| >= 5 ==> s[..5][1] == 'g';
      assert s[..4][1] == 'g';
    } else if c == '"' {
      assert s[..5][1] == 'q' && s[..4][1] == 'q';
    }
  }

  /** Escaping loses nothing: the entities read back to the original text,
      with or without the quote rule. */
  lemma {:induction false} EscapedCharsRoundTrip(s: string, quotes: bool)
    ensures Unescape(EscapedChars(s, quotes)) == s
  {
    if |s| > 0 {
      UnescapeEntity(s[0], quotes, EscapedChars(s[1..], quotes));
      EscapedCharsRoundTrip(s[1..], quotes);
      assert s == [s[0]] + s[1..];
    }
  }

  /** `esc` output has no raw `<` or `>` and reads back to its input. */
  lemma EscSafe(s: string)
    ensures '<' !in Esc(s) && '>' !in Esc(s)
    ensures Unescape(Esc(s)) == s
  {
    EscIsSinglePass(s);
    EscapedCharsRoundTrip(s, false);
  }

  /** `escapeHtml` output has no raw `<`, `>` or `"` and reads back to its
      input. */
  lemma EscapeHtmlSafe(s: string)
    ensures '<' !in EscapeHtml(s) && '>' !in EscapeHtml(s) && '"' !in EscapeHtml(s)
    ensures Unescape(EscapeHtml(s)) == s
  {
    EscapeHtmlIsSinglePass(s);
    EscapedCharsRoundTrip(s, true);
  }

  /** The `value` the browser gives an input written as `value="${x}"`
      into `innerHTML` without escaping (the table modal's column rows,
      js/modals.js:124, and the card's name input, js/tables.js:145): the
      attribute ends at the first `"` of `x`, so only the part before it
      comes back. */
  function AttrValueRead(name: string): (r: string)
    ensures r <= name && '"' !in r
    ensures '"' !in name ==> r == name
    ensures '"' in name ==> |r| < |name| && name[|r|] == '"'
  {
    match IndexOf(name, '"')
    case None => name
    case Some(k) => name[..k]
  }
}
