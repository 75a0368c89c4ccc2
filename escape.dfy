/**
 * HTML escaping of stream titles (`escapeHtml` in app.js).
 *
 * app.js:92 calls `text.replace(/[&<>"']/g, m => map[m])`: a global replace
 * whose pattern matches exactly one character, so every character is looked at
 * once, left to right, and either replaced by its entity or kept. That is a
 * per-character map, which is how `EscapeHtml` is written here.
 */
module HtmlEscape {

  /** The five characters that `escapeHtml` replaces. */
  predicate IsSpecial(c: char) {
    c == '&' || c == '<' || c == '>' || c == '"' || c == '\''
  }

  /** The characters that could open a tag or close an attribute value. */
  predicate IsMarkup(c: char) {
    c == '<' || c == '>' || c == '"' || c == '\''
  }

  predicate NoSpecials(s: string) {
    forall i :: 0 <= i < |s| ==> !IsSpecial(s[i])
  }

  predicate NoMarkup(s: string) {
    forall i :: 0 <= i < |s| ==> !IsMarkup(s[i])
  }

  /** True when `t` starts with one of the five entities that `escapeHtml` emits. */
  predicate BeginsEntity(t: string) {
    "&amp;" <= t || "&lt;" <= t || "&gt;" <= t || "&quot;" <= t || "&#039;" <= t
  }

  /** The lookup table of `escapeHtml`; characters outside it are kept. */
  function EscapeChar(c: char): string {
    if c == '&' then "&amp;"
    else if c == '<' then "&lt;"
    else if c == '>' then "&gt;"
    else if c == '"' then "&quot;"
    else if c == '\'' then "&#039;"
    else [c]
  }

  /** `escapeHtml(text)`. The output is never shorter than the input, and has
      the same length exactly when nothing had to be replaced. */
  function EscapeHtml(text: string): (r: string)
    ensures |r| >= |text|
    ensures |r| == |text| <==> NoSpecials(text)
  {
    if text == [] then []
    else
      var r := EscapeChar(text[0]) + EscapeHtml(text[1..]);
      assert NoSpecials(text) <==> !IsSpecial(text[0]) && NoSpecials(text[1..]) by {
        if !IsSpecial(text[0]) && NoSpecials(text[1..]) {
          forall i | 0 <= i < |text| ensures !IsSpecial(text[i]) {
            if i > 0 { assert text[i] == text[1..][i - 1]; }
          }
        }
      }
      r
  }

  /** Decodes the five entities that `EscapeHtml` produces; every other
      character is copied. This is the inverse used to state that escaping
      loses nothing. */
  function Unescape(t: string): (r: string)
    decreases |t|
  {
    if t == [] then []
    else if "&amp;" <= t then "&" + Unescape(t[5..])
    else if "&lt;" <= t then "<" + Unescape(t[4..])
    else if "&gt;" <= t then ">" + Unescape(t[4..])
    else if "&quot;" <= t then "\"" + Unescape(t[6..])
    else if "&#039;" <= t then "'" + Unescape(t[6..])
    else [t[0]] + Unescape(t[1..])
  }

  /** Escaping distributes over concatenation: it is the concatenation of
      the per-character map. */
  lemma {:induction false} EscapeHtmlAppend(a: string, b: string)
    ensures EscapeHtml(a + b) == EscapeHtml(a) + EscapeHtml(b)
  {
    if a == [] {
      assert a + b == b;
    } else {
      assert (a + b)[0] == a[0];
      assert (a + b)[1..] == a[1..] + b;
      EscapeHtmlAppend(a[1..], b);
    }
  }

  /** No raw `<`, `>`, `"` or `'` survives escaping. */
  lemma {:induction false} EscapeHtmlNoMarkup(text: string)
    ensures NoMarkup(EscapeHtml(text))
  {
    if text != [] {
      EscapeHtmlNoMarkup(text[1..]);
      var e, rest := EscapeChar(text[0]), EscapeHtml(text[1..]);
      assert NoMarkup(e);
      forall i | 0 <= i < |e + rest| ensures !IsMarkup((e + rest)[i]) {
        if i >= |e| { assert (e + rest)[i] == rest[i - |e|]; }
      }
    }
  }

  /** Every `&` in the output begins one of the five entities. */
  lemma {:induction false} EscapeHtmlAmpersands(text: string)
    ensures forall i :: 0 <= i < |EscapeHtml(text)| && EscapeHtml(text)[i] == '&' ==>
              BeginsEntity(EscapeHtml(text)[i..])
  {
    if text != [] {
      EscapeHtmlAmpersands(text[1..]);
      var e, rest := EscapeChar(text[0]), EscapeHtml(text[1..]);
      var r := e + rest;
      assert r == EscapeHtml(text);
      forall i | 0 <= i < |r| && r[i] == '&' ensures BeginsEntity(r[i..]) {
        if i < |e| {
          assert i == 0 && IsSpecial(text[0]);
          assert r[..|e|] == e;
          assert e <= r;
        } else {
          assert r[i] == rest[i - |e|];
          assert r[i..] == rest[i - |e|..];
        }
      }
    }
  }

  /** Escaping changes a string exactly when it holds one of `& < > " '`. */
  lemma {:induction false} EscapeHtmlIdentity(text: string)
    ensures EscapeHtml(text) == text <==> NoSpecials(text)
  {
    if NoSpecials(text) && text != [] {
      assert NoSpecials(text[1..]) by {
        forall i | 0 <= i < |text[1..]| ensures !IsSpecial(text[1..][i]) {
          assert text[1..][i] == text[i + 1];
        }
      }
      EscapeHtmlIdentity(text[1..]);
      assert text == [text[0]] + text[1..];
    }
  }

  /** Decoding undoes the escaping of one character in front of any text. */
  lemma UnescapeStep(c: char, rest: string)
    ensures Unescape(EscapeChar(c) + rest) == [c] + Unescape(rest)
  {
    var e := EscapeChar(c);
    var t := e + rest;
    assert t[..|e|] == e && t[|e|..] == rest;
    if c == '&' {
      assert "&amp;" <= t;
    } else if c == '<' {
      assert t[1] == 'l';
      assert "&lt;" <= t;
    } else if c == '>' {
      assert t[1] == 'g';
      assert "&gt;" <= t;
    } else if c == '"' {
      assert t[1] == 'q';
      assert "&quot;" <= t;
    } else if c == '\'' {
      assert t[1] == '#';
      assert "&#039;" <= t;
    } else {
      assert t[0] == c && c != '&';
      assert !BeginsEntity(t);
    }
  }

  /** Decoding the five entities of the escaped string gives the original
      back. */
  lemma {:induction false} UnescapeEscape(text: string)
    ensures Unescape(EscapeHtml(text)) == text
  {
    if text != [] {
      UnescapeStep(text[0], EscapeHtml(text[1..]));
      UnescapeEscape(text[1..]);
      assert text == [text[0]] + text[1..];
    }
  }

  /** Two titles that escape to the same markup are the same title. */
  lemma EscapeHtmlInjective(a: string, b: string)
    requires EscapeHtml(a) == EscapeHtml(b)
    ensures a == b
  {
    UnescapeEscape(a);
    UnescapeEscape(b);
  }
}
