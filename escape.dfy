/** `html.escape(s)` with its default `quote=True`, applied to every header
    and cell text of the HTML report, and a reference decoder that undoes it. */
module HtmlEscape {

  /** The five characters `html.escape` replaces. */
  predicate Special(c: char)
  {
    c == '&' || c == '<' || c == '>' || c == '"' || c == '\''
  }

  function EscapeChar(c: char): string
  {
    if c == '&' then "&amp;"
    else if c == '<' then "&lt;"
    else if c == '>' then "&gt;"
    else if c == '"' then "&quot;"
    else if c == '\'' then "&#x27;"
    else [c]
  }

  /** The escaped text holds no angle bracket and no quote, so no data can
      open a tag or end an attribute value. */
  function Escape(s: string): (r: string)
    ensures forall i :: 0 <= i < |r| ==> r[i] != '<' && r[i] != '>' && r[i] != '"' && r[i] != '\''
    ensures |s| <= |r|
  {
    if s == [] then "" else EscapeChar(s[0]) + Escape(s[1..])
  }

  /** Reads the five entities `Escape` writes back as the characters they stand for. */
  function Unescape(r: string): string
  {
    if r == [] then ""
    else if |r| >= 5 && r[..5] == "&amp;" then "&" + Unescape(r[5..])
    else if |r| >= 4 && r[..4] == "&lt;" then "<" + Unescape(r[4..])
    else if |r| >= 4 && r[..4] == "&gt;" then ">" + Unescape(r[4..])
    else if |r| >= 6 && r[..6] == "&quot;" then "\"" + Unescape(r[6..])
    else if |r| >= 6 && r[..6] == "&#x27;" then "'" + Unescape(r[6..])
    else [r[0]] + Unescape(r[1..])
  }

  lemma UnescapeAmp(rest: string)
    ensures Unescape("&amp;" + rest) == "&" + Unescape(rest)
  {
    var e := "&amp;" + rest;
    assert e[..5] == "&amp;" && e[5..] == rest;
  }

  lemma UnescapeLt(rest: string)
    ensures Unescape("&lt;" + rest) == "<" + Unescape(rest)
  {
    var e := "&lt;" + rest;
    assert e[..4] == "&lt;" && e[4..] == rest;
    assert e[1] == 'l';
  }

  lemma UnescapeGt(rest: string)
    ensures Unescape("&gt;" + rest) == ">" + Unescape(rest)
  {
    var e := "&gt;" + rest;
    assert e[..4] == "&gt;" && e[4..] == rest;
    assert e[1] == 'g';
  }

  lemma UnescapeQuot(rest: string)
    ensures Unescape("&quot;" + rest) == "\"" + Unescape(rest)
  {
    var e := "&quot;" + rest;
    assert e[..6] == "&quot;" && e[6..] == rest;
    assert e[1] == 'q';
  }

  lemma UnescapeApos(rest: string)
    ensures Unescape("&#x27;" + rest) == "'" + Unescape(rest)
  {
    var e := "&#x27;" + rest;
    assert e[..6] == "&#x27;" && e[6..] == rest;
    assert e[1] == '#';
  }

  /** Text that does not start with `&` starts with no entity. */
  lemma UnescapeNoEntity(r: string)
    requires r != [] && r[0] != '&'
    ensures Unescape(r) == [r[0]] + Unescape(r[1..])
  {
    if |r| >= 4 {
      assert r[..4][0] == r[0];
    }
    if |r| >= 5 {
      assert r[..5][0] == r[0];
    }
    if |r| >= 6 {
      assert r[..6][0] == r[0];
    }
  }

  lemma UnescapeOther(c: char, rest: string)
    requires !Special(c)
    ensures Unescape([c] + rest) == [c] + Unescape(rest)
  {
    var e := [c] + rest;
    assert e[0] == c && e[1..] == rest;
    UnescapeNoEntity(e);
  }

  lemma UnescapeChar(c: char, rest: string)
    ensures Unescape(EscapeChar(c) + rest) == [c] + Unescape(rest)
  {
    if c == '&' {
      UnescapeAmp(rest);
    } else if c == '<' {
      UnescapeLt(rest);
    } else if c == '>' {
      UnescapeGt(rest);
    } else if c == '"' {
      UnescapeQuot(rest);
    } else if c == '\'' {
      UnescapeApos(rest);
    } else {
      UnescapeOther(c, rest);
    }
  }

  /** Escaping loses nothing: the original text can be read back. */
  lemma {:induction false} UnescapeEscape(s: string)
    ensures Unescape(Escape(s)) == s
  {
    if s != [] {
      UnescapeEscape(s[1..]);
      UnescapeChar(s[0], Escape(s[1..]));
      assert [s[0]] + s[1..] == s;
    }
  }

  /** Different texts never escape to the same markup. */
  lemma EscapeInjective(s: string, t: string)
    requires Escape(s) == Escape(t)
    ensures s == t
  {
    UnescapeEscape(s);
    UnescapeEscape(t);
  }

  /** Text without any of the five special characters is left as it is, and
      only such text is. */
  lemma {:induction false} EscapePlain(s: string)
    ensures Escape(s) == s <==> forall i :: 0 <= i < |s| ==> !Special(s[i])
  {
    if s != [] {
      EscapePlain(s[1..]);
      if Special(s[0]) {
        // the escaped text is longer than the original
        assert |EscapeChar(s[0])| > 1;
        assert |Escape(s)| > |s|;
      } else {
        assert Escape(s) == [s[0]] + Escape(s[1..]);
        if forall i :: 0 <= i < |s[1..]| ==> !Special(s[1..][i]) {
          assert forall i :: 0 <= i < |s| ==> !Special(s[i]) by {
            forall i | 0 <= i < |s| ensures !Special(s[i]) {
              if i > 0 { assert s[i] == s[1..][i - 1]; }
            }
          }
        } else {
          var i :| 0 <= i < |s[1..]| && Special(s[1..][i]);
          assert Special(s[i + 1]);
          assert Escape(s[1..]) != s[1..];
        }
      }
    }
  }
}
