/** escapeXML: the window title is put into the page's title element with
    the five XML special characters replaced by their entities. */
module XmlEscape {

  predicate IsSpecial(c: char) {
    c == '"' || c == '\'' || c == '<' || c == '>' || c == '&'
  }

  /** The replacement of one character. */
  function Entity(c: char): string {
    match c
    case '"' => "&quot;"
    case '\'' => "&apos;"
    case '<' => "&lt;"
    case '>' => "&gt;"
    case '&' => "&amp;"
    case _ => [c]
  }

  /** `v.replace(/["'<>&]/g, ...)`: every special character becomes its
      entity; the result never holds a quote, an apostrophe or an angle
      bracket. */
  function EscapeXml(s: string): (r: string)
    ensures forall i :: 0 <= i < |r| ==> r[i] != '"' && r[i] != '\'' && r[i] != '<' && r[i] != '>'
  {
    if s == [] then [] else Entity(s[0]) + EscapeXml(s[1..])
  }

  /** The reference decoder: each of the five entities back to its
      character, everything else unchanged. */
  function UnescapeXml(s: string): string
  {
    if s == [] then []
    else if "&quot;" <= s then "\"" + UnescapeXml(s[6..])
    else if "&apos;" <= s then "'" + UnescapeXml(s[6..])
    else if "&lt;" <= s then "<" + UnescapeXml(s[4..])
    else if "&gt;" <= s then ">" + UnescapeXml(s[4..])
    else if "&amp;" <= s then "&" + UnescapeXml(s[5..])
    else [s[0]] + UnescapeXml(s[1..])
  }

  /** Escaping loses nothing: decoding the escaped text gives the
      original back, so distinct titles stay distinct. */
  lemma {:induction false} UnescapeEscape(s: string)
    ensures UnescapeXml(EscapeXml(s)) == s
  {
    if s != [] {
      var c, rest := s[0], EscapeXml(s[1..]);
      var e := Entity(c) + rest;
      assert EscapeXml(s) == e;
      UnescapeEscape(s[1..]);
      if !IsSpecial(c) {
        assert e == [c] + rest;
        assert e[0] == c && c != '&';
        assert e[1..] == rest;
      } else {
        UnescapeEntity(c, rest);
      }
    }
  }

  /** The decoder reads an entity back as its character. */
  lemma UnescapeEntity(c: char, rest: string)
    requires IsSpecial(c)
    ensures UnescapeXml(Entity(c) + rest) == [c] + UnescapeXml(rest)
  {
    var e := Entity(c) + rest;
    var n := |Entity(c)|;
    assert e[..n] == Entity(c) && e[n..] == rest;
    assert Entity(c) <= e;
    if c == '&' {
      assert e[1] == 'a' && e[2] == 'm';
    } else if c == '>' {
      assert e[1] == 'g';
    } else if c == '<' {
      assert e[1] == 'l';
    } else if c == '\'' {
      assert e[1] == 'a' && e[2] == 'p';
    }
  }

  /** Escaping works character by character: it distributes over
      concatenation. */
  lemma {:induction false} EscapeXmlAppend(a: string, b: string)
    ensures EscapeXml(a + b) == EscapeXml(a) + EscapeXml(b)
  {
    if a != [] {
      assert (a + b)[0] == a[0];
      assert (a + b)[1..] == a[1..] + b;
      calc {
        EscapeXml(a + b);
        Entity(a[0]) + EscapeXml(a[1..] + b);
        { EscapeXmlAppend(a[1..], b); }
        Entity(a[0]) + (EscapeXml(a[1..]) + EscapeXml(b));
        (Entity(a[0]) + EscapeXml(a[1..])) + EscapeXml(b);
      }
    } else {
      assert a + b == b;
    }
  }

  /** Characters other than the five special ones pass through unchanged
      and in order. */
  lemma {:induction false} EscapeXmlPlain(s: string)
    requires forall i :: 0 <= i < |s| ==> !IsSpecial(s[i])
    ensures EscapeXml(s) == s
  {
    if s != [] {
      EscapeXmlPlain(s[1..]);
    }
  }

  /** Each special character is replaced by exactly its entity, in place. */
  lemma EscapeXmlAt(a: string, c: char, b: string)
    ensures EscapeXml(a + [c] + b) == EscapeXml(a) + Entity(c) + EscapeXml(b)
  {
    EscapeXmlAppend(a + [c], b);
    EscapeXmlAppend(a, [c]);
  }
}
