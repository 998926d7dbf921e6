/**
 * The client's `escapeHtml`: three global replacements, of '&' first, then '<', then '>',
 * applied to an issue title before it is put into the table markup.
 */
module HtmlEscape {
  import opened Text

  /** `unsafe.replace(/&/g, "&amp;").replace(/</g, "&lt;").replace(/>/g, "&gt;")` */
  function EscapeHtml(unsafe: string): string {
    ReplaceAll(ReplaceAll(ReplaceAll(unsafe, "&", "&amp;"), "<", "&lt;"), ">", "&gt;")
  }

  /** Undo the escaping: `&lt;`, then `&gt;`, then `&amp;` back to the character. */
  function UnescapeHtml(t: string): string {
    ReplaceAll(ReplaceAll(ReplaceAll(t, "&lt;", "<"), "&gt;", ">"), "&amp;", "&")
  }

  /** The three characters the client escapes. */
  const Special: set<char> := {'&', '<', '>'}

  function Entity(c: char): string
    requires c in Special
  {
    if c == '&' then "&amp;" else if c == '<' then "&lt;" else "&gt;"
  }

  /** `s` with each character of `escaped` written as its entity and the others kept. */
  function Encoded(s: string, escaped: set<char>): string
    requires escaped <= Special
  {
    if s == [] then [] else EncodedChar(s[0], escaped) + Encoded(s[1..], escaped)
  }

  function EncodedChar(c: char, escaped: set<char>): string
    requires escaped <= Special
  {
    if c in escaped then Entity(c) else [c]
  }

  /** With nothing escaped, the encoding is the identity. */
  lemma {:induction false} EncodedNothing(s: string)
    ensures Encoded(s, {}) == s
  {
    if s != [] {
      EncodedNothing(s[1..]);
      assert s == [s[0]] + s[1..];
    }
  }

  /**
   * One escaping pass: replacing a special character `x` by its entity escapes `x` as well,
   * provided no entity already written contains `x` (so '&' has to go first).
   */
  lemma {:induction false} EscapePass(s: string, escaped: set<char>, x: char)
    requires escaped <= Special && x in Special && x !in escaped
    requires x == '&' ==> escaped == {}
    ensures ReplaceAll(Encoded(s, escaped), [x], Entity(x)) == Encoded(s, escaped + {x})
  {
    if s != [] {
      var e, rest := EncodedChar(s[0], escaped), Encoded(s[1..], escaped);
      EscapePass(s[1..], escaped, x);
      if s[0] == x {
        assert (e + rest)[..1] == [x] && (e + rest)[1..] == rest;
      } else {
        assert x !in e;
        ReplaceAllSkips(e, rest, [x], Entity(x));
      }
    }
  }

  /**
   * One unescaping pass: while '&' is escaped, every '&' in the encoding starts an entity, so
   * replacing the entity of `x` by `x` turns exactly the escaped `x`s back.
   */
  lemma {:induction false} UnescapePass(s: string, escaped: set<char>, x: char)
    requires escaped <= Special && '&' in escaped && x in escaped
    ensures ReplaceAll(Encoded(s, escaped), Entity(x), [x]) == Encoded(s, escaped - {x})
  {
    if s != [] {
      var rest := Encoded(s[1..], escaped);
      UnescapePass(s[1..], escaped, x);
      UnescapeChar(s[0], escaped, x, rest);
    }
  }

  /** The pass over the encoding of one character followed by any text `rest`. */
  lemma UnescapeChar(c: char, escaped: set<char>, x: char, rest: string)
    requires escaped <= Special && '&' in escaped && x in escaped
    ensures ReplaceAll(EncodedChar(c, escaped) + rest, Entity(x), [x])
      == EncodedChar(c, escaped - {x}) + ReplaceAll(rest, Entity(x), [x])
  {
    var e, p := EncodedChar(c, escaped), Entity(x);
    if c == x {
      assert (e + rest)[..|p|] == p && (e + rest)[|p|..] == rest;
    } else if c in escaped {
      OtherEntityPasses(c, x, rest);
    } else {
      ReplaceAllSkips(e, rest, p, [x]);
    }
  }

  /** The entity of another character is not matched and passes through. */
  lemma OtherEntityPasses(c: char, x: char, rest: string)
    requires c in Special && x in Special && c != x
    ensures ReplaceAll(Entity(c) + rest, Entity(x), [x]) == Entity(c) + ReplaceAll(rest, Entity(x), [x])
  {
    var e, p := Entity(c), Entity(x);
    assert |e| >= 2 && |p| >= 2 && e[0] == p[0] && e[1] != p[1] && p[0] !in e[1..];
    MismatchPasses(e, rest, p, [x]);
  }

  /** A text that starts like the pattern, then differs, and has no second start, passes through. */
  lemma MismatchPasses(e: string, rest: string, p: string, r: string)
    requires |e| >= 2 && |p| >= 2 && e[0] == p[0] && e[1] != p[1] && p[0] !in e[1..]
    ensures ReplaceAll(e + rest, p, r) == e + ReplaceAll(rest, p, r)
  {
    var t := e + rest;
    assert t[1] == e[1] != p[1];
    assert !(|p| <= |t| && t[..|p|] == p) by {
      if |p| <= |t| {
        assert t[..|p|][1] == t[1];
      }
    }
    assert t[1..] == e[1..] + rest;
    ReplaceAllSkips(e[1..], rest, p, r);
    assert e == [e[0]] + e[1..];
  }

  /** Escaping is the encoding with all three special characters escaped. */
  lemma EscapeHtmlIsEncoded(s: string)
    ensures EscapeHtml(s) == Encoded(s, Special)
  {
    EncodedNothing(s);
    EscapePass(s, {}, '&');
    assert {} + {'&'} == {'&'};
    EscapePass(s, {'&'}, '<');
    assert {'&'} + {'<'} == {'&', '<'};
    EscapePass(s, {'&', '<'}, '>');
    assert {'&', '<'} + {'>'} == Special;
  }

  /** Undoing `&lt;`, `&gt;` and then `&amp;` gives back the original text. */
  lemma UnescapeEscapeHtml(s: string)
    ensures UnescapeHtml(EscapeHtml(s)) == s
  {
    EscapeHtmlIsEncoded(s);
    UnescapePass(s, Special, '<');
    assert Special - {'<'} == {'&', '>'};
    UnescapePass(s, {'&', '>'}, '>');
    assert {'&', '>'} - {'>'} == {'&'};
    UnescapePass(s, {'&'}, '&');
    assert {'&'} - {'&'} == {};
    EncodedNothing(s);
  }

  /** An encoding that escapes '<' and '>' contains neither. */
  lemma {:induction false} EncodedHasNoBrackets(s: string, escaped: set<char>)
    requires escaped <= Special && '<' in escaped && '>' in escaped
    ensures '<' !in Encoded(s, escaped) && '>' !in Encoded(s, escaped)
  {
    if s != [] {
      EncodedHasNoBrackets(s[1..], escaped);
    }
  }

  /** Escaped text contains no '<' and no '>', so it cannot open or close a tag. */
  lemma EscapeHtmlHasNoBrackets(s: string)
    ensures '<' !in EscapeHtml(s) && '>' !in EscapeHtml(s)
  {
    EscapeHtmlIsEncoded(s);
    EncodedHasNoBrackets(s, Special);
  }

  /** Text without special characters is left unchanged by escaping. */
  lemma {:induction false} EscapeHtmlPlainText(s: string)
    requires forall k :: 0 <= k < |s| ==> s[k] !in Special
    ensures EscapeHtml(s) == s
  {
    EscapeHtmlIsEncoded(s);
    PlainEncoded(s);
    EncodedNothing(s);
  }

  lemma {:induction false} PlainEncoded(s: string)
    requires forall k :: 0 <= k < |s| ==> s[k] !in Special
    ensures Encoded(s, Special) == Encoded(s, {})
  {
    if s != [] {
      PlainEncoded(s[1..]);
    }
  }
}
