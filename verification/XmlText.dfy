/**
 Character data: `escape` of src/SoapBuilder.cpp:23-36 against a reader of text and
 attribute values that follows XML 1.0, sections 2.2, 2.11, 3.3.3 and 4.6.
 */
module XmlText {
  import opened Wrappers

  // ---------------------------------------------------------------------
  // Writing.

  function EscapeChar(c: char): string {
    match c
    case '&' => "&amp;"
    case '<' => "&lt;"
    case '>' => "&gt;"
    case '\"' => "&quot;"
    case '\'' => "&apos;"
    case _ => [c]
  }

  function Escape(s: string): string {
    if s == "" then "" else EscapeChar(s[0]) + Escape(s[1..])
  }

  lemma {:induction false} EscapeOneMore(s: string, c: char)
    ensures Escape(s + [c]) == Escape(s) + EscapeChar(c)
  {
    hide EscapeChar;
    if s == "" {
      assert s + [c] == [c] && Escape([c]) == EscapeChar(c) + "";
    } else {
      EscapeOneMore(s[1..], c);
      assert (s + [c])[1..] == s[1..] + [c];
      var head, mid, last := EscapeChar(s[0]), Escape(s[1..]), EscapeChar(c);
      assert head + (mid + last) == (head + mid) + last;
    }
  }

  method EscapeLoop(value: string) returns (out: string)
    ensures out == Escape(value)
  {
    hide EscapeChar;
    out := "";
    for i := 0 to |value|
      invariant out == Escape(value[..i])
    {
      EscapeOneMore(value[..i], value[i]);
      assert value[..i + 1] == value[..i] + [value[i]];
      out := out + EscapeChar(value[i]);
    }
    assert value[..|value|] == value;
  }

  // No markup survives escaping.
  lemma {:induction false} EscapedHasNoMarkup(s: string)
    ensures '<' !in Escape(s) && '\"' !in Escape(s)
  {
    if s != "" {
      EscapedHasNoMarkup(s[1..]);
      assert '<' !in EscapeChar(s[0]) && '\"' !in EscapeChar(s[0]);
    }
  }

  lemma EscapeIsEmpty(s: string)
    ensures Escape(s) == "" <==> s == ""
  {
  }

  // ---------------------------------------------------------------------
  // Reading.

  predicate IsXmlChar(c: char) {
    c == '\t' || c == '\n' || c == '\r' || (c >= ' ' && c as int != 0xfffe && c as int != 0xffff)
  }

  predicate StartsWith(s: string, p: string) {
    |p| <= |s| && s[..|p|] == p
  }

  // The five predefined entities: the character meant, and the length of the reference.
  function Entity(s: string): Option<(char, nat)> {
    if StartsWith(s, "&amp;") then Some(('&', 5))
    else if StartsWith(s, "&lt;") then Some(('<', 4))
    else if StartsWith(s, "&gt;") then Some(('>', 4))
    else if StartsWith(s, "&quot;") then Some(('\"', 6))
    else if StartsWith(s, "&apos;") then Some(('\'', 6))
    else None
  }

  // Line ends become a single line feed; in an attribute value all white space becomes a blank.
  function Normal(c: char, attribute: bool): char {
    if attribute && (c == '\t' || c == '\n' || c == '\r') then ' '
    else if c == '\r' then '\n'
    else c
  }

  function DecodeChars(s: string, attribute: bool): Option<string> {
    if s == "" then Some("")
    else if s[0] == '&' then
      match Entity(s)
      case None => None
      case Some((c, n)) =>
        if n <= |s| && n > 0 then
          var rest := DecodeChars(s[n..], attribute);
          if rest.Some? then Some([c] + rest.value) else None
        else None
    else if !IsXmlChar(s[0]) || s[0] == '<' then None
    else
      var n := if s[0] == '\r' && |s| > 1 && s[1] == '\n' then 2 else 1;
      var rest := DecodeChars(s[n..], attribute);
      if rest.Some? then Some([Normal(s[0], attribute)] + rest.value) else None
  }

  // Text that the reader gives back unchanged.
  predicate IsReadable(c: char, attribute: bool) {
    IsXmlChar(c) && Normal(c, attribute) == c
  }

  predicate AllReadable(s: string, attribute: bool) {
    forall i :: 0 <= i < |s| ==> IsReadable(s[i], attribute)
  }

  lemma {:induction false} DecodedIsReadable(s: string, attribute: bool)
    ensures DecodeChars(s, attribute).Some? ==> AllReadable(DecodeChars(s, attribute).value, attribute)
    decreases |s|
  {
    if s != "" && DecodeChars(s, attribute).Some? {
      if s[0] == '&' {
        var (c, n) := Entity(s).value;
        DecodedIsReadable(s[n..], attribute);
      } else {
        var n := if s[0] == '\r' && |s| > 1 && s[1] == '\n' then 2 else 1;
        DecodedIsReadable(s[n..], attribute);
        assert IsReadable(Normal(s[0], attribute), attribute);
      }
    }
  }

  lemma EntityOfSpecial(c: char, rest: string)
    requires c == '&' || c == '<' || c == '>' || c == '\"' || c == '\''
    ensures |EscapeChar(c)| > 0 && EscapeChar(c)[0] == '&' && Entity(EscapeChar(c) + rest) == Some((c, |EscapeChar(c)|))
  {
    var s := EscapeChar(c) + rest;
    assert s[..|EscapeChar(c)|] == EscapeChar(c);
    assert s[1] == EscapeChar(c)[1] && s[2] == EscapeChar(c)[2];
  }

  lemma {:induction false} DecodeUndoesEscape(s: string, attribute: bool)
    requires AllReadable(s, attribute)
    ensures DecodeChars(Escape(s), attribute) == Some(s)
  {
    hide EscapeChar, Entity;
    if s != "" {
      var c, rest := s[0], Escape(s[1..]);
      DecodeUndoesEscape(s[1..], attribute);
      assert [c] + s[1..] == s;
      assert (EscapeChar(c) + rest)[|EscapeChar(c)|..] == rest;
      if c == '&' || c == '<' || c == '>' || c == '\"' || c == '\'' {
        EntityOfSpecial(c, rest);
        assert (EscapeChar(c) + rest)[0] == EscapeChar(c)[0];
      } else {
        PlainEscapesToItself(c);
        assert IsReadable(c, attribute);
      }
    }
  }

  lemma PlainEscapesToItself(c: char)
    requires c != '&' && c != '<' && c != '>' && c != '\"' && c != '\''
    ensures EscapeChar(c) == [c]
  {
  }

  /** Escaping is undone by reading exactly for the texts made of characters that reading keeps. */
  lemma EscapeRoundTrip(s: string, attribute: bool)
    ensures DecodeChars(Escape(s), attribute) == Some(s) <==> AllReadable(s, attribute)
  {
    if AllReadable(s, attribute) {
      DecodeUndoesEscape(s, attribute);
    } else {
      DecodedIsReadable(Escape(s), attribute);
    }
  }
}
