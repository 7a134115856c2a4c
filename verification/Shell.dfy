/**
 Shell quoting (src/UciAdapter.cpp:24-28, transformer/transformer.lua:4-6) against
 a reader of command lines that follows sections 2.2.1 and 2.2.2 of the POSIX
 Shell Command Language.
 */
module Shell {
  import opened Wrappers
  import opened Text

  // ---------------------------------------------------------------------
  // The two writers.

  function QuoteChar(c: char): string {
    if c == '\'' then "'\\''" else [c]
  }

  function EscapeQuotes(s: string): string {
    if s == "" then "" else QuoteChar(s[0]) + EscapeQuotes(s[1..])
  }

  function ShellQuote(value: string): string {
    "'" + EscapeQuotes(value) + "'"
  }

  lemma EscapeStep(c: char, s: string)
    ensures EscapeQuotes([c] + s) == QuoteChar(c) + EscapeQuotes(s)
  {
    hide QuoteChar;
    assert ([c] + s)[1..] == s;
  }

  lemma Regroup(a: string, b: string, c: string)
    ensures a + (b + c) == (a + b) + c
  {
  }

  lemma {:induction false} EscapeQuotesOfAppend(s: string, t: string)
    ensures EscapeQuotes(s + t) == EscapeQuotes(s) + EscapeQuotes(t)
  {
    if s == "" {
      assert s + t == t;
    } else {
      hide QuoteChar, EscapeQuotes;
      var c, rest := s[0], s[1..];
      EscapeQuotesOfAppend(rest, t);
      assert s == [c] + rest;
      Regroup([c], rest, t);
      EscapeStep(c, rest);
      EscapeStep(c, rest + t);
      Regroup(QuoteChar(c), EscapeQuotes(rest), EscapeQuotes(t));
    }
  }

  lemma EscapeOneMore(s: string, c: char)
    ensures EscapeQuotes(s + [c]) == EscapeQuotes(s) + QuoteChar(c)
  {
    hide QuoteChar;
    EscapeQuotesOfAppend(s, [c]);
    assert EscapeQuotes([c]) == QuoteChar(c) + "";
  }

  method CppShellQuote(value: string) returns (out: string)
    ensures out == ShellQuote(value)
  {
    out := "'";
    for i := 0 to |value|
      invariant out == "'" + EscapeQuotes(value[..i])
    {
      out := out + (if value[i] == '\'' then "'\\''" else [value[i]]);
      EscapeOneMore(value[..i], value[i]);
      assert value[..i + 1] == value[..i] + [value[i]];
    }
    assert value[..|value|] == value;
    out := out + "'";
  }

  // Lua's gsub with a one-character pattern: cut at every match, paste the replacement between the pieces.

  function Split(s: string, c: char): (pieces: seq<string>)
    ensures |pieces| > 0
    ensures forall p :: p in pieces ==> c !in p
  {
    if s == "" then [""]
    else
      var rest := Split(s[1..], c);
      if s[0] == c then [""] + rest else [[s[0]] + rest[0]] + rest[1..]
  }

  function Join(pieces: seq<string>, glue: string): string
    requires |pieces| > 0
  {
    if |pieces| == 1 then pieces[0] else pieces[0] + glue + Join(pieces[1..], glue)
  }

  function LuaShellQuote(value: string): string {
    "'" + Join(Split(value, '\''), "'\\''") + "'"
  }

  lemma {:induction false} JoinPrepends(c: char, pieces: seq<string>, glue: string)
    requires |pieces| > 0
    ensures Join([[c] + pieces[0]] + pieces[1..], glue) == [c] + Join(pieces, glue)
  {
  }

  lemma {:induction false} GsubIsEscape(s: string)
    ensures Join(Split(s, '\''), "'\\''") == EscapeQuotes(s)
  {
    if s != "" {
      GsubIsEscape(s[1..]);
      var rest := Split(s[1..], '\'');
      if s[0] == '\'' {
        assert ([""] + rest)[1..] == rest;
      } else {
        JoinPrepends(s[0], rest, "'\\''");
      }
    }
  }

  /** Both implementations write the same text. */
  lemma WritersAgree(value: string)
    ensures LuaShellQuote(value) == ShellQuote(value)
  {
    GsubIsEscape(value);
  }

  // ---------------------------------------------------------------------
  // The reader.

  // Characters with a meaning to the shell that no command of the program relies on.
  predicate IsSpecial(c: char) {
    || c == '"' || c == '$' || c == '`' || c == '|' || c == '&' || c == ';' || c == '<' || c == '>'
    || c == '(' || c == ')' || c == '\n' || c == '*' || c == '?' || c == '[' || c == '#' || c == '~'
  }

  predicate IsBlank(c: char) {
    c == ' ' || c == '\t'
  }

  predicate IsPlain(c: char) {
    !IsSpecial(c) && !IsBlank(c) && c != '\'' && c != '\\'
  }

  function Flush(word: Option<string>): seq<string> {
    if word.Some? then [word.value] else []
  }

  // Split a command line into words; None for unterminated quotes and for the special characters.
  function Lex(s: string, quoted: bool, word: Option<string>): Option<seq<string>> {
    if s == "" then
      if quoted then None else Some(Flush(word))
    else if quoted then
      if s[0] == '\'' then Lex(s[1..], false, word)
      else Lex(s[1..], true, Some(word.GetOr("") + [s[0]]))
    else if s[0] == '\'' then Lex(s[1..], true, Some(word.GetOr("")))
    else if s[0] == '\\' then
      if |s| == 1 then None
      else if s[1] == '\n' then Lex(s[2..], false, word)
      else Lex(s[2..], false, Some(word.GetOr("") + [s[1]]))
    else if IsBlank(s[0]) then
      var rest := Lex(s[1..], false, None);
      if rest.Some? then Some(Flush(word) + rest.value) else None
    else if IsSpecial(s[0]) then None
    else Lex(s[1..], false, Some(word.GetOr("") + [s[0]]))
  }

  function Words(command: string): Option<seq<string>> {
    Lex(CString(command), false, None)
  }

  // Single steps of the reader.

  lemma LexQuote(s: string, quoted: bool, word: Option<string>)
    requires s != "" && s[0] == '\''
    ensures Lex(s, quoted, word) == Lex(s[1..], !quoted, if quoted then word else Some(word.GetOr("")))
  {
  }

  lemma LexBackslash(s: string, word: Option<string>)
    requires |s| > 1 && s[0] == '\\' && s[1] != '\n'
    ensures Lex(s, false, word) == Lex(s[2..], false, Some(word.GetOr("") + [s[1]]))
  {
  }

  lemma LexInQuotes(c: char, rest: string, word: string)
    requires c != '\''
    ensures Lex([c] + rest, true, Some(word)) == Lex(rest, true, Some(word + [c]))
  {
  }

  lemma LexEscapedQuote(rest: string, word: string)
    ensures Lex("'\\''" + rest, true, Some(word)) == Lex(rest, true, Some(word + ['\'']))
  {
    hide Lex;
    var s := "'\\''" + rest;
    var s1 := s[1..];
    var s2 := s1[2..];
    assert s1 == "\\''" + rest && s2 == "'" + rest && s2[1..] == rest;
    LexQuote(s, true, Some(word));
    LexBackslash(s1, Some(word));
    LexQuote(s2, false, Some(word + ['\'']));
  }

  // One character of the escaped text, read inside quotes.
  lemma LexEscapedChar(c: char, rest: string, word: string)
    ensures Lex(QuoteChar(c) + rest, true, Some(word)) == Lex(rest, true, Some(word + [c]))
  {
    hide Lex;
    if c == '\'' {
      LexEscapedQuote(rest, word);
    } else {
      LexInQuotes(c, rest, word);
    }
  }

  lemma {:induction false} LexEscaped(v: string, rest: string, word: string)
    ensures Lex(EscapeQuotes(v) + rest, true, Some(word)) == Lex(rest, true, Some(word + v))
  {
    hide Lex, QuoteChar;
    if v == "" {
      assert EscapeQuotes(v) + rest == rest && word + v == word;
    } else {
      hide EscapeQuotes;
      var c, tail := v[0], EscapeQuotes(v[1..]) + rest;
      LexEscaped(v[1..], rest, word + [c]);
      assert word + [c] + v[1..] == word + v;
      assert [c] + v[1..] == v;
      EscapeStep(c, v[1..]);
      assert EscapeQuotes(v) + rest == QuoteChar(c) + tail;
      LexEscapedChar(c, tail, word);
    }
  }

  lemma LexQuoted(v: string, rest: string, word: Option<string>)
    ensures Lex(ShellQuote(v) + rest, false, word) == Lex(rest, false, Some(word.GetOr("") + v))
  {
    hide Lex, EscapeQuotes;
    var s := ShellQuote(v) + rest;
    var tail := "'" + rest;
    assert s[0] == '\'' && s[1..] == EscapeQuotes(v) + tail;
    LexQuote(s, false, word);
    LexEscaped(v, tail, word.GetOr(""));
    LexQuote(tail, true, Some(word.GetOr("") + v));
    assert tail[1..] == rest;
  }

  lemma {:induction false} LexPlain(p: string, rest: string, word: Option<string>)
    requires p != "" && forall i :: 0 <= i < |p| ==> IsPlain(p[i])
    ensures Lex(p + rest, false, word) == Lex(rest, false, Some(word.GetOr("") + p))
  {
    var s := p + rest;
    assert s[0] == p[0] && s[1..] == p[1..] + rest;
    var w := word.GetOr("") + [p[0]];
    assert w + p[1..] == word.GetOr("") + p;
    if |p| == 1 {
      assert p[1..] + rest == rest && [p[0]] == p;
    } else {
      LexPlain(p[1..], rest, Some(w));
    }
  }

  lemma {:induction false} NulInEscaped(v: string)
    ensures NUL in EscapeQuotes(v) <==> NUL in v
  {
    if v != "" {
      NulInEscaped(v[1..]);
    }
  }

  lemma {:induction false} CStringOfEscaped(v: string)
    ensures CString(EscapeQuotes(v)) == EscapeQuotes(CString(v))
  {
    if v != "" {
      CStringOfEscaped(v[1..]);
      var head := if v[0] == '\'' then "'\\''" else [v[0]];
      CStringOfAppend(head, EscapeQuotes(v[1..]));
      if v[0] == NUL {
        assert NUL in head;
        assert CString(head) == "";
      } else {
        assert ([v[0]] + CString(v[1..]))[1..] == CString(v[1..]);
      }
    }
  }

  /** A quoted value reads back as exactly that one word, and does so only when it holds no NUL. */
  lemma QuotedIsOneWord(v: string)
    ensures Words(ShellQuote(v)) == Some([v]) <==> NUL !in v
    ensures NUL in v ==> Words(ShellQuote(v)).None?
  {
    NulInEscaped(v);
    if NUL !in v {
      assert ShellQuote(v) + "" == ShellQuote(v);
      LexQuoted(v, "", None);
      assert "" + v == v;
    } else {
      QuotedWithNul(v, "", None);
      assert ShellQuote(v) + "" == ShellQuote(v);
    }
  }

  // A NUL cuts the command inside the open quote.
  lemma QuotedWithNul(v: string, rest: string, word: Option<string>)
    requires NUL in v
    ensures Lex(CString(ShellQuote(v) + rest), false, word).None?
  {
    hide Lex;
    var s := "'" + EscapeQuotes(CString(v));
    CutInsideQuote(v, rest);
    LexQuote(s, false, word);
    assert s[1..] == EscapeQuotes(CString(v)) + "";
    LexEscaped(CString(v), "", word.GetOr(""));
    LexOpenEnd(word.GetOr("") + CString(v));
  }

  lemma LexOpenEnd(word: string)
    ensures Lex("", true, Some(word)).None?
  {
  }

  lemma CutInsideQuote(v: string, rest: string)
    requires NUL in v
    ensures CString(ShellQuote(v) + rest) == "'" + EscapeQuotes(CString(v))
  {
    hide CString, EscapeQuotes;
    NulInEscaped(v);
    assert ShellQuote(v) + rest == "'" + (EscapeQuotes(v) + ("'" + rest));
    CStringOfAppend("'", EscapeQuotes(v) + ("'" + rest));
    CStringOfAppend(EscapeQuotes(v), "'" + rest);
    CStringOfEscaped(v);
  }
}
