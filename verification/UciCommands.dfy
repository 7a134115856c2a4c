/**
 The `uci` command lines the program composes, and the store operations they
 denote once the shell has split them into words.
 */
module UciCommands {
  import opened Wrappers
  import opened Text
  import opened Shell

  type View = map<string, string>

  datatype Command = Set(key: string, value: string) | Delete(key: string) | Commit

  function Lookup(view: View, key: string): Option<string> {
    if key in view then Some(view[key]) else None
  }

  // What a command does to the values a reader sees. A commit moves staged values, it shows no new ones.
  function After(view: View, command: Command): View {
    match command
    case Set(key, value) => view[key := value]
    case Delete(key) => view - {key}
    case Commit => view
  }

  predicate IsBinary(bin: string) {
    bin == "uci" || bin == "/sbin/uci"
  }

  // src/UciAdapter.cpp:42-44, transformer/transformer.lua:14
  function UciBinary(isExecutable: bool): (bin: string)
    ensures IsBinary(bin)
  {
    if isExecutable then "/sbin/uci" else "uci"
  }

  function Spaced(word: string, rest: string): string {
    word + " " + rest
  }

  // "<uci> -q <verb> <arguments>"
  function CommandLine(bin: string, verb: string, arguments: string): string {
    Spaced(bin, Spaced("-q", Spaced(verb, arguments)))
  }

  function SetLine(bin: string, key: string, value: string): string {
    CommandLine(bin, "set", ShellQuote(key + "=" + value))
  }

  function DeleteLine(bin: string, key: string): string {
    CommandLine(bin, "delete", ShellQuote(key))
  }

  function CommitLine(bin: string): string {
    CommandLine(bin, "commit", "tr69")
  }

  // src/UciAdapter.cpp:55-66: the key is not quoted, only the value is.
  function AdapterSetLine(bin: string, key: string, value: string): string {
    CommandLine(bin, "set", key + "=" + ShellQuote(value))
  }

  // tests/fake_uci.sh:68-70: cut at the first equals sign.
  function ParseAssignment(a: string): Option<Command> {
    match Find(a, "=", 0)
    case Some(i) => Some(Set(a[..i], a[i + 1..]))
    case None => None
  }

  function Denotes(line: string): Option<Command> {
    match Words(line)
    case None => None
    case Some(w) =>
      if |w| == 4 && IsBinary(w[0]) && w[1] == "-q" then
        if w[2] == "set" then ParseAssignment(w[3])
        else if w[2] == "delete" then Some(Delete(w[3]))
        else if w[2] == "commit" && w[3] == "tr69" then Some(Commit)
        else None
      else None
  }

  // Keys: configuration.section.option, in the characters that need no quotes (src/UciAdapter.cpp:15-22).
  predicate IsKeyChar(c: char) {
    'a' <= c <= 'z' || 'A' <= c <= 'Z' || '0' <= c <= '9' || c == '_' || c == '-' || c == '.' || c == '@'
  }

  predicate IsKey(key: string) {
    key != "" && forall i :: 0 <= i < |key| ==> IsKeyChar(key[i])
  }

  /** All letters and digits may stand in a key, and four marks. */
  lemma KeyCharacters(i: nat)
    requires i < 26
    ensures IsKeyChar("abcdefghijklmnopqrstuvwxyz"[i]) && IsKeyChar("ABCDEFGHIJKLMNOPQRSTUVWXYZ"[i])
    ensures i < 10 ==> IsKeyChar("0123456789"[i])
    ensures i < 4 ==> IsKeyChar("_-.@"[i])
  {
  }

  lemma AssignmentSplits(key: string, value: string)
    requires IsKey(key)
    ensures ParseAssignment(key + "=" + value) == Some(Set(key, value))
  {
    var a := key + "=" + value;
    assert OccursAt(a, "=", |key|);
    forall i | 0 <= i < |key| ensures !OccursAt(a, "=", i) {
      assert IsKeyChar(key[i]);
      assert a[i..i + 1][0] == key[i];
    }
    assert a[..|key|] == key && a[|key| + 1..] == value;
  }

  lemma KeyHasNoNul(key: string)
    requires IsKey(key)
    ensures NUL !in key
  {
  }

  lemma LexSpaced(w: string, rest: string)
    requires w != "" && forall i :: 0 <= i < |w| ==> IsPlain(w[i])
    ensures Lex(Spaced(w, rest), false, None) ==
            match Lex(rest, false, None)
            case Some(ws) => Some([w] + ws)
            case None => None
  {
    var s := " " + rest;
    assert w + " " + rest == w + s;
    LexPlain(w, s, None);
    assert s[0] == ' ' && s[1..] == rest;
    assert "" + w == w;
    assert Flush(Some(w)) == [w];
  }

  lemma CStringOfSpaced(w: string, rest: string)
    requires NUL !in w
    ensures CString(Spaced(w, rest)) == Spaced(w, CString(rest))
  {
    assert NUL !in w + " ";
    CStringOfAppend(w + " ", rest);
  }

  predicate IsVerb(verb: string) {
    verb == "set" || verb == "delete" || verb == "commit"
  }

  lemma VerbsArePlain(w: string)
    requires IsVerb(w) || IsBinary(w) || w == "-q"
    ensures w != "" && NUL !in w && forall i :: 0 <= i < |w| ==> IsPlain(w[i])
  {
  }

  lemma CommandWords(bin: string, verb: string, arguments: string)
    requires IsBinary(bin) && IsVerb(verb)
    ensures Words(CommandLine(bin, verb, arguments)) ==
            match Words(arguments)
            case Some(ws) => Some([bin] + (["-q"] + ([verb] + ws)))
            case None => None
  {
    hide Spaced, Lex, IsPlain, IsVerb, IsBinary;
    VerbsArePlain(bin);
    VerbsArePlain("-q");
    VerbsArePlain(verb);
    var tail := CString(arguments);
    CStringOfSpaced(verb, arguments);
    CStringOfSpaced("-q", Spaced(verb, arguments));
    CStringOfSpaced(bin, Spaced("-q", Spaced(verb, arguments)));
    LexSpaced(verb, tail);
    LexSpaced("-q", Spaced(verb, tail));
    LexSpaced(bin, Spaced("-q", Spaced(verb, tail)));
  }

  lemma OneArgument(bin: string, verb: string, arguments: string, word: string)
    requires IsBinary(bin) && IsVerb(verb) && Words(arguments) == Some([word])
    ensures Words(CommandLine(bin, verb, arguments)) == Some([bin, "-q", verb, word])
  {
    hide CommandLine, Words;
    CommandWords(bin, verb, arguments);
    assert [bin] + (["-q"] + ([verb] + [word])) == [bin, "-q", verb, word];
  }

  /** `uci set` reaches the store as the intended key and value; a value with a NUL reaches it not at all. */
  lemma SetLineDenotesSet(bin: string, key: string, value: string)
    requires IsBinary(bin) && IsKey(key)
    ensures Denotes(SetLine(bin, key, value)) == if NUL in value then None else Some(Set(key, value))
  {
    hide CommandLine, Words, ShellQuote, ParseAssignment;
    var arg := key + "=" + value;
    KeyHasNoNul(key);
    QuotedIsOneWord(arg);
    if NUL in value {
      CommandWords(bin, "set", ShellQuote(arg));
    } else {
      OneArgument(bin, "set", ShellQuote(arg), arg);
      AssignmentSplits(key, value);
    }
  }

  lemma DeleteLineDenotesDelete(bin: string, key: string)
    requires IsBinary(bin) && IsKey(key)
    ensures Denotes(DeleteLine(bin, key)) == Some(Delete(key))
  {
    hide CommandLine, Words, ShellQuote, ParseAssignment;
    KeyHasNoNul(key);
    QuotedIsOneWord(key);
    OneArgument(bin, "delete", ShellQuote(key), key);
  }

  lemma CommitLineDenotesCommit(bin: string)
    requires IsBinary(bin)
    ensures Denotes(CommitLine(bin)) == Some(Commit)
  {
    hide CommandLine, ShellQuote, ParseAssignment;
    assert Words("tr69") == Some(["tr69"]) by { PlainWord("tr69"); }
    OneArgument(bin, "commit", "tr69", "tr69");
  }

  lemma PlainWord(w: string)
    requires w != "" && NUL !in w && forall i :: 0 <= i < |w| ==> IsPlain(w[i])
    ensures Words(w) == Some([w])
  {
    LexPlain(w, "", None);
    assert w + "" == w && "" + w == w;
  }

  /** The C++ adapter's line, where quoting starts in the middle of a word, denotes the same command. */
  lemma AdapterLineDenotesSet(bin: string, key: string, value: string)
    requires IsBinary(bin) && IsKey(key)
    ensures Denotes(AdapterSetLine(bin, key, value)) == if NUL in value then None else Some(Set(key, value))
  {
    hide CommandLine, Words, ShellQuote, ParseAssignment;
    var rest := key + "=" + ShellQuote(value);
    QuotedTail(key, value);
    if NUL in value {
      CommandWords(bin, "set", rest);
    } else {
      OneArgument(bin, "set", rest, key + "=" + value);
      AssignmentSplits(key, value);
    }
  }

  lemma QuotedTail(key: string, value: string)
    requires IsKey(key)
    ensures Words(key + "=" + ShellQuote(value)) == if NUL in value then None else Some([key + "=" + value])
  {
    hide ShellQuote, Lex;
    var head := key + "=";
    KeyHasNoNul(key);
    CStringOfAppend(head, ShellQuote(value));
    forall i | 0 <= i < |head| ensures IsPlain(head[i]) {
      assert i < |key| ==> IsKeyChar(key[i]);
    }
    LexPlain(head, CString(ShellQuote(value)), None);
    assert "" + head == head;
    assert ShellQuote(value) + "" == ShellQuote(value);
    if NUL in value {
      QuotedWithNul(value, "", Some(head));
    } else {
      QuotedHasNoNul(value);
      LexQuoted(value, "", Some(head));
      LexEnd(head + value);
    }
  }

  lemma QuotedHasNoNul(v: string)
    requires NUL !in v
    ensures NUL !in ShellQuote(v)
  {
    NulInEscaped(v);
  }

  lemma LexEnd(word: string)
    ensures Lex("", false, Some(word)) == Some([word])
  {
  }
}
