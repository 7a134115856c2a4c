/** What the lookups see in a credential list, and how the header around it is found. */
module DigestProof {
  import opened Wrappers
  import opened Text
  import opened Digest

  // ---------------------------------------------------------------------
  // Where a pattern is not.

  lemma OccurrenceCharacter(s: string, pattern: string, i: int, k: int)
    requires 0 <= k < |pattern|
    ensures OccursAt(s, pattern, i) ==> 0 <= i + k < |s| && s[i + k] == pattern[k]
  {
  }

  lemma OccurrenceInPart(s: string, part: string, offset: int, pattern: string, i: int)
    requires 0 <= offset <= i && offset + |part| <= |s| && s[offset..offset + |part|] == part
    requires offset + |part| == |s| || i + |pattern| <= offset + |part|
    ensures OccursAt(s, pattern, i) ==> OccursAt(part, pattern, i - offset)
  {
    if OccursAt(s, pattern, i) {
      var k := i - offset;
      forall j | 0 <= j < |pattern| ensures part[k + j] == pattern[j] {
        assert part[k + j] == s[i + j] == s[i..i + |pattern|][j];
      }
      assert part[k..k + |pattern|] == pattern;
    }
  }

  lemma AbsentAcross(a: string, c: char, b: string, pattern: string)
    requires c !in pattern && Absent(a, pattern) && Absent(b, pattern)
    ensures Absent(a + [c] + b, pattern)
  {
    hide OccursAt;
    var s := a + [c] + b;
    assert s[0..|a|] == a && s[|a| + 1..|s|] == b;
    forall i ensures !OccursAt(s, pattern, i) {
      if i > |a| {
        OccurrenceInPart(s, b, |a| + 1, pattern, i);
      } else if 0 <= i && i + |pattern| <= |a| {
        OccurrenceInPart(s, a, 0, pattern, i);
      } else if 0 <= i {
        OccurrenceCharacter(s, pattern, i, |a| - i);
      } else {
        NotBeforeStart(s, pattern, i);
      }
    }
  }

  lemma NotBeforeStart(s: string, pattern: string, i: int)
    requires i < 0
    ensures !OccursAt(s, pattern, i)
  {
  }

  // Patterns here are "key=", with the only equals sign at the end.
  predicate IsKeyName(key: string) {
    key != "" && forall i :: 0 <= i < |key| ==> 'a' <= key[i] <= 'z'
  }

  function Pattern(key: string): string {
    key + "="
  }

  lemma PatternCharacters(key: string)
    requires IsKeyName(key)
    ensures ' ' !in Pattern(key) && ',' !in Pattern(key) && '\"' !in Pattern(key)
    ensures |Pattern(key)| == |key| + 1 && Pattern(key)[|key|] == '='
  {
  }

  lemma NoEqualsSign(s: string, key: string)
    requires '=' !in s
    ensures Absent(s, Pattern(key))
  {
    forall i ensures !OccursAt(s, Pattern(key), i) {
      OccurrenceCharacter(s, Pattern(key), i, |key|);
    }
  }

  predicate IsSuffix(suffix: string, s: string) {
    |suffix| <= |s| && s[|s| - |suffix|..] == suffix
  }

  lemma AbsentPrefix(s: string, n: nat, pattern: string)
    requires n <= |s| && Absent(s, pattern)
    ensures Absent(s[..n], pattern)
  {
    forall i ensures !OccursAt(s[..n], pattern, i) {
      OccurrenceInWhole(s, n, pattern, i);
    }
  }

  lemma OccurrenceInWhole(s: string, n: nat, pattern: string, i: int)
    requires n <= |s|
    ensures OccursAt(s[..n], pattern, i) ==> OccursAt(s, pattern, i)
  {
  }

  // Joined by an equals sign, two texts form the pattern only where the first one ends in the key.
  lemma JoinAtEquals(a: string, b: string, key: string)
    requires IsKeyName(key) && Absent(a, Pattern(key)) && !IsSuffix(key, a) && Absent(b, Pattern(key))
    ensures Absent(a + "=" + b, Pattern(key))
  {
    hide OccursAt, IsSuffix;
    var s, p := a + "=" + b, Pattern(key);
    assert s[0..|a|] == a && s[|a| + 1..|s|] == b;
    forall i ensures !OccursAt(s, p, i) {
      if i < 0 {
        NotBeforeStart(s, p, i);
      } else if i > |a| {
        OccurrenceInPart(s, b, |a| + 1, p, i);
      } else if i + |key| < |a| {
        OccurrenceInPart(s, a, 0, p, i);
      } else if i + |key| == |a| {
        OccurrenceIsSuffix(a, b, key, i);
      } else {
        OccurrenceCharacter(s, p, i, |a| - i);
        assert key[|a| - i] != '=';
      }
    }
  }

  lemma OccurrenceIsSuffix(a: string, b: string, key: string, i: int)
    requires i + |key| == |a|
    ensures OccursAt(a + "=" + b, Pattern(key), i) ==> IsSuffix(key, a)
  {
    var s, p := a + "=" + b, Pattern(key);
    if OccursAt(s, p, i) {
      assert a[|a| - |key|..] == s[i..i + |p|][..|key|];
      assert p[..|key|] == key;
    }
  }

  // A text that ends in the key, free of the pattern, and then the equals sign: the first match.
  lemma FirstMatch(front: string, key: string, rest: string)
    requires IsKeyName(key) && Absent(front, Pattern(key)) && IsSuffix(key, front)
    ensures Find(front + ("=" + rest), Pattern(key), 0) == Some(|front| - |key|)
  {
    hide IsKeyName, OccursAt, Find;
    var s, n, p := front + ("=" + rest), |front| - |key|, Pattern(key);
    KeyThenEquals(front, key, rest);
    assert s[0..|front|] == front;
    forall i | 0 <= i < n ensures !OccursAt(s, p, i) {
      OccurrenceInPart(s, front, 0, p, i);
    }
  }

  lemma KeyThenEquals(front: string, key: string, rest: string)
    requires IsSuffix(key, front)
    ensures OccursAt(front + ("=" + rest), Pattern(key), |front| - |key|)
  {
    var s, n := front + ("=" + rest), |front| - |key|;
    assert s[n..n + |Pattern(key)|] == front[n..] + "=";
  }

  // A character foreign to the key keeps it from reaching further back.
  lemma SuffixStays(front: string, key: string, last: string)
    requires IsKeyName(key) && front != "" && front[|front| - 1] !in key
    ensures IsSuffix(key, front + last) <==> IsSuffix(key, last)
  {
    var s := front + last;
    if |key| <= |last| {
      assert s[|s| - |key|..] == last[|last| - |key|..];
    } else {
      SuffixCharacter(key, s, |key| - |last| - 1);
    }
  }

  lemma SuffixCharacter(key: string, s: string, i: nat)
    requires i < |key|
    ensures IsSuffix(key, s) ==> |key| <= |s| && key[i] == s[|s| - |key| + i]
  {
    if IsSuffix(key, s) {
      assert s[|s| - |key|..][i] == s[|s| - |key| + i];
    }
  }

  // ---------------------------------------------------------------------
  // Credential lists: "Digest ", then fields separated by commas, in any order, with blanks before any key.

  datatype Field = Field(lead: string, key: string, value: string, quoted: bool)

  function Head(f: Field): string {
    f.lead + f.key
  }

  function ValueText(f: Field): string {
    if f.quoted then "\"" + f.value + "\"" else f.value
  }

  function FieldText(f: Field): string {
    Head(f) + "=" + ValueText(f)
  }

  // The text before the next field.
  function Before(fs: seq<Field>): string {
    if fs == [] then DIGEST_SCHEME else Before(fs[..|fs| - 1]) + FieldText(fs[|fs| - 1]) + ","
  }

  // The text of further fields.
  function Rest(fs: seq<Field>): string {
    if fs == [] then "" else "," + (FieldText(fs[0]) + Rest(fs[1..]))
  }

  function Credentials(fs: seq<Field>): string
    requires fs != []
  {
    DIGEST_SCHEME + (FieldText(fs[0]) + Rest(fs[1..]))
  }

  // A field whose key ends at its only equals sign, and whose value ends where its text does.
  predicate IsDelimited(f: Field) {
    '=' !in Head(f) && '\"' !in f.value &&
    (!f.quoted ==> ',' !in f.value && (f.value != "" ==> f.value[|f.value| - 1] != ' '))
  }

  predicate IsList(fs: seq<Field>) {
    fs != [] && forall j :: 0 <= j < |fs| ==> IsDelimited(fs[j])
  }

  lemma {:induction false} CredentialsSplit(fs: seq<Field>, i: nat)
    requires i < |fs|
    ensures Credentials(fs) == Before(fs[..i]) + (FieldText(fs[i]) + Rest(fs[i + 1..]))
  {
    hide FieldText;
    if i == 0 {
      assert fs[..0] == [];
    } else {
      CredentialsSplit(fs, i - 1);
      assert fs[..i][..i - 1] == fs[..i - 1] && fs[..i][i - 1] == fs[i - 1];
      assert fs[i..][0] == fs[i] && fs[i..][1..] == fs[i + 1..];
      BeforeThenRest(Before(fs[..i - 1]), FieldText(fs[i - 1]), FieldText(fs[i]), Rest(fs[i + 1..]));
    }
  }

  lemma BeforeThenRest(before: string, a: string, b: string, rest: string)
    ensures before + (a + ("," + (b + rest))) == (before + a + ",") + (b + rest)
  {
  }

  // ---------------------------------------------------------------------
  // What the server sees in a list: keys are looked for anywhere, in values too.

  /**
   What is read behind an occurrence of the key inside a value, `from` being the
   position after it. From a quoted value the reading stops at a comma; with none
   left it takes the closing quotation mark along; and when nothing is left of the
   value, that mark opens a quoted text made of what follows the field.
   */
  function Leak(f: Field, from: nat, rest: string): string
    requires from <= |f.value|
  {
    var after := f.value[from..];
    if !f.quoted then after
    else if after == "" then UpTo(rest, 0, "\"")
    else
      match Find(after, ",", 0)
      case Some(comma) => DropBlanks(after[..comma])
      case None => after + "\""
  }

  function Seen(fs: seq<Field>, key: string): string {
    if fs == [] then ""
    else if IsSuffix(key, Head(fs[0])) then fs[0].value
    else
      match Find(fs[0].value, Pattern(key), 0)
      case Some(at) => FindFits(fs[0].value, Pattern(key), 0); Leak(fs[0], at + |key| + 1, Rest(fs[1..]))
      case None => Seen(fs[1..], key)
  }

  ghost predicate Clear(f: Field, key: string) {
    !IsSuffix(key, Head(f)) && Absent(f.value, Pattern(key))
  }

  lemma ClearText(f: Field, key: string)
    requires IsKeyName(key) && '=' !in Head(f) && Clear(f, key)
    ensures Absent(FieldText(f), Pattern(key))
  {
    hide OccursAt, IsSuffix, IsKeyName;
    NoEqualsSign(Head(f), key);
    ClearValueText(f, key);
    JoinAtEquals(Head(f), ValueText(f), key);
  }

  lemma ClearValueText(f: Field, key: string)
    requires IsKeyName(key) && Absent(f.value, Pattern(key))
    ensures Absent(ValueText(f), Pattern(key))
  {
    hide OccursAt, IsKeyName;
    if f.quoted {
      PatternCharacters(key);
      NoEqualsSign("", key);
      AbsentAcross("", '\"', f.value, Pattern(key));
      AbsentAcross("" + ['\"'] + f.value, '\"', "", Pattern(key));
      assert ValueText(f) == "" + ['\"'] + f.value + ['\"'] + "";
    }
  }

  ghost predicate AllClear(fs: seq<Field>, key: string) {
    forall j :: 0 <= j < |fs| ==> '=' !in Head(fs[j]) && Clear(fs[j], key)
  }

  lemma {:induction false} BeforeIsClear(fs: seq<Field>, key: string)
    requires IsKeyName(key) && AllClear(fs, key)
    ensures Absent(Before(fs), Pattern(key))
    ensures Before(fs) != "" && Before(fs)[|Before(fs)| - 1] !in Pattern(key)
  {
    hide OccursAt, FieldText, Clear, Head, IsKeyName;
    PatternCharacters(key);
    if fs == [] {
      NoEqualsSign(DIGEST_SCHEME, key);
    } else {
      var init, last := fs[..|fs| - 1], fs[|fs| - 1];
      BeforeIsClear(init, key);
      ClearText(last, key);
      AbsentAfter(Before(init), FieldText(last), key);
      NoEqualsSign("", key);
      AbsentAcross(Before(init) + FieldText(last), ',', "", Pattern(key));
      assert Before(fs) == Before(init) + FieldText(last) + [','] + "";
    }
  }

  lemma AbsentAfter(before: string, text: string, key: string)
    requires before != "" && before[|before| - 1] !in Pattern(key)
    requires Absent(before, Pattern(key)) && Absent(text, Pattern(key))
    ensures Absent(before + text, Pattern(key))
  {
    hide OccursAt, Pattern;
    var n := |before| - 1;
    AbsentPrefix(before, n, Pattern(key));
    AbsentAcross(before[..n], before[n], text, Pattern(key));
    assert before + text == before[..n] + [before[n]] + text;
  }

  // Everything up to a field's own key, when all fields before it are clear.
  lemma FrontIsClear(fs: seq<Field>, f: Field, key: string)
    requires IsKeyName(key) && AllClear(fs, key) && '=' !in Head(f)
    ensures Absent(Before(fs) + Head(f), Pattern(key))
    ensures IsSuffix(key, Before(fs) + Head(f)) <==> IsSuffix(key, Head(f))
  {
    hide OccursAt, AllClear, IsSuffix, Before, Head, IsKeyName;
    BeforeIsClear(fs, key);
    NoEqualsSign(Head(f), key);
    AbsentAfter(Before(fs), Head(f), key);
    assert Before(fs)[|Before(fs)| - 1] !in key by { NotInKey(Before(fs)[|Before(fs)| - 1], key); }
    SuffixStays(Before(fs), key, Head(f));
  }

  lemma NotInKey(c: char, key: string)
    requires c !in Pattern(key)
    ensures c !in key
  {
    assert forall i :: 0 <= i < |key| ==> Pattern(key)[i] == key[i];
  }

  lemma UpToMark(s: string, from: nat, value: string, c: char, rest: string)
    requires from <= |s| && s[from..] == value + rest && c !in value && (rest == "" || rest[0] == c)
    ensures UpTo(s, from, [c]) == value
  {
    var n := from + |value|;
    forall i | from <= i < n ensures !OccursAt(s, [c], i) {
      assert s[i] == s[from..][i - from] == value[i - from];
      assert s[i..i + 1][0] == s[i];
    }
    if rest != "" {
      assert s[n] == s[from..][|value|] == c;
      assert s[n..n + 1] == [c];
      assert OccursAt(s, [c], n);
      assert s[from..n] == s[from..][..|value|] == value;
    } else {
      assert s[from..] == value;
      forall i | from <= i ensures !OccursAt(s, [c], i) {
      }
    }
  }

  lemma UpToShifts(p: string, s: string, c: string)
    requires c != ""
    ensures UpTo(p + s, |p|, c) == UpTo(s, 0, c)
  {
    hide Find, OccursAt;
    FindShifts(p, s, c, 0);
    FindFits(s, c, 0);
    match Find(s, c, 0) {
      case Some(end) => assert (p + s)[|p|..|p| + end] == s[0..end];
      case None => assert (p + s)[|p|..] == s[0..];
    }
  }

  lemma QuotedValue(auth: string, pos: nat, value: string, tail: string)
    requires pos <= |auth| && auth[pos..] == ("\"" + value + "\"") + tail && '\"' !in value
    ensures pos < |auth| && auth[pos] == '\"' && UpTo(auth, pos + 1, "\"") == value
  {
    hide UpTo;
    assert auth[pos] == auth[pos..][0];
    assert auth[pos + 1..] == auth[pos..][1..] == value + ("\"" + tail);
    UpToMark(auth, pos + 1, value, '\"', "\"" + tail);
  }

  lemma PlainValue(auth: string, pos: nat, value: string, tail: string)
    requires pos <= |auth| && auth[pos..] == value + tail && IsTail(tail)
    requires ',' !in value && '\"' !in value && (value != "" ==> value[|value| - 1] != ' ')
    ensures (pos < |auth| ==> auth[pos] != '\"') && DropBlanks(UpTo(auth, pos, ",")) == value
  {
    hide UpTo;
    assert pos < |auth| ==> auth[pos] == auth[pos..][0];
    UpToMark(auth, pos, value, ',', tail);
  }

  // The reading that starts after the key's equals sign.
  function ReadAt(auth: string, pos: nat): string
    requires pos <= |auth|
  {
    if pos < |auth| && auth[pos] == '\"' then UpTo(auth, pos + 1, "\"") else DropBlanks(UpTo(auth, pos, ","))
  }

  predicate IsTail(tail: string) {
    tail == "" || tail[0] == ','
  }

  lemma ReadsAfterMatch(auth: string, front: string, key: string, rest: string)
    requires IsKeyName(key) && Absent(front, Pattern(key)) && IsSuffix(key, front) && auth == front + ("=" + rest)
    ensures DigestValue(auth, key) == ReadAt(auth, |front| + 1) && auth[|front| + 1..] == rest
  {
    hide Find, OccursAt, UpTo, DropBlanks, IsKeyName;
    FirstMatch(front, key, rest);
  }

  lemma ReadsOwnValue(auth: string, pos: nat, f: Field, tail: string)
    requires pos <= |auth| && auth[pos..] == ValueText(f) + tail && IsTail(tail) && IsDelimited(f)
    ensures ReadAt(auth, pos) == f.value
  {
    hide UpTo, DropBlanks;
    if f.quoted {
      QuotedValue(auth, pos, f.value, tail);
    } else {
      PlainValue(auth, pos, f.value, tail);
    }
  }

  lemma ReadsInside(auth: string, pos: nat, f: Field, from: nat, tail: string)
    requires pos <= |auth| && from <= |f.value| && IsTail(tail) && IsDelimited(f)
    requires auth[pos..] == f.value[from..] + (if f.quoted then "\"" + tail else tail)
    ensures ReadAt(auth, pos) == Leak(f, from, tail)
  {
    hide UpTo, Find, OccursAt;
    var after := f.value[from..];
    if !f.quoted {
      PlainValue(auth, pos, after, tail);
    } else if after == "" {
      assert auth[pos..] == "\"" + tail;
      assert auth[pos] == auth[pos..][0];
      assert auth == auth[..pos + 1] + tail by { assert auth == auth[..pos] + auth[pos..]; }
      UpToShifts(auth[..pos + 1], tail, "\"");
    } else {
      assert auth[pos] == auth[pos..][0] == after[0];
      InsideQuoted(auth, pos, after, tail);
    }
  }

  lemma InsideQuoted(auth: string, pos: nat, after: string, tail: string)
    requires pos <= |auth| && auth[pos..] == after + ("\"" + tail) && IsTail(tail) && '\"' !in after
    ensures DropBlanks(UpTo(auth, pos, ",")) ==
            match Find(after, ",", 0)
            case Some(comma) => DropBlanks(after[..comma])
            case None => after + "\""
  {
    hide UpTo;
    match Find(after, ",", 0) {
      case Some(comma) =>
        FirstMarkIs(after, ',', comma);
        assert auth[pos..] == after[..comma] + (after[comma..] + ("\"" + tail));
        UpToMark(auth, pos, after[..comma], ',', after[comma..] + ("\"" + tail));
      case None =>
        NoMark(after, ',');
        assert auth[pos..] == (after + "\"") + tail;
        UpToMark(auth, pos, after + "\"", ',', tail);
    }
  }

  lemma FirstMarkIs(s: string, c: char, i: nat)
    requires Find(s, [c], 0) == Some(i)
    ensures i < |s| && s[i] == c && c !in s[..i]
  {
    hide Find;
    assert s[i..i + 1] == [c];
    assert s[i..i + 1][0] == s[i];
    forall j | 0 <= j < i ensures s[j] != c {
      assert s[j..j + 1] == [s[j]];
      assert !OccursAt(s, [c], j);
    }
  }

  lemma NoMark(s: string, c: char)
    requires Find(s, [c], 0).None?
    ensures c !in s
  {
    hide Find;
    forall j | 0 <= j < |s| ensures s[j] != c {
      assert s[j..j + 1] == [s[j]];
      assert !OccursAt(s, [c], j);
    }
  }

  /** The lookup in any list of delimited fields, whatever the values hold. */
  lemma ListIsRead(fs: seq<Field>, key: string)
    requires IsList(fs) && IsKeyName(key)
    ensures DigestValue(Credentials(fs), key) == Seen(fs, key)
  {
    hide DigestValue, Credentials, Seen;
    assert fs[0..] == fs;
    ReadFrom(fs, 0, key);
  }

  lemma {:induction false} ReadFrom(fs: seq<Field>, i: nat, key: string)
    requires IsList(fs) && IsKeyName(key) && i <= |fs| && AllClear(fs[..i], key)
    ensures DigestValue(Credentials(fs), key) == Seen(fs[i..], key)
    decreases |fs| - i
  {
    hide DigestValue, Credentials, OccursAt, IsSuffix, Head, FieldText, Leak, Find, Rest, IsKeyName;
    if i == |fs| {
      assert fs[..i] == fs;
      NothingIsRead(fs, key);
    } else {
      var f := fs[i];
      assert fs[i..][0] == f && fs[i..][1..] == fs[i + 1..];
      if IsSuffix(key, Head(f)) {
        OwnKeyIsRead(fs, i, key);
      } else if Find(f.value, Pattern(key), 0).Some? {
        HiddenKeyIsRead(fs, i, key);
      } else {
        NothingFound(f.value, Pattern(key));
        assert fs[..i + 1] == fs[..i] + [f];
        ReadFrom(fs, i + 1, key);
      }
    }
  }

  lemma NothingFound(s: string, pattern: string)
    ensures Find(s, pattern, 0).None? <==> Absent(s, pattern)
  {
    if Find(s, pattern, 0).None? {
      forall i ensures !OccursAt(s, pattern, i) {
      }
    }
  }

  lemma NothingIsRead(fs: seq<Field>, key: string)
    requires IsList(fs) && IsKeyName(key) && AllClear(fs, key)
    ensures DigestValue(Credentials(fs), key) == ""
  {
    hide OccursAt, AllClear, FieldText, IsKeyName;
    var n := |fs| - 1;
    BeforeIsClear(fs, key);
    CredentialsSplit(fs, n);
    var c := Credentials(fs);
    assert Before(fs) == c + ",";
    AbsentPrefix(Before(fs), |c|, Pattern(key));
    NothingFound(c, Pattern(key));
  }

  lemma OwnKeyIsRead(fs: seq<Field>, i: nat, key: string)
    requires IsList(fs) && IsKeyName(key) && i < |fs| && AllClear(fs[..i], key) && IsSuffix(key, Head(fs[i]))
    ensures DigestValue(Credentials(fs), key) == fs[i].value
  {
    hide DigestValue, Credentials, OccursAt, IsSuffix, Head, Before, AllClear, ReadAt, ValueText, Absent, IsKeyName;
    var f, tail := fs[i], Rest(fs[i + 1..]);
    CredentialsSplit(fs, i);
    FrontIsClear(fs[..i], f, key);
    var front := Before(fs[..i]) + Head(f);
    assert Credentials(fs) == front + ("=" + (ValueText(f) + tail));
    ReadsAfterMatch(Credentials(fs), front, key, ValueText(f) + tail);
    ReadsOwnValue(Credentials(fs), |front| + 1, f, tail);
  }

  lemma HiddenKeyIsRead(fs: seq<Field>, i: nat, key: string)
    requires IsList(fs) && IsKeyName(key) && i < |fs| && AllClear(fs[..i], key) && !IsSuffix(key, Head(fs[i]))
    requires Find(fs[i].value, Pattern(key), 0).Some?
    ensures var at := Find(fs[i].value, Pattern(key), 0).value;
            at + |key| + 1 <= |fs[i].value| &&
            DigestValue(Credentials(fs), key) == Leak(fs[i], at + |key| + 1, Rest(fs[i + 1..]))
  {
    hide DigestValue, Credentials, OccursAt, IsSuffix, Head, Before, AllClear, ReadAt, Leak, Find, Absent, IsKeyName,
         ValueText, Opening;
    var f, tail := fs[i], Rest(fs[i + 1..]);
    var at := Find(f.value, Pattern(key), 0).value;
    FindFits(f.value, Pattern(key), 0);
    var from, close := at + |key| + 1, if f.quoted then "\"" + tail else tail;
    CredentialsSplit(fs, i);
    var front := HiddenFront(fs[..i], f, at, key);
    var rest := f.value[from..] + close;
    ValueAround(f, at, key, tail);
    JoinPieces(Before(fs[..i]), Head(f), ValueText(f), tail, Opening(f) + f.value[..at + |key|], "=" + rest);
    ReadsAfterMatch(Credentials(fs), front, key, rest);
    ReadsInside(Credentials(fs), |front| + 1, f, from, tail);
  }

  lemma JoinPieces(before: string, head: string, value: string, tail: string, a: string, b: string)
    requires value + tail == a + b
    ensures before + ((head + "=" + value) + tail) == (before + head + "=" + a) + b
  {
    assert (head + "=" + value) + tail == (head + "=") + (value + tail);
  }

  function Opening(f: Field): string {
    if f.quoted then "\"" else ""
  }

  lemma ValueAround(f: Field, at: nat, key: string, tail: string)
    requires OccursAt(f.value, Pattern(key), at)
    ensures at + |key| + 1 <= |f.value|
    ensures ValueText(f) + tail ==
            (Opening(f) + f.value[..at + |key|]) + ("=" + (f.value[at + |key| + 1..] + if f.quoted then "\"" + tail else tail))
  {
    hide OccursAt;
    var n := at + |key|;
    OccurrenceCharacter(f.value, Pattern(key), at, |key|);
    assert f.value[n] == '=';
    assert f.value == f.value[..n] + ("=" + f.value[n + 1..]);
  }

  // The text up to the first occurrence of the key in the value.
  lemma HiddenFront(fs: seq<Field>, f: Field, at: nat, key: string) returns (front: string)
    requires IsKeyName(key) && AllClear(fs, key) && '=' !in Head(f) && !IsSuffix(key, Head(f))
    requires Find(f.value, Pattern(key), 0) == Some(at) && at + |key| + 1 <= |f.value|
    ensures front == Before(fs) + Head(f) + "=" + (Opening(f) + f.value[..at + |key|])
    ensures Absent(front, Pattern(key)) && IsSuffix(key, front)
  {
    hide Before, Head, AllClear, IsKeyName, Find, Absent, Opening;
    var v := f.value[..at + |key|];
    front := Before(fs) + Head(f) + "=" + (Opening(f) + v);
    FrontIsClear(fs, f, key);
    PrefixIsClear(f.value, at, key);
    assert Absent(Opening(f) + v, Pattern(key)) by { OpeningIsClear(f, v, key); }
    JoinAtEquals(Before(fs) + Head(f), Opening(f) + v, key);
    assert v[at..] == key by { assert f.value[at..at + |Pattern(key)|][..|key|] == key; }
    assert front[|front| - |key|..] == key;
  }

  lemma PrefixIsClear(value: string, at: nat, key: string)
    requires Find(value, Pattern(key), 0) == Some(at) && at + |key| + 1 <= |value|
    ensures Absent(value[..at + |key|], Pattern(key))
  {
    hide Find;
    var prefix := value[..at + |key|];
    forall i ensures !OccursAt(prefix, Pattern(key), i) {
      if 0 <= i < at {
        OccurrenceInWhole(value, at + |key|, Pattern(key), i);
      }
    }
  }

  lemma OpeningIsClear(f: Field, v: string, key: string)
    requires IsKeyName(key) && Absent(v, Pattern(key))
    ensures Absent(Opening(f) + v, Pattern(key))
  {
    hide OccursAt, IsKeyName;
    if f.quoted {
      PatternCharacters(key);
      NoEqualsSign("", key);
      AbsentAcross("", '\"', v, Pattern(key));
      assert Opening(f) + v == "" + ['\"'] + v;
    } else {
      assert Opening(f) + v == v;
    }
  }

  // ---------------------------------------------------------------------
  // Finding the header among the request's lines.

  lemma FindStep(s: string, pattern: string, k: nat)
    ensures Find(s, pattern, k) ==
            if k + |pattern| > |s| then None
            else if s[k..k + |pattern|] == pattern then Some(k)
            else Find(s, pattern, k + 1)
  {
  }

  lemma {:induction false} FindShifts(p: string, s: string, pattern: string, k: nat)
    ensures Find(p + s, pattern, |p| + k) ==
            match Find(s, pattern, k)
            case Some(i) => Some(|p| + i)
            case None => None
    decreases |s| - k
  {
    hide Find, OccursAt;
    FindStep(s, pattern, k);
    FindStep(p + s, pattern, |p| + k);
    if k + |pattern| <= |s| {
      assert (p + s)[|p| + k..|p| + k + |pattern|] == s[k..k + |pattern|];
      if s[k..k + |pattern|] != pattern {
        FindShifts(p, s, pattern, k + 1);
      }
    }
  }

  lemma {:induction false} SkipBlanksShifts(p: string, s: string, from: nat, end: nat)
    requires from <= end <= |s|
    ensures SkipBlanks(p + s, |p| + from, |p| + end) == |p| + SkipBlanks(s, from, end)
    decreases end - from
  {
    if from < end {
      assert (p + s)[|p| + from] == s[from];
      SkipBlanksShifts(p, s, from + 1, end);
    }
  }

  lemma {:induction false} HeaderShifts(p: string, s: string, k: nat, name: string)
    requires k <= |s|
    ensures HeaderFrom(p + s, |p| + k, name) == HeaderFrom(s, k, name)
    decreases |s| - k
  {
    hide Find, SkipBlanks, SameName, OccursAt;
    var r := p + s;
    FindFits(s, CRLF, k);
    FindShifts(p, s, CRLF, k);
    FindShifts(p, s, ":", k);
    if k < |s| && Find(s, CRLF, k).Some? && Find(s, CRLF, k).value != k {
      var end := Find(s, CRLF, k).value;
      LineShifts(p, s, k, end, name);
      HeaderShifts(p, s, end + 2, name);
    }
  }

  lemma LineShifts(p: string, s: string, k: nat, end: nat, name: string)
    requires k <= end <= |s|
    ensures LineValue(p + s, |p| + k, |p| + end, name) == LineValue(s, k, end, name)
  {
    hide Find, SkipBlanks, SameName, OccursAt;
    FindShifts(p, s, ":", k);
    var r := p + s;
    if Find(s, ":", k).Some? && Find(s, ":", k).value < end {
      var colon := Find(s, ":", k).value;
      assert r[|p| + k..|p| + colon] == s[k..colon];
      SkipBlanksShifts(p, s, colon + 1, end);
      var v := SkipBlanks(s, colon + 1, end);
      assert r[|p| + v..|p| + end] == s[v..end];
    }
  }

  // The first line end of a text that begins with a line.
  lemma LineEnds(line: string, rest: string)
    requires Absent(line, CRLF)
    ensures Find(line + (CRLF + rest), CRLF, 0) == Some(|line|)
  {
    hide OccursAt;
    var s := line + (CRLF + rest);
    assert OccursAt(s, CRLF, |line|) by { MatchHere(line, CRLF, rest); }
    assert s[0..|line|] == line;
    forall i | 0 <= i < |line| ensures !OccursAt(s, CRLF, i) {
      if i + 2 <= |line| {
        OccurrenceInPart(s, line, 0, CRLF, i);
      } else {
        OccurrenceCharacter(s, CRLF, i, 1);
      }
    }
  }

  lemma MatchHere(before: string, pattern: string, rest: string)
    ensures OccursAt(before + (pattern + rest), pattern, |before|)
  {
  }

  function Lines(lines: seq<string>, rest: string): string {
    if lines == [] then rest else lines[0] + (CRLF + Lines(lines[1..], rest))
  }

  // A header line with another name, or with no name at all.
  ghost predicate IsOtherHeader(line: string, name: string) {
    line != "" && Absent(line, CRLF) &&
    match Find(line, ":", 0)
    case Some(colon) => !SameName(line[..colon], name)
    case None => true
  }

  lemma FindInFront(line: string, rest: string, c: char)
    ensures Find(line, [c], 0).Some? ==> Find(line + rest, [c], 0) == Find(line, [c], 0)
    ensures Find(line, [c], 0).None? ==>
              Find(line + rest, [c], 0).None? || Find(line + rest, [c], 0).value >= |line|
  {
    hide OccursAt;
    var s := line + rest;
    FindFits(line, [c], 0);
    forall i | 0 <= i < |line| ensures OccursAt(s, [c], i) <==> OccursAt(line, [c], i) {
      SameInFront(line, rest, c, i);
    }
    if Find(line, [c], 0).Some? {
      assert OccursAt(s, [c], Find(line, [c], 0).value);
      assert OccursAt(line, [c], Find(s, [c], 0).value);
    } else if Find(s, [c], 0).Some? {
      assert OccursAt(s, [c], Find(s, [c], 0).value);
    }
  }

  lemma SameInFront(line: string, rest: string, c: char, i: nat)
    requires i < |line|
    ensures OccursAt(line + rest, [c], i) <==> OccursAt(line, [c], i)
  {
  }

  lemma OtherHeaderIsPassed(line: string, rest: string, name: string)
    requires IsOtherHeader(line, name)
    ensures HeaderFrom(line + (CRLF + rest), 0, name) == HeaderFrom(rest, 0, name)
  {
    hide Find, SkipBlanks, SameName, OccursAt;
    var s := line + (CRLF + rest);
    LineEnds(line, rest);
    FindInFront(line, CRLF + rest, ':');
    if Find(line, ":", 0).Some? {
      var colon := Find(line, ":", 0).value;
      FindFits(line, ":", 0);
      assert s[0..colon] == line[..colon];
    }
    assert LineValue(s, 0, |line|, name).None?;
    assert s == (line + CRLF) + rest;
    HeaderShifts(line + CRLF, rest, 0, name);
  }

  predicate IsBlanks(s: string) {
    forall i :: 0 <= i < |s| ==> s[i] == ' ' || s[i] == '\t'
  }

  lemma {:induction false} BlanksAreSkipped(s: string, from: nat, end: nat, n: nat)
    requires from + n <= end <= |s| && IsBlanks(s[from..from + n])
    requires from + n == end || (s[from + n] != ' ' && s[from + n] != '\t')
    ensures SkipBlanks(s, from, end) == from + n
    decreases n
  {
    if n > 0 {
      assert s[from..from + n][0] == s[from];
      assert s[from..from + n][1..] == s[from + 1..from + n];
      BlanksAreSkipped(s, from + 1, end, n - 1);
    }
  }

  lemma HeaderIsTaken(label_: string, gap: string, value: string, rest: string, name: string)
    requires ':' !in label_ && SameName(label_, name) && IsBlanks(gap) && Absent(label_ + (":" + (gap + value)), CRLF)
    requires value == "" || (value[0] != ' ' && value[0] != '\t')
    ensures HeaderFrom((label_ + (":" + (gap + value))) + (CRLF + rest), 0, name) == value
  {
    hide Find, SameName, OccursAt, SkipBlanks, IsBlanks;
    var line := label_ + (":" + (gap + value));
    var s := line + (CRLF + rest);
    LineEnds(line, rest);
    assert Find(s, ":", 0) == Some(|label_|) by { FirstMark(label_, gap + value + (CRLF + rest), ':', s); }
    assert s[0..|label_|] == label_;
    var start := |label_| + 1;
    assert s[start..start + |gap|] == gap;
    assert value != "" ==> s[start + |gap|] == value[0];
    BlanksAreSkipped(s, start, |line|, |gap|);
    assert s[start + |gap|..|line|] == value;
  }

  lemma FirstMark(before: string, rest: string, c: char, s: string)
    requires c !in before && s == before + [c] + rest
    ensures Find(s, [c], 0) == Some(|before|)
  {
    assert s[|before|..|before| + 1] == [c];
    assert OccursAt(s, [c], |before|);
    forall i | 0 <= i < |before| ensures !OccursAt(s, [c], i) {
      OccurrenceCharacter(s, [c], i, 0);
      assert s[i] == before[i];
    }
  }

  lemma {:induction false} HeaderAmongLines(lines: seq<string>, rest: string, name: string)
    requires forall i :: 0 <= i < |lines| ==> IsOtherHeader(lines[i], name)
    ensures HeaderFrom(Lines(lines, rest), 0, name) == HeaderFrom(rest, 0, name)
  {
    hide HeaderFrom, IsOtherHeader;
    if lines != [] {
      OtherHeaderIsPassed(lines[0], Lines(lines[1..], rest), name);
      HeaderAmongLines(lines[1..], rest, name);
    }
  }
}
