/**
 Byte strings as the program sees them (one `char` per byte), with the few
 text operations several components share: decimal numerals, trailing line
 ends, C strings, and substring search.
 */
module Text {
  import opened Wrappers

  predicate IsDigit(c: char) {
    '0' <= c <= '9'
  }

  predicate IsNumeral(s: string) {
    s != "" && forall i :: 0 <= i < |s| ==> IsDigit(s[i])
  }

  function DigitOf(n: nat): (c: char)
    requires n < 10
    ensures IsDigit(c)
  {
    '0' + n as char
  }

  function DecimalValue(s: string): nat
    requires forall i :: 0 <= i < |s| ==> IsDigit(s[i])
  {
    if s == "" then 0
    else
      assert IsDigit(s[|s| - 1]);
      DecimalValue(s[..|s| - 1]) * 10 + (s[|s| - 1] as int - '0' as int)
  }

  function Decimal(n: nat): (s: string)
    ensures IsNumeral(s)
  {
    if n < 10 then [DigitOf(n)] else Decimal(n / 10) + [DigitOf(n % 10)]
  }

  lemma {:induction false} DecimalReadsBack(n: nat)
    ensures DecimalValue(Decimal(n)) == n
  {
    if n < 10 {
      assert Decimal(n)[..0] == "";
    } else {
      DecimalReadsBack(n / 10);
      assert Decimal(n)[..|Decimal(n)| - 1] == Decimal(n / 10);
    }
  }

  // What `gsub("[\r\n]+$", "")` and the pop_back loop leave of a command's output.
  function TrimLineEnds(s: string): (r: string)
    ensures |r| <= |s| && r == s[..|r|]
    ensures r == s <==> !EndsWithLineEnd(s)
    ensures !EndsWithLineEnd(r)
  {
    if EndsWithLineEnd(s) then TrimLineEnds(s[..|s| - 1]) else s
  }

  predicate EndsWithLineEnd(s: string) {
    s != "" && (s[|s| - 1] == '\r' || s[|s| - 1] == '\n')
  }

  /** Carriage return and line feed are the line ends, and nothing else is. */
  lemma LineEndCharacters(s: string, c: char)
    ensures EndsWithLineEnd(s + [c]) <==> c == 13 as char || c == 10 as char
  {
  }

  /** All line ends at the end go, and nothing before them. */
  lemma {:induction false} LineEndsAreTrimmed(s: string, ends: string)
    requires !EndsWithLineEnd(s) && forall i :: 0 <= i < |ends| ==> ends[i] == '\r' || ends[i] == '\n'
    ensures TrimLineEnds(s + ends) == s
  {
    if ends == "" {
      assert s + ends == s;
    } else {
      var init := ends[..|ends| - 1];
      assert (s + ends)[..|s + ends| - 1] == s + init;
      LineEndsAreTrimmed(s, init);
    }
  }

  // isspace and %s in the C locale.
  predicate IsSpace(c: char) {
    c == ' ' || '\t' <= c <= '\r'
  }

  // Blanks, tabs, line feeds, vertical tabs, form feeds, carriage returns.
  predicate AreSpaces(s: string) {
    forall i :: 0 <= i < |s| ==> s[i] in [' ', '\t', '\n', 11 as char, 12 as char, '\r']
  }

  const NUL: char := '\0'

  // The part of a buffer that a C function taking char* sees.
  function CString(s: string): (r: string)
    ensures NUL !in r
    ensures NUL !in s ==> r == s
  {
    if s == "" || s[0] == NUL then "" else [s[0]] + CString(s[1..])
  }

  lemma {:induction false} CStringOfAppend(s: string, t: string)
    ensures CString(s + t) == if NUL in s then CString(s) else s + CString(t)
  {
    if s == "" {
      assert s + t == t;
    } else {
      assert (s + t)[1..] == s[1..] + t;
      if s[0] != NUL {
        CStringOfAppend(s[1..], t);
      }
    }
  }

  predicate OccursAt(s: string, pattern: string, i: int) {
    0 <= i <= |s| - |pattern| && s[i..i + |pattern|] == pattern
  }

  // std::string::find: the least index at or after `from`.
  function Find(s: string, pattern: string, from: nat): (r: Option<nat>)
    ensures r.Some? ==> from <= r.value && OccursAt(s, pattern, r.value) &&
                        forall i :: from <= i < r.value ==> !OccursAt(s, pattern, i)
    ensures r.None? ==> forall i :: from <= i ==> !OccursAt(s, pattern, i)
    decreases |s| - from
  {
    if from + |pattern| > |s| then None
    else if s[from..from + |pattern|] == pattern then Some(from)
    else Find(s, pattern, from + 1)
  }

  ghost predicate Absent(s: string, pattern: string) {
    forall i :: !OccursAt(s, pattern, i)
  }

  function LowerChar(c: char): char {
    if 'A' <= c <= 'Z' then c - 'A' + 'a' else c
  }

  /** The 26 letters, one by one. */
  lemma LettersAreLowered(i: nat)
    requires i < 26
    ensures LowerChar("ABCDEFGHIJKLMNOPQRSTUVWXYZ"[i]) == "abcdefghijklmnopqrstuvwxyz"[i]
    ensures LowerChar("abcdefghijklmnopqrstuvwxyz"[i]) == "abcdefghijklmnopqrstuvwxyz"[i]
  {
  }

  function Lower(s: string): (r: string)
    ensures |r| == |s| && forall i :: 0 <= i < |s| ==> r[i] == LowerChar(s[i])
  {
    seq(|s|, i requires 0 <= i < |s| => LowerChar(s[i]))
  }
}
