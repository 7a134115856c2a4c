/** The address filter behind ConnectionRequestURL (transformer/transformer.lua:188-198, 274-290). */
module Ipv4 {
  import opened Wrappers
  import opened Text
  import opened Shell

  function TrimLeft(s: string): string {
    if s != "" && IsSpace(s[0]) then TrimLeft(s[1..]) else s
  }

  function TrimRight(s: string): string {
    if s != "" && IsSpace(s[|s| - 1]) then TrimRight(s[..|s| - 1]) else s
  }

  datatype Quad = Quad(a: nat, b: nat, c: nat, d: nat)

  // ^(%d+)%.(%d+)%.(%d+)%.(%d+)$
  function ParseQuad(s: string): Option<Quad> {
    var f := Split(s, '.');
    if |f| == 4 && IsNumeral(f[0]) && IsNumeral(f[1]) && IsNumeral(f[2]) && IsNumeral(f[3]) then
      Some(Quad(DecimalValue(f[0]), DecimalValue(f[1]), DecimalValue(f[2]), DecimalValue(f[3])))
    else None
  }

  function Dotted(q: Quad): string {
    Decimal(q.a) + ("." + (Decimal(q.b) + ("." + (Decimal(q.c) + ("." + Decimal(q.d))))))
  }

  function UsableIpv4(text: string): Option<string> {
    match ParseQuad(TrimRight(TrimLeft(text)))
    case None => None
    case Some(q) =>
      if q.a > 255 || q.b > 255 || q.c > 255 || q.d > 255 then None
      else if q.a == 0 || q.a == 127 || q.a >= 224 then None
      else Some(Dotted(q))
  }

  // Unicast host addresses: not unspecified, not loopback, not multicast or reserved.
  predicate IsUnicast(q: Quad) {
    (1 <= q.a <= 126 || 128 <= q.a <= 223) && q.b <= 255 && q.c <= 255 && q.d <= 255
  }

  lemma {:induction false} SplitField(f: string, rest: string, c: char)
    requires c !in f
    ensures Split(f + ([c] + rest), c) == [f] + Split(rest, c)
  {
    var s := f + ([c] + rest);
    if f == "" {
      assert s == [c] + rest && s[1..] == rest;
    } else {
      assert s[1..] == f[1..] + ([c] + rest);
      SplitField(f[1..], rest, c);
      var tail := [f[1..]] + Split(rest, c);
      assert [f[0]] + f[1..] == f;
      assert tail[1..] == Split(rest, c);
    }
  }

  lemma {:induction false} SplitLast(f: string, c: char)
    requires c !in f
    ensures Split(f, c) == [f]
  {
    if f != "" {
      SplitLast(f[1..], c);
      assert [f[0]] + f[1..] == f;
    }
  }

  lemma NumeralsHaveNoDot(s: string)
    requires IsNumeral(s)
    ensures '.' !in s
  {
  }

  lemma DottedParses(q: Quad)
    ensures ParseQuad(Dotted(q)) == Some(q)
  {
    hide Split, Decimal;
    NumeralsHaveNoDot(Decimal(q.a));
    NumeralsHaveNoDot(Decimal(q.b));
    NumeralsHaveNoDot(Decimal(q.c));
    NumeralsHaveNoDot(Decimal(q.d));
    SplitLast(Decimal(q.d), '.');
    SplitField(Decimal(q.c), Decimal(q.d), '.');
    SplitField(Decimal(q.b), Decimal(q.c) + ("." + Decimal(q.d)), '.');
    SplitField(Decimal(q.a), Decimal(q.b) + ("." + (Decimal(q.c) + ("." + Decimal(q.d)))), '.');
    DecimalReadsBack(q.a);
    DecimalReadsBack(q.b);
    DecimalReadsBack(q.c);
    DecimalReadsBack(q.d);
  }

  lemma DottedIsTrimmed(q: Quad)
    ensures TrimRight(TrimLeft(Dotted(q))) == Dotted(q)
  {
  }

  /** What passes the filter is a canonical unicast dotted quad, and such a text passes unchanged. */
  lemma UsableIsCanonical(text: string)
    ensures UsableIpv4(text).Some? ==> exists q :: IsUnicast(q) && UsableIpv4(text) == Some(Dotted(q))
    ensures UsableIpv4(text).Some? ==> UsableIpv4(UsableIpv4(text).value) == UsableIpv4(text)
  {
    if UsableIpv4(text).Some? {
      var q := ParseQuad(TrimRight(TrimLeft(text))).value;
      assert IsUnicast(q);
      UnicastIsFixed(q);
    }
  }

  lemma UnicastIsFixed(q: Quad)
    ensures UsableIpv4(Dotted(q)) == Some(Dotted(q)) <==> IsUnicast(q)
  {
    DottedParses(q);
    DottedIsTrimmed(q);
  }

  // ---------------------------------------------------------------------
  // The computed URL.

  // Candidate texts in order: interface status, route to the ACS, interface option, LAN option.
  function FirstUsable(candidates: seq<string>): Option<string> {
    if candidates == [] then None
    else if UsableIpv4(candidates[0]).Some? then UsableIpv4(candidates[0])
    else FirstUsable(candidates[1..])
  }

  function ComputedUrl(candidates: seq<string>, port: Option<string>): string {
    match FirstUsable(candidates)
    case None => ""
    case Some(ip) =>
      var text := port.GetOr("7547");
      "http://" + ip + ":" + (if IsNumeral(text) then text else "7547") + "/connection-request"
  }

  ghost predicate IsConnectionRequestUrl(url: string, q: Quad, port: string) {
    IsUnicast(q) && IsNumeral(port) && url == "http://" + Dotted(q) + ":" + port + "/connection-request"
  }

  lemma {:induction false} FirstUsableIsFirst(candidates: seq<string>)
    ensures FirstUsable(candidates).None? <==> forall i :: 0 <= i < |candidates| ==> UsableIpv4(candidates[i]).None?
    ensures FirstUsable(candidates).Some? ==>
              exists i :: 0 <= i < |candidates| && FirstUsable(candidates) == UsableIpv4(candidates[i]) &&
                          forall j :: 0 <= j < i ==> UsableIpv4(candidates[j]).None?
  {
    hide UsableIpv4;
    if candidates != [] {
      FirstUsableIsFirst(candidates[1..]);
      if UsableIpv4(candidates[0]).None? && FirstUsable(candidates).Some? {
        var rest := candidates[1..];
        var i :| 0 <= i < |rest| && FirstUsable(rest) == UsableIpv4(rest[i]) &&
                 forall j :: 0 <= j < i ==> UsableIpv4(rest[j]).None?;
        assert candidates[i + 1] == rest[i];
        forall j | 0 <= j < i + 1 ensures UsableIpv4(candidates[j]).None? {
          if j > 0 {
            assert candidates[j] == rest[j - 1];
          }
        }
      }
    }
  }

  // The place of the first candidate that passes the filter.
  ghost predicate IsFirstUsable(candidates: seq<string>, i: int) {
    0 <= i < |candidates| && UsableIpv4(candidates[i]).Some? && forall j :: 0 <= j < i ==> UsableIpv4(candidates[j]).None?
  }

  lemma FirstUsableAt(candidates: seq<string>, i: int)
    requires IsFirstUsable(candidates, i)
    ensures FirstUsable(candidates) == UsableIpv4(candidates[i])
  {
    hide UsableIpv4;
    FirstUsableIsFirst(candidates);
    var k :| 0 <= k < |candidates| && FirstUsable(candidates) == UsableIpv4(candidates[k]) &&
             forall j :: 0 <= j < k ==> UsableIpv4(candidates[j]).None?;
    assert k == i;
  }

  /**
   The computed URL is empty exactly when no candidate is usable. Otherwise it has the address of the first
   usable one, a unicast host, and the configured port, or 7547 without a port in digits.
   */
  lemma ComputedUrlIsUsable(candidates: seq<string>, port: Option<string>)
    ensures ComputedUrl(candidates, port) == "" <==> forall i :: 0 <= i < |candidates| ==> UsableIpv4(candidates[i]).None?
    ensures forall i :: IsFirstUsable(candidates, i) ==>
              exists q :: UsableIpv4(candidates[i]) == Some(Dotted(q)) &&
                          IsConnectionRequestUrl(ComputedUrl(candidates, port), q,
                                                 if port.Some? && IsNumeral(port.value) then port.value else "7547")
  {
    hide UsableIpv4, IsUnicast, Dotted, FirstUsable;
    FirstUsableIsFirst(candidates);
    assert IsNumeral("7547") by { DefaultPortIsNumeral(); }
    forall i | IsFirstUsable(candidates, i)
      ensures exists q :: UsableIpv4(candidates[i]) == Some(Dotted(q)) &&
                          IsConnectionRequestUrl(ComputedUrl(candidates, port), q,
                                                 if port.Some? && IsNumeral(port.value) then port.value else "7547")
    {
      FirstUsableAt(candidates, i);
      UsableIsCanonical(candidates[i]);
      var q :| IsUnicast(q) && UsableIpv4(candidates[i]) == Some(Dotted(q));
      assert IsConnectionRequestUrl(ComputedUrl(candidates, port), q,
                                    if port.Some? && IsNumeral(port.value) then port.value else "7547");
    }
  }

  lemma DefaultPortIsNumeral()
    ensures IsNumeral("7547")
  {
  }

  // ---------------------------------------------------------------------
  // What passes the filter, in full.

  function FourFields(f: seq<string>): string
    requires |f| == 4
  {
    f[0] + ("." + (f[1] + ("." + (f[2] + ("." + f[3])))))
  }

  predicate AreNumerals(f: seq<string>) {
    |f| == 4 && IsNumeral(f[0]) && IsNumeral(f[1]) && IsNumeral(f[2]) && IsNumeral(f[3])
  }

  function ValuesOf(f: seq<string>): Quad
    requires AreNumerals(f)
  {
    Quad(DecimalValue(f[0]), DecimalValue(f[1]), DecimalValue(f[2]), DecimalValue(f[3]))
  }

  // Four numerals with dots between them and white space around them.
  ghost predicate WritesQuad(text: string, before: string, f: seq<string>, after: string, q: Quad) {
    AreSpaces(before) && AreSpaces(after) && AreNumerals(f) && text == before + FourFields(f) + after && ValuesOf(f) == q
  }

  lemma {:induction false} SpacesAreTrimmed(before: string, body: string)
    requires AreSpaces(before) && (body == "" || !IsSpace(body[0]))
    ensures TrimLeft(before + body) == body
  {
    if before == "" {
      assert before + body == body;
    } else {
      assert (before + body)[1..] == before[1..] + body;
      SpacesAreTrimmed(before[1..], body);
    }
  }

  lemma {:induction false} LastSpacesAreTrimmed(body: string, after: string)
    requires AreSpaces(after) && (body == "" || !IsSpace(body[|body| - 1]))
    ensures TrimRight(body + after) == body
  {
    if after == "" {
      assert body + after == body;
    } else {
      var n := |body + after| - 1;
      assert (body + after)[..n] == body + after[..|after| - 1];
      LastSpacesAreTrimmed(body, after[..|after| - 1]);
    }
  }

  lemma {:induction false} TrimmedLeft(s: string) returns (before: string)
    ensures AreSpaces(before) && s == before + TrimLeft(s)
  {
    if s != "" && IsSpace(s[0]) {
      var more := TrimmedLeft(s[1..]);
      before := [s[0]] + more;
    } else {
      before := "";
    }
  }

  lemma {:induction false} TrimmedRight(s: string) returns (after: string)
    ensures AreSpaces(after) && s == TrimRight(s) + after
  {
    if s != "" && IsSpace(s[|s| - 1]) {
      var more := TrimmedRight(s[..|s| - 1]);
      after := more + [s[|s| - 1]];
      assert s == s[..|s| - 1] + [s[|s| - 1]];
    } else {
      after := "";
    }
  }

  lemma {:induction false} SplitJoins(s: string, c: char)
    ensures var f := Split(s, c);
            |f| >= 1 && (|f| == 1 ==> s == f[0]) && (|f| > 1 ==> |f[0]| < |s| && s == f[0] + ([c] + s[|f[0]| + 1..]) &&
                                                                 Split(s[|f[0]| + 1..], c) == f[1..])
  {
    if s != "" && s[0] != c {
      SplitJoins(s[1..], c);
    }
  }

  lemma FieldsJoin(s: string)
    requires |Split(s, '.')| == 4
    ensures s == FourFields(Split(s, '.'))
  {
    hide Split;
    var f := Split(s, '.');
    SplitJoins(s, '.');
    var t := s[|f[0]| + 1..];
    SplitJoins(t, '.');
    var u := t[|f[1]| + 1..];
    SplitJoins(u, '.');
    var v := u[|f[2]| + 1..];
    SplitJoins(v, '.');
  }

  lemma FieldsSplit(f: seq<string>)
    requires AreNumerals(f)
    ensures Split(FourFields(f), '.') == f
  {
    hide Split;
    NumeralsHaveNoDot(f[0]);
    NumeralsHaveNoDot(f[1]);
    NumeralsHaveNoDot(f[2]);
    NumeralsHaveNoDot(f[3]);
    SplitLast(f[3], '.');
    SplitField(f[2], f[3], '.');
    SplitField(f[1], f[2] + ("." + f[3]), '.');
    SplitField(f[0], f[1] + ("." + (f[2] + ("." + f[3]))), '.');
    assert f == [f[0], f[1], f[2], f[3]];
  }

  lemma FieldsAreTight(f: seq<string>)
    requires AreNumerals(f)
    ensures var t := FourFields(f); t != "" && !IsSpace(t[0]) && !IsSpace(t[|t| - 1])
  {
    assert FourFields(f)[0] == f[0][0];
    assert IsDigit(f[0][0]) && IsDigit(f[3][|f[3]| - 1]);
  }

  lemma TrimmedFields(before: string, f: seq<string>, after: string)
    requires AreSpaces(before) && AreSpaces(after) && AreNumerals(f)
    ensures TrimRight(TrimLeft(before + FourFields(f) + after)) == FourFields(f)
  {
    hide TrimLeft, TrimRight, FourFields;
    var t := FourFields(f);
    FieldsAreTight(f);
    assert before + t + after == before + (t + after);
    SpacesAreTrimmed(before, t + after);
    LastSpacesAreTrimmed(t, after);
  }

  /** The filter passes exactly four numerals that make a unicast address, with any white space around, as the plain quad. */
  lemma FilterIsExact(text: string, q: Quad)
    ensures UsableIpv4(text) == Some(Dotted(q)) <==>
            IsUnicast(q) && exists before, f, after :: WritesQuad(text, before, f, after, q)
  {
    hide Split, Dotted, TrimLeft, TrimRight, FourFields;
    var body := TrimRight(TrimLeft(text));
    if UsableIpv4(text) == Some(Dotted(q)) {
      var r := ParseQuad(body).value;
      assert UsableIpv4(text) == Some(Dotted(r));
      DottedParses(q);
      DottedParses(r);
      var before := TrimmedLeft(text);
      var after := TrimmedRight(TrimLeft(text));
      FieldsJoin(body);
      assert text == before + body + after;
      assert WritesQuad(text, before, Split(body, '.'), after, q);
    }
    if before, f, after :| IsUnicast(q) && WritesQuad(text, before, f, after, q) {
      TrimmedFields(before, f, after);
      FieldsSplit(f);
    }
  }
}
