/**
 XML element trees, the text the SoapBuilder writes for them, and a reader for
 documents of that form: start and end tags, double-quoted attributes, character data.
 */
module XmlTree {
  import opened Wrappers
  import opened XmlText

  // A qualified name such as cwmp:Inform; the prefix may be empty.
  datatype QName = QName(prefix: string, local: string)

  datatype Attribute = Attribute(name: QName, value: string)

  datatype Node =
    | Element(name: QName, attributes: seq<Attribute>, children: seq<Node>)
    | Text(content: string)

  // ---------------------------------------------------------------------
  // Printing.

  function Written(q: QName): string {
    if q.prefix == "" then q.local else q.prefix + (":" + q.local)
  }

  function PrintAttributes(attributes: seq<Attribute>): string {
    if attributes == [] then ""
    else " " + (Written(attributes[0].name) + ("=\"" + (Escape(attributes[0].value) + ("\"" + PrintAttributes(attributes[1..])))))
  }

  function Print(node: Node): string
    decreases node, 0
  {
    match node
    case Text(content) => Escape(content)
    case Element(name, attributes, children) =>
      var tag := Written(name);
      "<" + (tag + (PrintAttributes(attributes) + (">" + (PrintAll(children) + ("</" + (tag + ">"))))))
  }

  function PrintAll(nodes: seq<Node>): string
    decreases nodes, 1
  {
    if nodes == [] then "" else Print(nodes[0]) + PrintAll(nodes[1..])
  }

  // ---------------------------------------------------------------------
  // Reading.

  predicate IsNameChar(c: char) {
    'a' <= c <= 'z' || 'A' <= c <= 'Z' || '0' <= c <= '9' || c == '_' || c == '-' || c == '.' || c == ':'
  }

  function QNameOf(text: string): QName {
    var n := LengthBefore(text, ':');
    if n == |text| then QName("", text) else QName(text[..n], text[n + 1..])
  }

  predicate IsName(s: string) {
    s != "" && forall i :: 0 <= i < |s| ==> IsNameChar(s[i])
  }

  function NameLength(s: string): (n: nat)
    ensures n <= |s|
  {
    if s != "" && IsNameChar(s[0]) then 1 + NameLength(s[1..]) else 0
  }

  // Characters before the next occurrence of c.
  function LengthBefore(s: string, c: char): (n: nat)
    ensures n <= |s|
    ensures c !in s[..n]
    ensures n < |s| ==> s[n] == c
  {
    if s == "" || s[0] == c then 0 else 1 + LengthBefore(s[1..], c)
  }

  datatype Read<T> = Read(value: T, rest: string) | Malformed

  // A list of attributes, each after one blank.
  function ReadAttributes(s: string): (r: Read<seq<Attribute>>)
    ensures r.Read? ==> |r.rest| <= |s|
    decreases |s|
  {
    if s == "" || s[0] != ' ' then Read.Read([], s)
    else
      var t := s[1..];
      var n := NameLength(t);
      if n == 0 || !StartsWith(t[n..], "=\"") then Malformed
      else
        var v := t[n..][2..];
        var m := LengthBefore(v, '\"');
        var value := DecodeChars(v[..m], true);
        if m == |v| || value.None? then Malformed
        else
          match ReadAttributes(v[m..][1..])
          case Malformed => Malformed
          case Read(more, rest) => Read.Read([Attribute(QNameOf(t[..n]), value.value)] + more, rest)
  }

  // Content up to an end tag or the end of the input.
  function ReadContent(s: string): (r: Read<seq<Node>>)
    ensures r.Read? ==> |r.rest| <= |s|
    decreases |s|, 1
  {
    if s == "" || StartsWith(s, "</") then Read.Read([], s)
    else if s[0] == '<' then
      match ReadElement(s)
      case Malformed => Malformed
      case Read(node, rest) =>
        match ReadContent(rest)
        case Malformed => Malformed
        case Read(more, end) => Read.Read([node] + more, end)
    else
      var n := LengthBefore(s, '<');
      var content := DecodeChars(s[..n], false);
      if content.None? then Malformed
      else
        match ReadContent(s[n..])
        case Malformed => Malformed
        case Read(more, end) => Read.Read([Text(content.value)] + more, end)
  }

  function ReadElement(s: string): (r: Read<Node>)
    requires s != "" && s[0] == '<'
    ensures r.Read? ==> |r.rest| < |s|
    decreases |s|, 0
  {
    var t := s[1..];
    var n := NameLength(t);
    var tag := t[..n];
    match ReadAttributes(t[n..])
    case Malformed => Malformed
    case Read(attributes, u) =>
      if n == 0 then Malformed
      else if StartsWith(u, "/>") then Read.Read(Element(QNameOf(tag), attributes, []), u[2..])
      else if !StartsWith(u, ">") then Malformed
      else
        match ReadContent(u[1..])
        case Malformed => Malformed
        case Read(children, end) =>
          var close := "</" + (tag + ">");
          if StartsWith(end, close) then Read.Read(Element(QNameOf(tag), attributes, children), end[|close|..]) else Malformed
  }

  // ---------------------------------------------------------------------
  // What printing and reading keep.

  predicate IsQName(q: QName) {
    IsName(q.local) && (q.prefix == "" || IsName(q.prefix)) && ':' !in q.local && ':' !in q.prefix
  }

  lemma WrittenReadsBack(q: QName)
    requires IsQName(q)
    ensures IsName(Written(q)) && QNameOf(Written(q)) == q
  {
    if q.prefix == "" {
      assert q.local + "" == q.local;
      TextIsTaken(q.local, "", ':');
    } else {
      TextIsTaken(q.prefix, ":" + q.local, ':');
      var t := Written(q);
      assert t[..|q.prefix|] == q.prefix && t[|q.prefix| + 1..] == q.local;
    }
  }

  predicate AttributesKept(attributes: seq<Attribute>) {
    forall i :: 0 <= i < |attributes| ==> IsQName(attributes[i].name) && AllReadable(attributes[i].value, true)
  }

  // No empty text, no two neighbouring texts, readable characters, well-formed names.
  predicate Kept(node: Node)
    decreases node, 0
  {
    match node
    case Text(content) => content != "" && AllReadable(content, false)
    case Element(name, attributes, children) => IsQName(name) && AttributesKept(attributes) && AllKept(children)
  }

  predicate AllKept(nodes: seq<Node>)
    decreases nodes, 1
  {
    nodes == [] ||
    (Kept(nodes[0]) && AllKept(nodes[1..]) && (nodes[0].Text? && |nodes| > 1 ==> nodes[1].Element?))
  }

  lemma {:induction false} NameIsTaken(name: string, rest: string)
    requires forall i :: 0 <= i < |name| ==> IsNameChar(name[i])
    requires rest == "" || !IsNameChar(rest[0])
    ensures NameLength(name + rest) == |name|
  {
    if name == "" {
      assert name + rest == rest;
    } else {
      assert (name + rest)[1..] == name[1..] + rest;
      NameIsTaken(name[1..], rest);
    }
  }

  lemma {:induction false} TextIsTaken(text: string, rest: string, c: char)
    requires c !in text && (rest == "" || rest[0] == c)
    ensures LengthBefore(text + rest, c) == |text|
  {
    if text == "" {
      assert text + rest == rest;
    } else {
      assert (text + rest)[1..] == text[1..] + rest;
      TextIsTaken(text[1..], rest, c);
    }
  }

  lemma AttributeThenRest(a: Attribute, more: string, rest: string)
    ensures " " + (Written(a.name) + ("=\"" + (Escape(a.value) + ("\"" + more)))) + rest ==
            " " + (Written(a.name) + ("=\"" + (Escape(a.value) + ("\"" + (more + rest)))))
  {
  }

  lemma ValueReads(value: string, tail: string)
    requires AllReadable(value, true)
    ensures var v := Escape(value) + ("\"" + tail);
            var m := LengthBefore(v, '\"');
            m < |v| && DecodeChars(v[..m], true) == Some(value) && v[m..][1..] == tail
  {
    hide Escape, DecodeChars;
    var v := Escape(value) + ("\"" + tail);
    EscapedHasNoMarkup(value);
    TextIsTaken(Escape(value), "\"" + tail, '\"');
    var m := |Escape(value)|;
    assert v[..m] == Escape(value) && v[m..] == "\"" + tail && v[m..][1..] == tail;
    DecodeUndoesEscape(value, true);
  }

  // One step of ReadAttributes, with its intermediate texts named.
  lemma AttributeStep(s: string, t: string, n: nat, v: string, m: nat, value: string)
    requires s != "" && s[0] == ' ' && t == s[1..] && n == NameLength(t) && n > 0 && StartsWith(t[n..], "=\"")
    requires v == t[n..][2..] && m == LengthBefore(v, '\"') && m < |v| && DecodeChars(v[..m], true) == Some(value)
    ensures ReadAttributes(s) ==
            match ReadAttributes(v[m..][1..])
            case Malformed => Malformed
            case Read(more, rest) => Read.Read([Attribute(QNameOf(t[..n]), value)] + more, rest)
  {
  }

  lemma AttributeReads(a: Attribute, tail: string)
    requires IsQName(a.name) && AllReadable(a.value, true)
    ensures ReadAttributes(" " + (Written(a.name) + ("=\"" + (Escape(a.value) + ("\"" + tail))))) ==
            match ReadAttributes(tail)
            case Malformed => Malformed
            case Read(more, rest) => Read.Read([a] + more, rest)
  {
    hide Escape, DecodeChars, IsNameChar, AllReadable, LengthBefore, NameLength, PrintAttributes, QNameOf, Written,
         ReadAttributes, IsQName;
    var v := Escape(a.value) + ("\"" + tail);
    ValueReads(a.value, tail);
    var w := "=\"" + v;
    WrittenReadsBack(a.name);
    var t := Written(a.name) + w;
    var s := " " + t;
    assert s[0] == ' ' && s[1..] == t;
    EqualsIsNoNameChar();
    NameIsTaken(Written(a.name), w);
    var n := |Written(a.name)|;
    assert t[..n] == Written(a.name) && t[n..] == w;
    assert w[2..] == v && w[..2] == "=\"";
    AttributeStep(s, t, n, v, LengthBefore(v, '\"'), a.value);
  }

  lemma AttributesEnd(rest: string)
    requires rest != "" && rest[0] != ' '
    ensures ReadAttributes(rest) == Read.Read([], rest)
  {
  }

  lemma {:induction false} AttributesReadBack(attributes: seq<Attribute>, rest: string)
    requires AttributesKept(attributes) && rest != "" && rest[0] != ' '
    ensures ReadAttributes(PrintAttributes(attributes) + rest) == Read.Read(attributes, rest)
  {
    hide Escape, DecodeChars, IsNameChar, ReadAttributes, Written, IsQName, AllReadable;
    if attributes == [] {
      assert PrintAttributes(attributes) + rest == rest;
      AttributesEnd(rest);
    } else {
      var a, more := attributes[0], attributes[1..];
      AttributesReadBack(more, rest);
      AttributeThenRest(a, PrintAttributes(more), rest);
      AttributeReads(a, PrintAttributes(more) + rest);
      assert [a] + more == attributes;
    }
  }

  lemma EqualsIsNoNameChar()
    ensures !IsNameChar('=')
  {
  }

  // Content ends at an end tag or at the end of the input.
  predicate EndsContent(rest: string) {
    rest == "" || StartsWith(rest, "</")
  }

  lemma ContentEnds(rest: string)
    requires EndsContent(rest)
    ensures ReadContent(rest) == Read.Read([], rest)
  {
  }

  /** Every tree with readable texts is read back from its printed form, whatever follows it. */
  lemma {:induction false} ContentReadsBack(nodes: seq<Node>, rest: string)
    requires AllKept(nodes) && EndsContent(rest)
    ensures ReadContent(PrintAll(nodes) + rest) == Read.Read(nodes, rest)
    decreases nodes, 1
  {
    hide ReadContent, ReadElement, Escape, Written, EndsContent, PrintAttributes;
    if nodes == [] {
      assert PrintAll(nodes) + rest == rest;
      ContentEnds(rest);
    } else {
      var tail := PrintAll(nodes[1..]) + rest;
      assert PrintAll(nodes) + rest == Print(nodes[0]) + tail;
      ContentReadsBack(nodes[1..], rest);
      assert [nodes[0]] + nodes[1..] == nodes;
      match nodes[0] {
        case Text(content) =>
          TextThenContent(content, nodes[1..], rest);
        case Element(name, attributes, children) =>
          ElementReadsBack(nodes[0], tail);
          ElementThenContent(nodes[0], nodes[1..], rest);
      }
    }
  }

  lemma TextThenContent(content: string, nodes: seq<Node>, rest: string)
    requires content != "" && AllReadable(content, false)
    requires EndsContent(rest) && (nodes == [] || nodes[0].Element?)
    requires ReadContent(PrintAll(nodes) + rest) == Read.Read(nodes, rest)
    ensures ReadContent(Escape(content) + (PrintAll(nodes) + rest)) == Read.Read([Text(content)] + nodes, rest)
  {
    hide Escape, DecodeChars;
    var tail := PrintAll(nodes) + rest;
    assert tail == "" || tail[0] == '<' by { TailStartsWithMarkup(nodes, rest); }
    var s := Escape(content) + tail;
    EscapedHasNoMarkup(content);
    EscapeIsEmpty(content);
    TextIsTaken(Escape(content), tail, '<');
    var n := |Escape(content)|;
    assert s[..n] == Escape(content) && s[n..] == tail;
    DecodeUndoesEscape(content, false);
    assert s[0] == Escape(content)[0] && s[0] != '<';
    assert !StartsWith(s, "</") by { NoEndTag(s); }
  }

  lemma PrefixCharacter(s: string, p: string, i: nat)
    requires i < |p|
    ensures StartsWith(s, p) ==> i < |s| && s[i] == p[i]
  {
  }

  lemma NoEndTag(s: string)
    requires s != "" && s[0] != '<'
    ensures !StartsWith(s, "</")
  {
  }

  lemma TailStartsWithMarkup(nodes: seq<Node>, rest: string)
    requires EndsContent(rest) && (nodes == [] || nodes[0].Element?)
    ensures var tail := PrintAll(nodes) + rest; tail == "" || tail[0] == '<'
  {
  }

  lemma ElementThenContent(node: Node, nodes: seq<Node>, rest: string)
    requires node.Element? && IsQName(node.name)
    requires var s := Print(node) + (PrintAll(nodes) + rest);
             s != "" && s[0] == '<' && ReadElement(s) == Read.Read(node, PrintAll(nodes) + rest)
    requires ReadContent(PrintAll(nodes) + rest) == Read.Read(nodes, rest)
    ensures ReadContent(Print(node) + (PrintAll(nodes) + rest)) == Read.Read([node] + nodes, rest)
  {
    hide ReadElement, PrintAll, Written;
    WrittenReadsBack(node.name);
    var s := Print(node) + (PrintAll(nodes) + rest);
    assert !StartsWith(s, "</") by { StartTagIsNoEndTag(node, PrintAll(nodes) + rest); }
  }

  lemma StartTagIsNoEndTag(node: Node, rest: string)
    requires node.Element? && IsQName(node.name)
    ensures !StartsWith(Print(node) + rest, "</")
  {
    hide PrintAll, PrintAttributes, Written, QNameOf;
    WrittenReadsBack(node.name);
    var s, tag := Print(node) + rest, Written(node.name);
    assert s[1] == tag[0] && IsNameChar(tag[0]);
    PrefixCharacter(s, "</", 1);
  }

  lemma {:induction false} ElementReadsBack(node: Node, rest: string)
    requires node.Element? && Kept(node)
    ensures var s := Print(node) + rest;
            s != "" && s[0] == '<' && ReadElement(s) == Read.Read(node, rest)
    decreases node, 2
  {
    hide PrintAttributes, ReadElement, ReadContent, PrintAll, Written, EndsContent;
    var children := node.children;
    assert RendersAll(PrintAll(children), children) by {
      forall after | EndsContent(after)
        ensures ReadContent(PrintAll(children) + after) == Read.Read(children, after)
      {
        ContentReadsBack(children, after);
      }
    }
    AroundRenders(node.name, node.attributes, PrintAll(children), children);
  }

  lemma TagEnds(u: string)
    requires u != "" && u[0] == '>'
    ensures !StartsWith(u, "/>") && StartsWith(u, ">")
  {
  }

  lemma NameEndsAtTag(name: string, attributes: seq<Attribute>, u: string)
    requires IsName(name) && u != "" && u[0] == '>'
    ensures NameLength(name + (PrintAttributes(attributes) + u)) == |name|
  {
    var rest := PrintAttributes(attributes) + u;
    if attributes == [] {
      assert rest == u;
    } else {
      assert rest[0] == ' ';
    }
    NameIsTaken(name, rest);
  }

  // ---------------------------------------------------------------------
  // Texts that read as a tree, printed by `Print` or not.

  ghost predicate Renders(x: string, node: Node) {
    forall rest :: x + rest != "" && (x + rest)[0] == '<' && !StartsWith(x + rest, "</") &&
                   ReadElement(x + rest) == Read.Read(node, rest)
  }

  ghost predicate RendersAll(x: string, nodes: seq<Node>) {
    forall rest :: EndsContent(rest) ==> ReadContent(x + rest) == Read.Read(nodes, rest)
  }

  lemma PrintRenders(node: Node)
    requires node.Element? && Kept(node)
    ensures Renders(Print(node), node)
  {
    hide Print, ReadElement, StartsWith;
    forall rest
      ensures Print(node) + rest != "" && (Print(node) + rest)[0] == '<' && !StartsWith(Print(node) + rest, "</")
      ensures ReadElement(Print(node) + rest) == Read.Read(node, rest)
    {
      ElementReadsBack(node, rest);
      StartTagIsNoEndTag(node, rest);
    }
  }

  /** An element without content, closed in its start tag, reads as one with an end tag. */
  lemma SelfClosedRenders(q: QName)
    requires IsQName(q)
    ensures Renders("<" + (Written(q) + "/>"), Element(q, [], []))
  {
    hide Written, QNameOf;
    WrittenReadsBack(q);
    var x, tag := "<" + (Written(q) + "/>"), Written(q);
    forall rest
      ensures x + rest != "" && (x + rest)[0] == '<' && !StartsWith(x + rest, "</")
      ensures ReadElement(x + rest) == Read.Read(Element(q, [], []), rest)
    {
      var s, u := x + rest, "/>" + rest;
      assert s == "<" + (tag + u) && s[1..] == tag + u;
      SlashIsNoNameChar();
      NameIsTaken(tag, u);
      assert (tag + u)[..|tag|] == tag && (tag + u)[|tag|..] == u;
      assert u[0] != ' ' && u[..2] == "/>" && u[2..] == rest;
      AttributesEnd(u);
      assert s[1] == tag[0] && IsNameChar(tag[0]);
      PrefixCharacter(s, "</", 1);
    }
  }

  lemma SlashIsNoNameChar()
    ensures !IsNameChar('/')
  {
  }

  lemma NothingRenders()
    ensures RendersAll("", [])
  {
    hide ReadContent;
    forall rest | EndsContent(rest) ensures ReadContent("" + rest) == Read.Read([], rest) {
      assert "" + rest == rest;
      ContentEnds(rest);
    }
  }

  lemma OneMoreRenders(x: string, node: Node, y: string, nodes: seq<Node>)
    requires Renders(x, node) && RendersAll(y, nodes)
    ensures RendersAll(x + y, [node] + nodes)
  {
    hide ReadElement, EndsContent, StartsWith;
    forall rest | EndsContent(rest) ensures ReadContent(x + y + rest) == Read.Read([node] + nodes, rest) {
      assert x + y + rest == x + (y + rest);
    }
  }

  // An element around contents that read as its children.
  lemma AroundRenders(q: QName, attributes: seq<Attribute>, x: string, nodes: seq<Node>)
    requires IsQName(q) && AttributesKept(attributes) && RendersAll(x, nodes)
    ensures Renders("<" + (Written(q) + (PrintAttributes(attributes) + (">" + (x + ("</" + (Written(q) + ">")))))),
                    Element(q, attributes, nodes))
  {
    hide PrintAttributes, ReadAttributes, ReadContent, Written, QNameOf;
    var tag := Written(q);
    WrittenReadsBack(q);
    var close := "</" + (tag + ">");
    var printed := "<" + (tag + (PrintAttributes(attributes) + (">" + (x + close))));
    forall rest
      ensures printed + rest != "" && (printed + rest)[0] == '<' && !StartsWith(printed + rest, "</")
      ensures ReadElement(printed + rest) == Read.Read(Element(q, attributes, nodes), rest)
    {
      var after := close + rest;
      assert EndsContent(after) by { assert after[..2] == "</"; }
      var u := ">" + (x + after);
      var t := tag + (PrintAttributes(attributes) + u);
      var s := printed + rest;
      assert s == "<" + t;
      assert s[0] == '<' && s[1..] == t;
      AttributesReadBack(attributes, u);
      NameEndsAtTag(tag, attributes, u);
      assert t[..|tag|] == tag && t[|tag|..] == PrintAttributes(attributes) + u;
      assert u[0] == '>' && u[1..] == x + after;
      TagEnds(u);
      assert after[..|close|] == close && after[|close|..] == rest;
      assert s[1] == tag[0] && IsNameChar(tag[0]);
      PrefixCharacter(s, "</", 1);
    }
  }
}
