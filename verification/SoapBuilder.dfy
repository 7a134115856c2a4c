/**
 The documents of src/SoapBuilder.cpp: their text, the trees they print, and the
 proof that reading gives back what was written.
 */
module SoapBuilder {
  import opened Wrappers
  import opened Text
  import opened XmlText
  import opened XmlTree
  import opened SoapParser

  const PROLOGUE := "<?xml version=\"1.0\" encoding=\"UTF-8\"?>"

  function Plain(name: string): QName {
    QName("", name)
  }

  function Cwmp(name: string): QName {
    QName("cwmp", name)
  }

  function Soap(name: string): QName {
    QName("soap-env", name)
  }

  // ---------------------------------------------------------------------
  // Pieces of text.

  function Open(q: QName): string {
    "<" + Written(q) + ">"
  }

  function OpenWith(q: QName, attribute: QName, value: string): string {
    "<" + Written(q) + " " + Written(attribute) + "=\"" + value + "\">"
  }

  function Close(q: QName): string {
    "</" + Written(q) + ">"
  }

  function TextNodes(s: string): seq<Node> {
    if s == "" then [] else [Node.Text(s)]
  }

  function Leaf(q: QName, text: string): Node {
    Element(q, [], TextNodes(text))
  }

  lemma PrintTextNodes(s: string)
    ensures PrintAll(TextNodes(s)) == Escape(s)
  {
  }

  lemma PrintWrapped(q: QName, children: seq<Node>)
    ensures Print(Element(q, [], children)) == Open(q) + PrintAll(children) + Close(q)
  {
  }

  lemma PrintWrappedWith(q: QName, a: Attribute, children: seq<Node>)
    ensures Print(Element(q, [a], children)) == OpenWith(q, a.name, Escape(a.value)) + PrintAll(children) + Close(q)
  {
    hide PrintAll, Written, Escape;
    assert PrintAttributes([a]) == " " + (Written(a.name) + ("=\"" + (Escape(a.value) + ("\"" + ""))));
  }

  lemma PrintPair(a: Node, b: Node)
    ensures PrintAll([a, b]) == Print(a) + Print(b)
  {
    hide Print;
    assert [a, b][1..] == [b];
    assert PrintAll([b]) == Print(b) + "";
  }

  lemma PrintOne(a: Node)
    ensures PrintAll([a]) == Print(a)
  {
  }

  lemma {:induction false} PrintAllOfAppend(a: seq<Node>, b: seq<Node>)
    ensures PrintAll(a + b) == PrintAll(a) + PrintAll(b)
  {
    hide Print;
    if a == [] {
      assert a + b == b;
    } else {
      assert (a + b)[1..] == a[1..] + b;
      PrintAllOfAppend(a[1..], b);
    }
  }

  // ---------------------------------------------------------------------
  // The parameter list.

  function StructNode(v: ParameterValue): Node {
    Element(Plain("ParameterValueStruct"), [], [
      Leaf(Plain("Name"), v.name),
      Element(Plain("Value"), [Attribute(QName("xsi", "type"), v.typeName)], TextNodes(v.value))])
  }

  function StructNodes(values: seq<ParameterValue>): (nodes: seq<Node>)
    ensures |nodes| == |values| && forall i :: 0 <= i < |values| ==> nodes[i] == StructNode(values[i])
  {
    if values == [] then [] else [StructNode(values[0])] + StructNodes(values[1..])
  }

  function ArrayType(kind: string, n: nat): string {
    "cwmp:" + kind + "[" + Decimal(n) + "]"
  }

  function ListNode(values: seq<ParameterValue>): Node {
    Element(Plain("ParameterList"),
            [Attribute(QName("soap-enc", "arrayType"), ArrayType("ParameterValueStruct", |values|))],
            StructNodes(values))
  }

  // src/SoapBuilder.cpp:91-94, one pass of the loop.
  function StructText(v: ParameterValue): string {
    Open(Plain("ParameterValueStruct")) + Open(Plain("Name")) + Escape(v.name) + Close(Plain("Name")) +
    OpenWith(Plain("Value"), QName("xsi", "type"), Escape(v.typeName)) + Escape(v.value) + Close(Plain("Value")) +
    Close(Plain("ParameterValueStruct"))
  }

  lemma StructTextIsPrinted(v: ParameterValue)
    ensures StructText(v) == Print(StructNode(v))
  {
    hide Print, PrintAll, Open, OpenWith, Close, Escape;
    var name := Leaf(Plain("Name"), v.name);
    var value := Element(Plain("Value"), [Attribute(QName("xsi", "type"), v.typeName)], TextNodes(v.value));
    PrintTextNodes(v.name);
    PrintTextNodes(v.value);
    PrintWrapped(Plain("Name"), TextNodes(v.name));
    PrintWrappedWith(Plain("Value"), Attribute(QName("xsi", "type"), v.typeName), TextNodes(v.value));
    PrintPair(name, value);
    PrintWrapped(Plain("ParameterValueStruct"), [name, value]);
    var o, c := Open(Plain("ParameterValueStruct")), Close(Plain("ParameterValueStruct"));
    var n1, n2, n3 := Open(Plain("Name")), Escape(v.name), Close(Plain("Name"));
    var v1, v2, v3 := OpenWith(Plain("Value"), QName("xsi", "type"), Escape(v.typeName)), Escape(v.value), Close(Plain("Value"));
    assert o + n1 + n2 + n3 + v1 + v2 + v3 + c == o + ((n1 + n2 + n3) + (v1 + v2 + v3)) + c;
  }

  method BuildStructs(values: seq<ParameterValue>) returns (body: string)
    ensures body == PrintAll(StructNodes(values))
  {
    hide Print, StructText, StructNode;
    body := "";
    for i := 0 to |values|
      invariant body == PrintAll(StructNodes(values[..i]))
    {
      assert StructNodes(values[..i + 1]) == StructNodes(values[..i]) + [StructNode(values[i])];
      PrintAllOfAppend(StructNodes(values[..i]), [StructNode(values[i])]);
      PrintOne(StructNode(values[i]));
      StructTextIsPrinted(values[i]);
      body := body + StructText(values[i]);
    }
    assert values[..|values|] == values;
  }

  predicate IsReadableValue(v: ParameterValue) {
    AllReadable(v.name, false) && AllReadable(v.value, false) && AllReadable(v.typeName, true)
  }

  predicate AllReadableValues(values: seq<ParameterValue>) {
    forall i :: 0 <= i < |values| ==> IsReadableValue(values[i])
  }

  lemma TextNodesContent(s: string)
    ensures ContentOfAll(TextNodes(s)) == s
  {
  }

  lemma StructReadsBack(v: ParameterValue)
    ensures ReadStruct(StructNode(v)) == v
  {
    var name := Leaf(Plain("Name"), v.name);
    var value := Element(Plain("Value"), [Attribute(QName("xsi", "type"), v.typeName)], TextNodes(v.value));
    TextNodesContent(v.name);
    TextNodesContent(v.value);
    assert IsNamed(name, "Name") && IsNamed(value, "Value");
    assert !IsNamed(name, "Value") by { assert "Name"[0] != "Value"[0]; }
    assert [name, value][1..] == [value];
    assert FirstChild([name, value], "Name") == Some(name);
    assert FirstChild([name, value], "Value") == Some(value);
  }

  lemma {:induction false} StructsReadBack(values: seq<ParameterValue>)
    ensures ReadStructs(StructNodes(values)) == values
  {
    hide ReadStruct, StructNode;
    if values != [] {
      StructsReadBack(values[1..]);
      StructReadsBack(values[0]);
      assert IsNamed(StructNode(values[0]), "ParameterValueStruct") by { StructIsNamed(values[0]); }
      assert StructNodes(values)[1..] == StructNodes(values[1..]);
      assert [values[0]] + values[1..] == values;
    }
  }

  lemma StructIsNamed(v: ParameterValue)
    ensures IsNamed(StructNode(v), "ParameterValueStruct")
  {
  }

  // ---------------------------------------------------------------------
  // Envelopes.

  function Namespaces(): seq<Attribute> {
    [Attribute(QName("xmlns", "soap-env"), "http://schemas" + (".xmlsoap.org/soap/" + "envelope/")),
     Attribute(QName("xmlns", "soap-enc"), "http://schemas" + (".xmlsoap.org/soap/" + "encoding/")),
     Attribute(QName("xmlns", "xsd"), "http://www.w3" + (".org/2001/" + "XMLSchema")),
     Attribute(QName("xmlns", "xsi"), "http://www.w3" + (".org/2001/" + "XMLSchema-instance")),
     Attribute(QName("xmlns", "cwmp"), "urn:dslforum-" + "org:cwmp-1-2")]
  }

  /** The five namespaces, in full. */
  lemma NamespacesInFull()
    ensures |Namespaces()| == 5
    ensures Namespaces()[0] == Attribute(QName("xmlns", "soap-env"), "http://schemas.xmlsoap.org/soap/envelope/")
    ensures Namespaces()[1] == Attribute(QName("xmlns", "soap-enc"), "http://schemas.xmlsoap.org/soap/encoding/")
    ensures Namespaces()[2] == Attribute(QName("xmlns", "xsd"), "http://www.w3.org/2001/XMLSchema")
    ensures Namespaces()[3] == Attribute(QName("xmlns", "xsi"), "http://www.w3.org/2001/XMLSchema-instance")
    ensures Namespaces()[4] == Attribute(QName("xmlns", "cwmp"), "urn:dslforum-org:cwmp-1-2")
  {
    EnvelopeUrl();
    EncodingUrl();
    SchemaUrls();
    CwmpUrn();
  }

  lemma EnvelopeUrl()
    ensures "http://schemas" + (".xmlsoap.org/soap/" + "envelope/") == "http://schemas.xmlsoap.org/soap/envelope/"
  {
  }

  lemma EncodingUrl()
    ensures "http://schemas" + (".xmlsoap.org/soap/" + "encoding/") == "http://schemas.xmlsoap.org/soap/encoding/"
  {
  }

  lemma SchemaUrls()
    ensures "http://www.w3" + (".org/2001/" + "XMLSchema") == "http://www.w3.org/2001/XMLSchema"
    ensures "http://www.w3" + (".org/2001/" + "XMLSchema-instance") == "http://www.w3.org/2001/XMLSchema-instance"
  {
  }

  lemma CwmpUrn()
    ensures "urn:dslforum-" + "org:cwmp-1-2" == "urn:dslforum-org:cwmp-1-2"
  {
  }

  const MUST_UNDERSTAND := Attribute(QName("soap-env", "mustUnderstand"), "1")

  function Header(id: string): Node {
    Element(Soap("Header"), [], [Element(Cwmp("ID"), [MUST_UNDERSTAND], TextNodes(id))])
  }

  function Body(content: Node): Node {
    Element(Soap("Body"), [], [content])
  }

  function Envelope(id: string, content: Node): Node {
    Element(Soap("Envelope"), Namespaces(), [Header(id), Body(content)])
  }

  // src/SoapBuilder.cpp:38-48
  function EnvelopeText(id: string, body: string): string {
    PROLOGUE + OpenEnvelope() +
    Open(Soap("Header")) + OpenWith(Cwmp("ID"), MUST_UNDERSTAND.name, "1") + Escape(id) + Close(Cwmp("ID")) +
    Close(Soap("Header")) + Open(Soap("Body")) + body + Close(Soap("Body")) + Close(Soap("Envelope"))
  }

  lemma HeaderText(id: string)
    ensures Print(Header(id)) ==
            Open(Soap("Header")) + (OpenWith(Cwmp("ID"), MUST_UNDERSTAND.name, "1") + Escape(id) + Close(Cwmp("ID"))) +
            Close(Soap("Header"))
  {
    hide Print, PrintAll, Open, OpenWith, Close;
    var node := Element(Cwmp("ID"), [MUST_UNDERSTAND], TextNodes(id));
    PrintTextNodes(id);
    assert Escape("1") == "1" by { assert Escape("1") == EscapeChar('1') + ""; }
    PrintWrappedWith(Cwmp("ID"), MUST_UNDERSTAND, TextNodes(id));
    PrintOne(node);
    PrintWrapped(Soap("Header"), [node]);
  }

  lemma BodyText(content: Node)
    ensures Print(Body(content)) == Open(Soap("Body")) + Print(content) + Close(Soap("Body"))
  {
    hide Print, PrintAll, Open, Close;
    PrintOne(content);
    PrintWrapped(Soap("Body"), [content]);
  }

  function OpenEnvelope(): string {
    "<" + Written(Soap("Envelope")) + PrintAttributes(Namespaces()) + ">"
  }

  lemma EnvelopeForm(id: string, content: Node)
    ensures Print(Envelope(id, content)) ==
            OpenEnvelope() + (Print(Header(id)) + Print(Body(content))) + Close(Soap("Envelope"))
  {
    hide Print, PrintAttributes, Namespaces, Header, Body, Written;
    PrintPair(Header(id), Body(content));
    PrintElement(Soap("Envelope"), Namespaces(), [Header(id), Body(content)]);
    var tag, a, parts := Written(Soap("Envelope")), PrintAttributes(Namespaces()), Print(Header(id)) + Print(Body(content));
    assert "<" + (tag + (a + (">" + (parts + ("</" + (tag + ">")))))) == ("<" + tag + a + ">") + parts + ("</" + tag + ">");
  }

  /** The envelope's text is the printed envelope tree around its body. */
  lemma EnvelopeIsPrinted(id: string, content: Node)
    ensures EnvelopeText(id, Print(content)) == PROLOGUE + Print(Envelope(id, content))
  {
    hide Print, Open, OpenWith, Escape, Header, Body, Close, OpenEnvelope;
    EnvelopeForm(id, content);
    HeaderText(id);
    BodyText(content);
    Reassociate(PROLOGUE, OpenEnvelope(), Open(Soap("Header")), OpenWith(Cwmp("ID"), MUST_UNDERSTAND.name, "1"),
                Escape(id), Close(Cwmp("ID")), Close(Soap("Header")), Open(Soap("Body")), Print(content),
                Close(Soap("Body")), Close(Soap("Envelope")));
  }

  lemma PrintElement(q: QName, attributes: seq<Attribute>, children: seq<Node>)
    ensures Print(Element(q, attributes, children)) ==
            "<" + (Written(q) + (PrintAttributes(attributes) + (">" + (PrintAll(children) + ("</" + (Written(q) + ">"))))))
  {
  }

  lemma Reassociate(p: string, o: string, h1: string, h2: string, h3: string, h4: string, h5: string,
                    b1: string, b2: string, b3: string, c: string)
    ensures p + o + h1 + h2 + h3 + h4 + h5 + b1 + b2 + b3 + c ==
            p + (o + ((h1 + (h2 + h3 + h4) + h5) + (b1 + b2 + b3)) + c)
  {
  }

  // ---------------------------------------------------------------------
  // Reading documents.

  function ReadDocument(text: string): Option<Node> {
    if !StartsWith(text, PROLOGUE) then None
    else
      var t := text[|PROLOGUE|..];
      if t == "" || t[0] != '<' then None
      else
        match ReadElement(t)
        case Malformed => None
        case Read(node, rest) => if rest == "" then Some(node) else None
  }

  // A name without a colon.
  predicate IsPart(s: string) {
    IsName(s) && ':' !in s
  }

  lemma PartsMakeNames(prefix: string, local: string)
    requires IsPart(local) && (prefix == "" || IsPart(prefix))
    ensures IsQName(QName(prefix, local))
  {
  }

  lemma ListParts()
    ensures IsPart("Name") && IsPart("Value") && IsPart("xsi") && IsPart("type")
  {
  }

  lemma StructPart()
    ensures IsPart("ParameterValueStruct")
  {
  }

  lemma ParameterParts()
    ensures IsPart("ParameterList") && IsPart("ParameterKey") && IsPart("soap-enc") && IsPart("arrayType")
  {
  }

  lemma EnvelopeParts()
    ensures IsPart("soap-env") && IsPart("Envelope") && IsPart("Header") && IsPart("Body") && IsPart("ID")
  {
  }

  lemma OtherParts()
    ensures IsPart("cwmp") && IsPart("mustUnderstand") && IsPart("xmlns") && IsPart("xsd")
  {
  }

  lemma MethodPart()
    ensures IsPart("SetParameterValues")
  {
  }

  lemma ReadableText(a: string, b: string)
    requires AllReadable(a, true) && AllReadable(b, true)
    ensures AllReadable(a + b, true)
  {
  }

  lemma SoapUrlPieces()
    ensures AllReadable("http://schemas", true) && AllReadable(".xmlsoap.org/soap/", true)
    ensures AllReadable("envelope/", true) && AllReadable("encoding/", true)
  {
  }

  lemma SchemaUrlPieces()
    ensures AllReadable("http://www.w3", true) && AllReadable(".org/2001/", true)
    ensures AllReadable("XMLSchema", true) && AllReadable("XMLSchema-instance", true)
  {
  }

  lemma CwmpUrnPieces()
    ensures AllReadable("urn:dslforum-", true) && AllReadable("org:cwmp-1-2", true) && AllReadable("1", true)
  {
  }

  lemma NamespacesAreKept()
    ensures AttributesKept(Namespaces())
  {
    hide IsQName, AllReadable, IsPart;
    OtherParts();
    EnvelopeParts();
    ParameterParts();
    ListParts();
    PartsMakeNames("xmlns", "soap-env");
    PartsMakeNames("xmlns", "soap-enc");
    PartsMakeNames("xmlns", "xsd");
    PartsMakeNames("xmlns", "xsi");
    PartsMakeNames("xmlns", "cwmp");
    SoapUrlPieces();
    SchemaUrlPieces();
    CwmpUrnPieces();
    ReadableText(".xmlsoap.org/soap/", "envelope/");
    ReadableText("http://schemas", ".xmlsoap.org/soap/" + "envelope/");
    ReadableText(".xmlsoap.org/soap/", "encoding/");
    ReadableText("http://schemas", ".xmlsoap.org/soap/" + "encoding/");
    ReadableText(".org/2001/", "XMLSchema");
    ReadableText("http://www.w3", ".org/2001/" + "XMLSchema");
    ReadableText(".org/2001/", "XMLSchema-instance");
    ReadableText("http://www.w3", ".org/2001/" + "XMLSchema-instance");
    ReadableText("urn:dslforum-", "org:cwmp-1-2");
  }

  // Characters that are neither escaped nor changed by reading.
  predicate IsInert(s: string) {
    forall i :: 0 <= i < |s| ==>
      'a' <= s[i] <= 'z' || 'A' <= s[i] <= 'Z' || '0' <= s[i] <= '9' || s[i] in ":[]- "
  }

  lemma {:induction false} InertIsUnchanged(s: string)
    requires IsInert(s)
    ensures Escape(s) == s && AllReadable(s, true)
  {
    hide EscapeChar, IsReadable;
    if s != "" {
      InertIsUnchanged(s[1..]);
      InertCharacter(s[0]);
      assert [s[0]] + s[1..] == s;
      forall i | 0 <= i < |s| ensures IsReadable(s[i], true) {
        if i > 0 {
          assert s[1..][i - 1] == s[i];
        }
      }
    }
  }

  lemma InertCharacter(c: char)
    requires IsInert([c])
    ensures EscapeChar(c) == [c] && IsReadable(c, true)
  {
    assert [c][0] == c;
  }

  lemma ArrayTypeIsInert(n: nat)
    ensures IsInert(ArrayType("ParameterValueStruct", n))
  {
  }

  // src/SoapBuilder.cpp:86-97: the list around the structs.
  function ListText(n: nat, structs: string): string {
    OpenWith(Plain("ParameterList"), QName("soap-enc", "arrayType"), ArrayType("ParameterValueStruct", n)) +
    structs + Close(Plain("ParameterList"))
  }

  lemma ListTextIsPrinted(values: seq<ParameterValue>)
    ensures ListText(|values|, PrintAll(StructNodes(values))) == Print(ListNode(values))
  {
    hide Print, PrintAll, OpenWith, Close, ArrayType;
    var a := Attribute(QName("soap-enc", "arrayType"), ArrayType("ParameterValueStruct", |values|));
    ArrayTypeIsInert(|values|);
    InertIsUnchanged(a.value);
    PrintWrappedWith(Plain("ParameterList"), a, StructNodes(values));
  }

  function ResponseNode(values: seq<ParameterValue>): Node {
    Element(Cwmp("GetParameterValuesResponse"), [], [ListNode(values)])
  }

  function SetNode(values: seq<ParameterValue>, key: string): Node {
    Element(Cwmp("SetParameterValues"), [], [ListNode(values), Leaf(Plain("ParameterKey"), key)])
  }

  /** The response writer prints the response tree. */
  method GetParameterValuesResponse(id: string, values: seq<ParameterValue>) returns (xml: string)
    ensures xml == PROLOGUE + Print(Envelope(id, ResponseNode(values)))
  {
    hide Print, PrintAll, EnvelopeText, ListText, Envelope;
    var structs := BuildStructs(values);
    var q := Cwmp("GetParameterValuesResponse");
    ListTextIsPrinted(values);
    PrintOne(ListNode(values));
    PrintWrapped(q, [ListNode(values)]);
    xml := EnvelopeText(id, Open(q) + ListText(|values|, structs) + Close(q));
    EnvelopeIsPrinted(id, ResponseNode(values));
  }

  lemma KeptText(q: QName, text: string)
    requires IsQName(q) && AllReadable(text, false)
    ensures Kept(Leaf(q, text))
  {
  }

  lemma KeptTextNodes(text: string)
    requires AllReadable(text, false)
    ensures AllKept(TextNodes(text))
  {
    hide AllReadable;
    if text != "" {
      assert Kept(Node.Text(text)) && AllKept([]);
      assert [Node.Text(text)][1..] == [];
    }
  }

  lemma KeptPair(a: Node, b: Node)
    requires Kept(a) && Kept(b) && a.Element?
    ensures AllKept([a, b])
  {
  }

  lemma KeptOne(a: Node)
    requires Kept(a)
    ensures AllKept([a])
  {
  }

  lemma KeptStruct(v: ParameterValue)
    requires IsReadableValue(v)
    ensures Kept(StructNode(v))
  {
    hide IsQName, AllReadable, IsPart;
    var name := Leaf(Plain("Name"), v.name);
    var value := Element(Plain("Value"), [Attribute(QName("xsi", "type"), v.typeName)], TextNodes(v.value));
    ListParts();
    StructPart();
    PartsMakeNames("", "Name");
    PartsMakeNames("", "Value");
    PartsMakeNames("", "ParameterValueStruct");
    PartsMakeNames("xsi", "type");
    KeptText(Plain("Name"), v.name);
    KeptTextNodes(v.value);
    assert Kept(value);
    KeptPair(name, value);
  }

  lemma {:induction false} KeptStructs(values: seq<ParameterValue>)
    requires AllReadableValues(values)
    ensures AllKept(StructNodes(values))
  {
    hide Kept, StructNode;
    if values != [] {
      KeptStructs(values[1..]);
      assert IsReadableValue(values[0]);
      KeptStruct(values[0]);
      assert StructNodes(values)[1..] == StructNodes(values[1..]);
      StructIsNamed(values[0]);
      assert |values| > 1 ==> StructNodes(values)[1] == StructNode(values[1]);
      if |values| > 1 {
        StructIsNamed(values[1]);
      }
    }
  }

  lemma KeptList(values: seq<ParameterValue>)
    requires AllReadableValues(values)
    ensures Kept(ListNode(values))
  {
    hide IsQName, AllReadable, IsPart, ArrayType, AllReadableValues, StructNodes;
    ParameterParts();
    PartsMakeNames("", "ParameterList");
    PartsMakeNames("soap-enc", "arrayType");
    ArrayTypeIsInert(|values|);
    InertIsUnchanged(ArrayType("ParameterValueStruct", |values|));
    KeptStructs(values);
  }

  lemma KeptEnvelope(id: string, content: Node)
    requires AllReadable(id, false) && Kept(content) && content.Element?
    ensures Kept(Envelope(id, content))
  {
    hide IsQName, AllReadable, IsPart, Namespaces;
    EnvelopeParts();
    OtherParts();
    CwmpUrnPieces();
    PartsMakeNames("soap-env", "Envelope");
    PartsMakeNames("soap-env", "Header");
    PartsMakeNames("soap-env", "Body");
    PartsMakeNames("soap-env", "mustUnderstand");
    PartsMakeNames("cwmp", "ID");
    KeptTextNodes(id);
    var idNode := Element(Cwmp("ID"), [MUST_UNDERSTAND], TextNodes(id));
    assert Kept(idNode);
    KeptOne(idNode);
    KeptOne(content);
    KeptPair(Header(id), Body(content));
    NamespacesAreKept();
  }

  lemma DocumentReadsBack(root: Node)
    requires root.Element? && Kept(root)
    ensures ReadDocument(PROLOGUE + Print(root)) == Some(root)
  {
    hide Print, ReadElement, Kept;
    var t := PROLOGUE + Print(root);
    assert t[..|PROLOGUE|] == PROLOGUE && t[|PROLOGUE|..] == Print(root);
    assert Print(root) + "" == Print(root);
    ElementReadsBack(root, "");
  }

  lemma EnvelopeIsSearched(id: string, content: Node)
    ensures FindDescendant([Envelope(id, content)], "Body") == Some([Body(content)])
    ensures FindDescendant([Envelope(id, content)], "Header") == Some([Header(id), Body(content)])
    ensures FindDescendant([Header(id), Body(content)], "ID") == Some(Header(id).children)
    ensures |Header(id).children| == 1 && ContentOf(Header(id).children[0]) == id
  {
    var root, parts, ids := Envelope(id, content), [Header(id), Body(content)], Header(id).children;
    TextNodesContent(id);
    assert ids[1..] == [] && parts[1..] == [Body(content)];
    assert FindDescendant(TextNodes(id), "Body").None?;
    assert FindDescendant(ids, "Body").None?;
    assert FindDescendant(parts, "Body") == FindDescendant(parts[1..], "Body");
  }

  lemma EnvelopeParses(id: string, content: Node, ulongMax: nat)
    requires content.Element?
    ensures var parsed := ParseTree(Envelope(id, content), ulongMax);
            parsed.Parsed? && parsed.rpc.cwmpId == id && parsed.rpc.method_ == content.name.local
  {
    hide Envelope, Header, FindDescendant, Child, ReadDownload;
    EnvelopeIsSearched(id, content);
    assert FirstElement([content]) == Some(content);
  }

  /** A GetParameterValuesResponse reads back with its id and with the same values, types and order. */
  lemma ResponseReadsBack(id: string, values: seq<ParameterValue>, ulongMax: nat)
    requires AllReadable(id, false) && AllReadableValues(values)
    ensures var root := Envelope(id, ResponseNode(values));
            var parsed := ParseTree(root, ulongMax);
            && ReadDocument(PROLOGUE + Print(root)) == Some(root)
            && parsed.Parsed? && parsed.rpc.cwmpId == id && parsed.rpc.method_ == "GetParameterValuesResponse"
            && ReadStructs(ChildrenOfOption(Child(Some(ResponseNode(values)), "ParameterList"))) == values
  {
    hide Print, Envelope, ReadDocument, ParseTree, StructNodes, Kept, IsQName, IsPart;
    ResponsePart();
    OtherParts();
    PartsMakeNames("cwmp", "GetParameterValuesResponse");
    KeptList(values);
    KeptOne(ListNode(values));
    assert Kept(ResponseNode(values)) by { KeptWrapped(Cwmp("GetParameterValuesResponse"), [ListNode(values)]); }
    KeptEnvelope(id, ResponseNode(values));
    assert Envelope(id, ResponseNode(values)).Element? by { EnvelopeIsElement(id, ResponseNode(values)); }
    DocumentReadsBack(Envelope(id, ResponseNode(values)));
    EnvelopeParses(id, ResponseNode(values), ulongMax);
    StructsReadBack(values);
  }

  lemma EnvelopeIsElement(id: string, content: Node)
    ensures Envelope(id, content).Element?
  {
  }

  lemma ResponsePart()
    ensures IsPart("GetParameterValuesResponse")
  {
  }

  lemma KeptWrapped(q: QName, children: seq<Node>)
    requires IsQName(q) && AllKept(children)
    ensures Kept(Element(q, [], children))
  {
  }

  /** A SetParameterValues document in the builder's form parses to exactly the request it was written for. */
  lemma SetRequestReadsBack(id: string, values: seq<ParameterValue>, key: string, ulongMax: nat)
    requires AllReadable(id, false) && AllReadableValues(values) && AllReadable(key, false)
    ensures var root := Envelope(id, SetNode(values, key));
            && ReadDocument(PROLOGUE + Print(root)) == Some(root)
            && ParseTree(root, ulongMax) == Parsed(EMPTY_RPC.(method_ := "SetParameterValues", cwmpId := id,
                                                              parameterValues := values, parameterKey := key))
  {
    hide Print, Envelope, ReadDocument, ParseTree, StructNodes, Kept, IsQName, IsPart;
    MethodPart();
    OtherParts();
    ParameterParts();
    PartsMakeNames("cwmp", "SetParameterValues");
    PartsMakeNames("", "ParameterKey");
    KeptList(values);
    KeptText(Plain("ParameterKey"), key);
    KeptPair(ListNode(values), Leaf(Plain("ParameterKey"), key));
    KeptWrapped(Cwmp("SetParameterValues"), [ListNode(values), Leaf(Plain("ParameterKey"), key)]);
    KeptEnvelope(id, SetNode(values, key));
    EnvelopeIsElement(id, SetNode(values, key));
    DocumentReadsBack(Envelope(id, SetNode(values, key)));
    SetCallParses(id, values, key, ulongMax);
  }

  // A leaf among others is found by its name.
  lemma LeafIsFound(q: QName, nodes: seq<Node>, i: nat, name: string, text: string)
    requires i < |nodes| && nodes[i] == Leaf(Plain(name), text)
    requires forall j :: 0 <= j < i ==> !IsNamed(nodes[j], name)
    ensures NodeText(Child(Some(Element(q, [], nodes)), name)) == text
  {
    FirstIs(nodes, i, name);
    TextNodesContent(text);
  }

  lemma {:induction false} FirstIs(nodes: seq<Node>, i: nat, name: string)
    requires i < |nodes| && IsNamed(nodes[i], name) && forall j :: 0 <= j < i ==> !IsNamed(nodes[j], name)
    ensures FirstChild(nodes, name) == Some(nodes[i])
  {
    hide IsNamed;
    if i > 0 {
      FirstIs(nodes[1..], i - 1, name);
    }
  }

  lemma SetCallParses(id: string, values: seq<ParameterValue>, key: string, ulongMax: nat)
    ensures ParseTree(Envelope(id, SetNode(values, key)), ulongMax) ==
            Parsed(EMPTY_RPC.(method_ := "SetParameterValues", cwmpId := id, parameterValues := values, parameterKey := key))
  {
    hide Envelope, Header, FindDescendant, ReadDownload, StructNodes, ReadStructs, TextNodes;
    var call := SetNode(values, key);
    EnvelopeIsSearched(id, call);
    assert FirstElement([call]) == Some(call);
    StructsReadBack(values);
    TextNodesContent(key);
    var list, last := ListNode(values), Leaf(Plain("ParameterKey"), key);
    assert [list, last][1..] == [last];
    assert FirstChild([list, last], "ParameterList") == Some(list);
    assert FirstChild([list, last], "ParameterKey") == Some(last);
    assert "SetParameterValues"[0] != "GetParameterValues"[0];
  }
}
