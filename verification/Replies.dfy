/**
 The replies of a session as documents (src/SoapBuilder.cpp:82-138), and what an ACS
 reads in them.
 */
module Replies {
  import opened Wrappers
  import opened Text
  import opened XmlText
  import opened XmlTree
  import opened SoapParser
  import opened SoapBuilder
  import CwmpSession

  type Reply = CwmpSession.Reply
  type ParameterInfo = CwmpSession.ParameterInfo

  // ---------------------------------------------------------------------
  // What an ACS reads.

  function AttributeOf(attributes: seq<Attribute>, name: QName): string {
    if attributes == [] then ""
    else if attributes[0].name == name then attributes[0].value
    else AttributeOf(attributes[1..], name)
  }

  // The number in a type such as cwmp:ParameterValueStruct[3], of that kind.
  function AnnouncedBy(arrayType: string, kind: string): Option<nat> {
    var n := LengthBefore(arrayType, '[');
    if arrayType[..n] != "cwmp:" + kind then None
    else if n + 2 < |arrayType| && arrayType[|arrayType| - 1] == ']' && IsNumeral(arrayType[n + 1..|arrayType| - 1])
    then Some(DecimalValue(arrayType[n + 1..|arrayType| - 1])) else None
  }

  // The entries of a ParameterList that holds as many as it announces.
  function ListOf(call: Node, kind: string): Option<seq<Node>> {
    match Child(Some(call), "ParameterList")
    case None => None
    case Some(list) =>
      if list.Element? && AnnouncedBy(AttributeOf(list.attributes, QName("soap-enc", "arrayType")), kind) ==
                         Some(|list.children|)
      then Some(list.children) else None
  }

  function ReadInfos(nodes: seq<Node>): seq<ParameterInfo> {
    if nodes == [] then []
    else (if IsNamed(nodes[0], "ParameterInfoStruct") then [ReadInfo(nodes[0])] else []) + ReadInfos(nodes[1..])
  }

  function ReadInfo(item: Node): ParameterInfo {
    CwmpSession.ParameterInfo(NodeText(Child(Some(item), "Name")), NodeText(Child(Some(item), "Writable")) == "1")
  }

  function ReadFaults(nodes: seq<Node>): seq<string> {
    if nodes == [] then []
    else (if IsNamed(nodes[0], "SetParameterValuesFault") then [NodeText(Child(Some(nodes[0]), "ParameterName"))] else []) +
         ReadFaults(nodes[1..])
  }

  const NO_TIME := "0001-01-01T00:00:00Z"

  // A reply by its document.
  function ReadReply(root: Node): Option<Reply> {
    match CallOf(root)
    case None => None
    case Some(call) =>
      var name, id := call.name.local, CwmpIdOf(root);
      if name == "GetParameterValuesResponse" then
        match ListOf(call, "ParameterValueStruct") {
          case None => None
          case Some(list) => Some(CwmpSession.ValuesReply(id, ReadStructs(list)))
        }
      else if name == "GetParameterNamesResponse" then
        match ListOf(call, "ParameterInfoStruct") {
          case None => None
          case Some(list) => Some(CwmpSession.NamesReply(id, ReadInfos(list)))
        }
      else if name == "SetParameterValuesResponse" then
        if NodeText(Child(Some(call), "Status")) == "0" then Some(CwmpSession.SetReply(id)) else None
      else if name == "RebootResponse" then Some(CwmpSession.RebootReply(id))
      else if name == "DownloadResponse" then
        if NodeText(Child(Some(call), "Status")) == "1" &&
           NodeText(Child(Some(call), "StartTime")) == "0001-01-01T00:00:00Z" &&
           NodeText(Child(Some(call), "CompleteTime")) == "0001-01-01T00:00:00Z"
        then Some(CwmpSession.DownloadReply(id)) else None
      else if name == "Fault" then ReadFault(id, Child(Child(Some(call), "detail"), "Fault"))
      else None
  }

  function ReadFault(id: string, detail: Option<Node>): Option<Reply> {
    var code := NodeText(Child(detail, "FaultCode"));
    if IsNumeral(code) then
      Some(CwmpSession.FaultReply(id, DecimalValue(code), NodeText(Child(detail, "FaultString")),
                                  ReadFaults(ChildrenOfOption(detail))))
    else None
  }

  // ---------------------------------------------------------------------
  // The trees.

  function InfoNode(info: ParameterInfo): Node {
    Element(Plain("ParameterInfoStruct"), [],
            [Leaf(Plain("Name"), info.name), Leaf(Plain("Writable"), if info.writable then "1" else "0")])
  }

  function InfoNodes(infos: seq<ParameterInfo>): (nodes: seq<Node>)
    ensures |nodes| == |infos|
  {
    if infos == [] then [] else [InfoNode(infos[0])] + InfoNodes(infos[1..])
  }

  function InfoList(infos: seq<ParameterInfo>): Node {
    Element(Plain("ParameterList"),
            [Attribute(QName("soap-enc", "arrayType"), ArrayType("ParameterInfoStruct", |infos|))], InfoNodes(infos))
  }

  function NameFault(name: string): Node {
    Element(Plain("SetParameterValuesFault"), [],
            [Leaf(Plain("ParameterName"), name), Leaf(Plain("FaultCode"), "9007"),
             Leaf(Plain("FaultString"), "Invalid parameter value")])
  }

  function NameFaults(names: seq<string>): seq<Node> {
    if names == [] then [] else [NameFault(names[0])] + NameFaults(names[1..])
  }

  function FaultDetail(code: nat, message: string, parameters: seq<string>): Node {
    Element(Cwmp("Fault"), [],
            [Leaf(Plain("FaultCode"), Decimal(code))] + ([Leaf(Plain("FaultString"), message)] + NameFaults(parameters)))
  }

  function FaultNode(code: nat, message: string, parameters: seq<string>): Node {
    Element(Soap("Fault"), [],
            [Leaf(Plain("faultcode"), "Client"), Leaf(Plain("faultstring"), "CWMP fault"),
             Element(Plain("detail"), [], [FaultDetail(code, message, parameters)])])
  }

  function StatusNode(name: string): Node {
    Element(Cwmp(name), [], [Leaf(Plain("Status"), "0")])
  }

  function DownloadNode(): Node {
    Element(Cwmp("DownloadResponse"), [],
            [Leaf(Plain("Status"), "1"), Leaf(Plain("StartTime"), NO_TIME), Leaf(Plain("CompleteTime"), NO_TIME)])
  }

  function ReplyNode(reply: Reply): (node: Node)
    ensures node.Element?
  {
    match reply
    case ValuesReply(_, values) => ResponseNode(values)
    case NamesReply(_, names) => Element(Cwmp("GetParameterNamesResponse"), [], [InfoList(names)])
    case SetReply(_) => StatusNode("SetParameterValuesResponse")
    case RebootReply(_) => Element(Cwmp("RebootResponse"), [], [])
    case DownloadReply(_) => DownloadNode()
    case FaultReply(_, code, message, parameters) => FaultNode(code, message, parameters)
  }

  // ---------------------------------------------------------------------
  // The texts.

  function Between(q: QName, content: string): string {
    Open(q) + content + Close(q)
  }

  // A leaf with a text that needs no escape, and one whose text is escaped.
  function Raw(name: string, text: string): string {
    Between(Plain(name), text)
  }

  function InfoText(info: ParameterInfo): string {
    Between(Plain("ParameterInfoStruct"),
            Raw("Name", Escape(info.name)) + Raw("Writable", if info.writable then "1" else "0"))
  }

  function NameFaultText(name: string): string {
    Between(Plain("SetParameterValuesFault"),
            Raw("ParameterName", Escape(name)) + (Raw("FaultCode", "9007") + Raw("FaultString", "Invalid parameter value")))
  }

  function FaultStart(code: nat, message: string): string {
    Open(Soap("Fault")) + (Raw("faultcode", "Client") + Raw("faultstring", "CWMP fault")) + Open(Plain("detail")) +
    Open(Cwmp("Fault")) + (Raw("FaultCode", Decimal(code)) + Raw("FaultString", Escape(message)))
  }

  function FaultEnd(): string {
    Close(Cwmp("Fault")) + Close(Plain("detail")) + Close(Soap("Fault"))
  }

  // src/SoapBuilder.cpp:99-111
  method NamesBody(infos: seq<ParameterInfo>) returns (body: string)
    ensures body == Between(Cwmp("GetParameterNamesResponse"), InfoListText(infos))
  {
    hide InfoText, OpenWith;
    var list := "";
    for i := 0 to |infos|
      invariant list + InfoTexts(infos[i..]) == InfoTexts(infos)
    {
      assert infos[i..][1..] == infos[i + 1..];
      list := list + InfoText(infos[i]);
    }
    body := Between(Cwmp("GetParameterNamesResponse"),
                    OpenWith(Plain("ParameterList"), QName("soap-enc", "arrayType"),
                             ArrayType("ParameterInfoStruct", |infos|)) + list + Close(Plain("ParameterList")));
  }

  function InfoTexts(infos: seq<ParameterInfo>): string {
    if infos == [] then "" else InfoText(infos[0]) + InfoTexts(infos[1..])
  }

  function InfoListText(infos: seq<ParameterInfo>): string {
    OpenWith(Plain("ParameterList"), QName("soap-enc", "arrayType"), ArrayType("ParameterInfoStruct", |infos|)) +
    InfoTexts(infos) + Close(Plain("ParameterList"))
  }

  // src/SoapBuilder.cpp:123-138
  method FaultBody(code: nat, message: string, parameters: seq<string>) returns (detail: string)
    ensures detail == FaultStart(code, message) + NameFaultTexts(parameters) + FaultEnd()
  {
    hide NameFaultText, FaultStart, FaultEnd;
    detail := FaultStart(code, message);
    for i := 0 to |parameters|
      invariant detail + NameFaultTexts(parameters[i..]) == FaultStart(code, message) + NameFaultTexts(parameters)
    {
      assert parameters[i..][1..] == parameters[i + 1..];
      detail := detail + NameFaultText(parameters[i]);
    }
    detail := detail + FaultEnd();
  }

  function NameFaultTexts(names: seq<string>): string {
    if names == [] then "" else NameFaultText(names[0]) + NameFaultTexts(names[1..])
  }

  // ---------------------------------------------------------------------
  // The texts read as the trees.

  lemma Wrapped(q: QName, x: string, nodes: seq<Node>)
    requires IsQName(q) && RendersAll(x, nodes)
    ensures Renders(Between(q, x), Element(q, [], nodes))
  {
    hide Renders, RendersAll, Written, IsQName;
    AroundRenders(q, [], x, nodes);
    assert Between(q, x) == "<" + (Written(q) + (PrintAttributes([]) + (">" + (x + ("</" + (Written(q) + ">"))))));
  }

  lemma One(x: string, a: Node)
    requires Renders(x, a)
    ensures RendersAll(x, [a])
  {
    hide Renders, RendersAll;
    NothingRenders();
    OneMoreRenders(x, a, "", []);
    assert x + "" == x && [a] + [] == [a];
  }

  lemma Two(x: string, a: Node, y: string, b: Node)
    requires Renders(x, a) && Renders(y, b)
    ensures RendersAll(x + y, [a, b])
  {
    hide Renders, RendersAll;
    One(y, b);
    OneMoreRenders(x, a, y, [b]);
    assert [a] + [b] == [a, b];
  }

  lemma Three(x: string, a: Node, y: string, b: Node, z: string, c: Node)
    requires Renders(x, a) && Renders(y, b) && Renders(z, c)
    ensures RendersAll(x + (y + z), [a, b, c])
  {
    hide Renders, RendersAll;
    Two(y, b, z, c);
    OneMoreRenders(x, a, y + z, [b, c]);
    assert [a] + [b, c] == [a, b, c];
  }

  lemma LeafRenders(name: string, text: string)
    requires IsPart(name) && AllReadable(text, false)
    ensures Renders(Raw(name, Escape(text)), Leaf(Plain(name), text))
  {
    hide Renders, Print, Kept, PrintAll, IsQName, IsPart;
    PartsMakeNames("", name);
    KeptText(Plain(name), text);
    PrintRenders(Leaf(Plain(name), text));
    PrintTextNodes(text);
    PrintWrapped(Plain(name), TextNodes(text));
  }

  lemma InertRenders(name: string, text: string)
    requires IsPart(name) && IsInert(text)
    ensures Renders(Raw(name, text), Leaf(Plain(name), text))
  {
    hide Renders, IsPart, Raw;
    InertIsUnchanged(text);
    ReadableInText(text);
    LeafRenders(name, text);
  }

  lemma ReadableInText(s: string)
    requires AllReadable(s, true)
    ensures AllReadable(s, false)
  {
  }

  lemma InfoParts()
    ensures IsPart("ParameterInfoStruct") && IsPart("Writable")
  {
  }

  lemma NamesPart()
    ensures IsPart("GetParameterNamesResponse")
  {
  }

  lemma StatusParts()
    ensures IsPart("Status") && IsPart("StartTime") && IsPart("CompleteTime")
  {
  }

  lemma ResponseParts()
    ensures IsPart("DownloadResponse") && IsPart("RebootResponse")
  {
  }

  lemma SetPart()
    ensures IsPart("SetParameterValuesResponse")
  {
  }

  lemma FaultParts()
    ensures IsPart("Fault") && IsPart("faultcode") && IsPart("faultstring") && IsPart("detail")
  {
  }

  lemma DetailParts()
    ensures IsPart("FaultCode") && IsPart("FaultString") && IsPart("ParameterName")
  {
  }

  lemma NameFaultPart()
    ensures IsPart("SetParameterValuesFault")
  {
  }

  lemma Constants()
    ensures IsInert("0") && IsInert("1") && IsInert(NO_TIME)
    ensures IsInert("9007") && IsInert("Client") && IsInert("CWMP fault") && IsInert("Invalid parameter value")
  {
  }

  lemma InfoRenders(info: ParameterInfo)
    requires AllReadable(info.name, false)
    ensures Renders(InfoText(info), InfoNode(info))
  {
    hide Renders, RendersAll, IsPart, Raw, IsInert, IsQName, Between;
    InfoParts();
    ListParts();
    Constants();
    LeafRenders("Name", info.name);
    var flag := if info.writable then "1" else "0";
    InertRenders("Writable", flag);
    Two(Raw("Name", Escape(info.name)), Leaf(Plain("Name"), info.name), Raw("Writable", flag), Leaf(Plain("Writable"), flag));
    PartsMakeNames("", "ParameterInfoStruct");
    Wrapped(Plain("ParameterInfoStruct"), Raw("Name", Escape(info.name)) + Raw("Writable", flag), InfoNode(info).children);
  }

  predicate AllInfosReadable(infos: seq<ParameterInfo>) {
    forall i :: 0 <= i < |infos| ==> AllReadable(infos[i].name, false)
  }

  lemma {:induction false} InfosRender(infos: seq<ParameterInfo>)
    requires AllInfosReadable(infos)
    ensures RendersAll(InfoTexts(infos), InfoNodes(infos))
  {
    hide Renders, RendersAll, InfoText, InfoNode, AllReadable;
    if infos == [] {
      NothingRenders();
    } else {
      InfoRenders(infos[0]);
      InfosRender(infos[1..]);
      OneMoreRenders(InfoText(infos[0]), InfoNode(infos[0]), InfoTexts(infos[1..]), InfoNodes(infos[1..]));
    }
  }

  lemma InfoTypeIsInert(n: nat)
    ensures IsInert(ArrayType("ParameterInfoStruct", n))
  {
  }

  lemma InfoListRenders(infos: seq<ParameterInfo>)
    requires AllInfosReadable(infos)
    ensures Renders(InfoListText(infos), InfoList(infos))
  {
    hide Renders, RendersAll, IsPart, IsQName, ArrayType, AllInfosReadable, InfoTexts, InfoNodes, Written, Escape, IsInert,
         AllReadable;
    var a := Attribute(QName("soap-enc", "arrayType"), ArrayType("ParameterInfoStruct", |infos|));
    ParameterParts();
    PartsMakeNames("", "ParameterList");
    PartsMakeNames("soap-enc", "arrayType");
    InfoTypeIsInert(|infos|);
    InertIsUnchanged(a.value);
    InfosRender(infos);
    AroundRenders(Plain("ParameterList"), [a], InfoTexts(infos), InfoNodes(infos));
    OneAttribute(Plain("ParameterList"), a, InfoTexts(infos));
  }

  lemma OneAttribute(q: QName, a: Attribute, x: string)
    ensures "<" + (Written(q) + (PrintAttributes([a]) + (">" + (x + ("</" + (Written(q) + ">")))))) ==
            OpenWith(q, a.name, Escape(a.value)) + x + Close(q)
  {
    hide Written, Escape;
    assert PrintAttributes([a]) == " " + (Written(a.name) + ("=\"" + (Escape(a.value) + ("\"" + ""))));
  }

  lemma NameFaultRenders(name: string)
    requires AllReadable(name, false)
    ensures Renders(NameFaultText(name), NameFault(name))
  {
    hide Renders, RendersAll, IsPart, Raw, IsInert, IsQName, Between;
    DetailParts();
    NameFaultPart();
    Constants();
    LeafRenders("ParameterName", name);
    InertRenders("FaultCode", "9007");
    InertRenders("FaultString", "Invalid parameter value");
    Three(Raw("ParameterName", Escape(name)), Leaf(Plain("ParameterName"), name), Raw("FaultCode", "9007"),
          Leaf(Plain("FaultCode"), "9007"), Raw("FaultString", "Invalid parameter value"),
          Leaf(Plain("FaultString"), "Invalid parameter value"));
    PartsMakeNames("", "SetParameterValuesFault");
    Wrapped(Plain("SetParameterValuesFault"),
            Raw("ParameterName", Escape(name)) + (Raw("FaultCode", "9007") + Raw("FaultString", "Invalid parameter value")),
            NameFault(name).children);
  }

  predicate AllNamesReadable(names: seq<string>) {
    forall i :: 0 <= i < |names| ==> AllReadable(names[i], false)
  }

  lemma {:induction false} NameFaultsRender(names: seq<string>)
    requires AllNamesReadable(names)
    ensures RendersAll(NameFaultTexts(names), NameFaults(names))
  {
    hide Renders, RendersAll, NameFaultText, NameFault, AllReadable;
    if names == [] {
      NothingRenders();
    } else {
      NameFaultRenders(names[0]);
      NameFaultsRender(names[1..]);
      OneMoreRenders(NameFaultText(names[0]), NameFault(names[0]), NameFaultTexts(names[1..]), NameFaults(names[1..]));
    }
  }

  lemma DecimalIsInert(n: nat)
    ensures IsInert(Decimal(n))
  {
  }

  lemma DetailRenders(code: nat, message: string, parameters: seq<string>)
    requires AllReadable(message, false) && AllNamesReadable(parameters)
    ensures Renders(Between(Cwmp("Fault"), Raw("FaultCode", Decimal(code)) + (Raw("FaultString", Escape(message)) +
                                                                             NameFaultTexts(parameters))),
                    FaultDetail(code, message, parameters))
  {
    hide Renders, RendersAll, IsPart, Raw, IsInert, IsQName, Between, NameFaults, NameFaultTexts, AllNamesReadable;
    FaultParts();
    DetailParts();
    OtherParts();
    DecimalIsInert(code);
    InertRenders("FaultCode", Decimal(code));
    LeafRenders("FaultString", message);
    NameFaultsRender(parameters);
    var tail := Raw("FaultString", Escape(message)) + NameFaultTexts(parameters);
    var nodes := [Leaf(Plain("FaultString"), message)] + NameFaults(parameters);
    OneMoreRenders(Raw("FaultString", Escape(message)), Leaf(Plain("FaultString"), message), NameFaultTexts(parameters),
                   NameFaults(parameters));
    OneMoreRenders(Raw("FaultCode", Decimal(code)), Leaf(Plain("FaultCode"), Decimal(code)), tail, nodes);
    PartsMakeNames("cwmp", "Fault");
    Wrapped(Cwmp("Fault"), Raw("FaultCode", Decimal(code)) + tail, [Leaf(Plain("FaultCode"), Decimal(code))] + nodes);
  }

  lemma FaultRenders(code: nat, message: string, parameters: seq<string>)
    requires AllReadable(message, false) && AllNamesReadable(parameters)
    ensures Renders(FaultStart(code, message) + NameFaultTexts(parameters) + FaultEnd(), FaultNode(code, message, parameters))
  {
    hide Renders, RendersAll, IsPart, Raw, IsInert, IsQName, NameFaultTexts, FaultDetail, AllNamesReadable, Between;
    FaultParts();
    EnvelopeParts();
    Constants();
    DetailRenders(code, message, parameters);
    var inner := Raw("FaultCode", Decimal(code)) + (Raw("FaultString", Escape(message)) + NameFaultTexts(parameters));
    One(Between(Cwmp("Fault"), inner), FaultDetail(code, message, parameters));
    PartsMakeNames("", "detail");
    Wrapped(Plain("detail"), Between(Cwmp("Fault"), inner), [FaultDetail(code, message, parameters)]);
    var detail := Between(Plain("detail"), Between(Cwmp("Fault"), inner));
    InertRenders("faultcode", "Client");
    InertRenders("faultstring", "CWMP fault");
    Three(Raw("faultcode", "Client"), Leaf(Plain("faultcode"), "Client"), Raw("faultstring", "CWMP fault"),
          Leaf(Plain("faultstring"), "CWMP fault"), detail,
          Element(Plain("detail"), [], [FaultDetail(code, message, parameters)]));
    PartsMakeNames("soap-env", "Fault");
    Wrapped(Soap("Fault"), Raw("faultcode", "Client") + (Raw("faultstring", "CWMP fault") + detail),
            FaultNode(code, message, parameters).children);
    FaultTextIsNested(code, message, NameFaultTexts(parameters));
  }

  lemma FaultTextIsNested(code: nat, message: string, names: string)
    ensures FaultStart(code, message) + names + FaultEnd() ==
            Between(Soap("Fault"), Raw("faultcode", "Client") + (Raw("faultstring", "CWMP fault") +
              Between(Plain("detail"), Between(Cwmp("Fault"),
                Raw("FaultCode", Decimal(code)) + (Raw("FaultString", Escape(message)) + names)))))
  {
    hide Raw, Open, Close;
    Nested(Open(Soap("Fault")), Raw("faultcode", "Client"), Raw("faultstring", "CWMP fault"), Open(Plain("detail")),
           Open(Cwmp("Fault")), Raw("FaultCode", Decimal(code)), Raw("FaultString", Escape(message)), names,
           Close(Cwmp("Fault")), Close(Plain("detail")), Close(Soap("Fault")));
  }

  lemma Nested(o1: string, a: string, b: string, o2: string, o3: string, c: string, d: string, names: string,
               c3: string, c2: string, c1: string)
    ensures (o1 + (a + b) + o2 + o3 + (c + d)) + names + (c3 + c2 + c1) ==
            o1 + (a + (b + (o2 + (o3 + (c + (d + names)) + c3) + c2))) + c1
  {
  }

  lemma StatusRenders(name: string)
    requires IsPart(name)
    ensures Renders(Between(Cwmp(name), Raw("Status", "0")), StatusNode(name))
  {
    hide Renders, RendersAll, IsPart, Raw, IsInert, IsQName, Between;
    StatusParts();
    OtherParts();
    Constants();
    InertRenders("Status", "0");
    One(Raw("Status", "0"), Leaf(Plain("Status"), "0"));
    PartsMakeNames("cwmp", name);
    Wrapped(Cwmp(name), Raw("Status", "0"), [Leaf(Plain("Status"), "0")]);
  }

  function DownloadText(): string {
    Between(Cwmp("DownloadResponse"), Raw("Status", "1") + (Raw("StartTime", NO_TIME) + Raw("CompleteTime", NO_TIME)))
  }

  lemma DownloadRenders()
    ensures Renders(DownloadText(), DownloadNode())
  {
    hide Renders, RendersAll, IsPart, Raw, IsInert, IsQName, Between;
    StatusParts();
    ResponseParts();
    OtherParts();
    Constants();
    InertRenders("Status", "1");
    InertRenders("StartTime", NO_TIME);
    InertRenders("CompleteTime", NO_TIME);
    Three(Raw("Status", "1"), Leaf(Plain("Status"), "1"), Raw("StartTime", NO_TIME), Leaf(Plain("StartTime"), NO_TIME),
          Raw("CompleteTime", NO_TIME), Leaf(Plain("CompleteTime"), NO_TIME));
    PartsMakeNames("cwmp", "DownloadResponse");
    Wrapped(Cwmp("DownloadResponse"), Raw("Status", "1") + (Raw("StartTime", NO_TIME) + Raw("CompleteTime", NO_TIME)),
            DownloadNode().children);
  }

  function RebootText(): string {
    "<" + Written(Cwmp("RebootResponse")) + "/>"
  }

  lemma RebootRenders()
    ensures Renders(RebootText(), Element(Cwmp("RebootResponse"), [], []))
  {
    hide Renders, IsPart, IsQName, Written;
    ResponseParts();
    OtherParts();
    PartsMakeNames("cwmp", "RebootResponse");
    SelfClosedRenders(Cwmp("RebootResponse"));
    assert RebootText() == "<" + (Written(Cwmp("RebootResponse")) + "/>");
  }

  // ---------------------------------------------------------------------
  // Whole documents.

  lemma HeaderRenders(id: string)
    requires AllReadable(id, false)
    ensures Renders(Between(Soap("Header"), OpenWith(Cwmp("ID"), MUST_UNDERSTAND.name, "1") + Escape(id) + Close(Cwmp("ID"))),
                    Header(id))
  {
    hide Renders, Print, Kept, IsQName, IsPart, AllReadable, OpenWith, Open, Close, Escape;
    EnvelopeParts();
    OtherParts();
    CwmpUrnPieces();
    PartsMakeNames("soap-env", "Header");
    PartsMakeNames("soap-env", "mustUnderstand");
    PartsMakeNames("cwmp", "ID");
    KeptTextNodes(id);
    var idNode := Element(Cwmp("ID"), [MUST_UNDERSTAND], TextNodes(id));
    assert Kept(idNode) by { KeptIs(idNode); }
    KeptOne(idNode);
    KeptWrapped(Soap("Header"), [idNode]);
    PrintRenders(Header(id));
    HeaderText(id);
  }

  lemma KeptIs(node: Node)
    requires node.Element? && IsQName(node.name) && AttributesKept(node.attributes) && AllKept(node.children)
    ensures Kept(node)
  {
  }

  /** A body that reads as a tree makes a document that reads as the envelope around it. */
  lemma DocumentRenders(id: string, body: string, content: Node)
    requires AllReadable(id, false) && Renders(body, content)
    ensures ReadDocument(EnvelopeText(id, body)) == Some(Envelope(id, content))
  {
    hide Renders, RendersAll, IsPart, IsQName, Header, Escape, OpenWith, Open, Close, ReadDocument, Namespaces, PrintAttributes,
         AllReadable;
    HeaderRenders(id);
    var head := Between(Soap("Header"), OpenWith(Cwmp("ID"), MUST_UNDERSTAND.name, "1") + Escape(id) + Close(Cwmp("ID")));
    EnvelopeParts();
    PartsMakeNames("soap-env", "Body");
    PartsMakeNames("soap-env", "Envelope");
    One(body, content);
    Wrapped(Soap("Body"), body, [content]);
    Two(head, Header(id), Between(Soap("Body"), body), Body(content));
    NamespacesAreKept();
    AroundRenders(Soap("Envelope"), Namespaces(), head + Between(Soap("Body"), body), [Header(id), Body(content)]);
    EnvelopeIsNested(id, body, head);
    var t := EnvelopeTag(head + Between(Soap("Body"), body));
    WholeDocument(t, Envelope(id, content));
  }

  function EnvelopeTag(inside: string): string {
    "<" + (Written(Soap("Envelope")) +
           (PrintAttributes(Namespaces()) + (">" + (inside + ("</" + (Written(Soap("Envelope")) + ">"))))))
  }

  lemma EnvelopeIsNested(id: string, body: string, head: string)
    requires head == Between(Soap("Header"), OpenWith(Cwmp("ID"), MUST_UNDERSTAND.name, "1") + Escape(id) + Close(Cwmp("ID")))
    ensures EnvelopeText(id, body) == PROLOGUE + EnvelopeTag(head + Between(Soap("Body"), body))
  {
    hide Escape, OpenWith, Open, Namespaces, PrintAttributes, Written;
    Reassociate(PROLOGUE, OpenEnvelope(), Open(Soap("Header")), OpenWith(Cwmp("ID"), MUST_UNDERSTAND.name, "1"), Escape(id),
                Close(Cwmp("ID")), Close(Soap("Header")), Open(Soap("Body")), body, Close(Soap("Body")),
                Close(Soap("Envelope")));
    TagIsNested(Written(Soap("Envelope")), PrintAttributes(Namespaces()), head + Between(Soap("Body"), body));
  }

  lemma TagIsNested(tag: string, attributes: string, inside: string)
    ensures ("<" + tag + attributes + ">") + inside + ("</" + tag + ">") ==
            "<" + (tag + (attributes + (">" + (inside + ("</" + (tag + ">"))))))
  {
  }

  lemma WholeDocument(t: string, root: Node)
    requires Renders(t, root)
    ensures ReadDocument(PROLOGUE + t) == Some(root)
  {
    hide ReadElement;
    assert t + "" == t;
    assert (PROLOGUE + t)[..|PROLOGUE|] == PROLOGUE && (PROLOGUE + t)[|PROLOGUE|..] == t;
  }

  predicate IsReadableReply(reply: Reply) {
    AllReadable(reply.id, false) &&
    match reply
    case ValuesReply(_, values) => AllReadableValues(values)
    case NamesReply(_, names) => AllInfosReadable(names)
    case FaultReply(_, _, message, parameters) => AllReadable(message, false) && AllNamesReadable(parameters)
    case _ => true
  }

  /** src/SoapBuilder.cpp:82-138: whatever the reply, its document is read as its tree. */
  method WriteReply(reply: Reply) returns (xml: string)
    ensures IsReadableReply(reply) ==> ReadDocument(xml) == Some(Envelope(reply.id, ReplyNode(reply)))
  {
    hide Renders, ReadDocument, EnvelopeText, AllReadable, AllReadableValues, AllInfosReadable, AllNamesReadable, Envelope,
         FaultNode, FaultStart, FaultEnd, Between, Raw, RebootText, DownloadText, DownloadNode, StatusNode, ResponseNode,
         InfoList, InfoListText, IsPart;
    var body;
    match reply {
      case ValuesReply(id, values) =>
        xml := SoapBuilder.GetParameterValuesResponse(id, values);
        if IsReadableReply(reply) {
          ValuesDocument(id, values);
        }
        return;
      case NamesReply(_, names) =>
        body := NamesBody(names);
        if IsReadableReply(reply) {
          NamesRender(names);
        }
      case SetReply(_) =>
        body := Between(Cwmp("SetParameterValuesResponse"), Raw("Status", "0"));
        SetPart();
        StatusRenders("SetParameterValuesResponse");
      case RebootReply(_) =>
        body := RebootText();
        RebootRenders();
      case DownloadReply(_) =>
        body := DownloadText();
        DownloadRenders();
      case FaultReply(_, code, message, parameters) =>
        body := FaultBody(code, message, parameters);
        if IsReadableReply(reply) {
          FaultRenders(code, message, parameters);
        }
    }
    xml := EnvelopeText(reply.id, body);
    if IsReadableReply(reply) {
      DocumentRenders(reply.id, body, ReplyNode(reply));
    }
  }

  lemma ValuesDocument(id: string, values: seq<ParameterValue>)
    requires AllReadable(id, false) && AllReadableValues(values)
    ensures ReadDocument(PROLOGUE + Print(Envelope(id, ResponseNode(values)))) == Some(Envelope(id, ResponseNode(values)))
  {
    hide *;
    ResponseReadsBack(id, values, 0);
  }

  lemma NamesRender(infos: seq<ParameterInfo>)
    requires AllInfosReadable(infos)
    ensures Renders(Between(Cwmp("GetParameterNamesResponse"), InfoListText(infos)),
                    Element(Cwmp("GetParameterNamesResponse"), [], [InfoList(infos)]))
  {
    hide Renders, RendersAll, IsPart, IsQName, InfoListText, InfoList, Between;
    InfoListRenders(infos);
    One(InfoListText(infos), InfoList(infos));
    NamesPart();
    OtherParts();
    PartsMakeNames("cwmp", "GetParameterNamesResponse");
    Wrapped(Cwmp("GetParameterNamesResponse"), InfoListText(infos), [InfoList(infos)]);
  }

  // ---------------------------------------------------------------------
  // The trees are read as the replies.

  lemma EnvelopeIsOpened(id: string, content: Node)
    requires content.Element?
    ensures CallOf(Envelope(id, content)) == Some(content) && CwmpIdOf(Envelope(id, content)) == id
  {
    hide Envelope, Header, FindDescendant;
    EnvelopeIsSearched(id, content);
    assert FirstElement([content]) == Some(content);
  }

  /** The count in an array type is the one it was written with. */
  lemma CountIsAnnounced(kind: string, n: nat)
    requires '[' !in kind
    ensures AnnouncedBy(ArrayType(kind, n), kind) == Some(n)
  {
    hide Decimal, DecimalValue;
    var t := ArrayType(kind, n);
    var before := "cwmp:" + kind;
    assert t == before + ("[" + Decimal(n) + "]");
    TextIsTaken(before, "[" + Decimal(n) + "]", '[');
    assert t[..|before|] == before && t[|before| + 1..|t| - 1] == Decimal(n);
    DecimalReadsBack(n);
  }

  lemma ListIsFound(q: QName, kind: string, n: nat, nodes: seq<Node>)
    requires '[' !in kind && |nodes| == n
    ensures ListOf(Element(q, [], [Element(Plain("ParameterList"),
                                           [Attribute(QName("soap-enc", "arrayType"), ArrayType(kind, n))], nodes)]), kind) ==
            Some(nodes)
  {
    hide AnnouncedBy, ArrayType;
    var list := Element(Plain("ParameterList"), [Attribute(QName("soap-enc", "arrayType"), ArrayType(kind, n))], nodes);
    assert FirstChild([list], "ParameterList") == Some(list);
    CountIsAnnounced(kind, n);
  }

  lemma InfoReads(info: ParameterInfo)
    ensures ReadInfo(InfoNode(info)) == info && IsNamed(InfoNode(info), "ParameterInfoStruct")
  {
    hide NodeText, Child, TextNodes;
    assert "Name"[0] != "Writable"[0] && "0"[0] != "1"[0];
    LeafIsFound(Plain("ParameterInfoStruct"), InfoNode(info).children, 0, "Name", info.name);
    LeafIsFound(Plain("ParameterInfoStruct"), InfoNode(info).children, 1, "Writable", if info.writable then "1" else "0");
  }

  lemma {:induction false} InfosRead(infos: seq<ParameterInfo>)
    ensures ReadInfos(InfoNodes(infos)) == infos
  {
    hide ReadInfo, InfoNode, IsNamed;
    if infos != [] {
      InfosRead(infos[1..]);
      InfoReads(infos[0]);
      assert [infos[0]] + infos[1..] == infos;
    }
  }

  lemma NameFaultReads(name: string)
    ensures NodeText(Child(Some(NameFault(name)), "ParameterName")) == name
    ensures IsNamed(NameFault(name), "SetParameterValuesFault")
  {
    hide NodeText, Child, TextNodes;
    LeafIsFound(Plain("SetParameterValuesFault"), NameFault(name).children, 0, "ParameterName", name);
  }

  lemma {:induction false} NameFaultsRead(names: seq<string>)
    ensures ReadFaults(NameFaults(names)) == names
  {
    hide NodeText, Child, NameFault, IsNamed;
    if names != [] {
      NameFaultsRead(names[1..]);
      NameFaultReads(names[0]);
      assert [names[0]] + names[1..] == names;
    }
  }

  lemma FaultReads(id: string, code: nat, message: string, parameters: seq<string>)
    ensures ReadFault(id, Child(Child(Some(FaultNode(code, message, parameters)), "detail"), "Fault")) ==
            Some(CwmpSession.FaultReply(id, code, message, parameters))
  {
    hide NodeText, TextNodes, NameFaults, Decimal, DecimalValue, ReadFaults;
    var fault := FaultDetail(code, message, parameters);
    var detail := Element(Plain("detail"), [], [fault]);
    var nodes := FaultNode(code, message, parameters).children;
    FaultNamesDiffer();
    assert nodes[2] == detail;
    FirstIs(nodes, 2, "detail");
    FirstIs([fault], 0, "Fault");
    hide Child;
    LeafIsFound(Cwmp("Fault"), fault.children, 0, "FaultCode", Decimal(code));
    LeafIsFound(Cwmp("Fault"), fault.children, 1, "FaultString", message);
    DecimalReadsBack(code);
    ParametersRead(fault.children, message, Decimal(code), parameters);
  }

  lemma ParametersRead(children: seq<Node>, message: string, code: string, parameters: seq<string>)
    requires children == [Leaf(Plain("FaultCode"), code)] + ([Leaf(Plain("FaultString"), message)] + NameFaults(parameters))
    ensures ReadFaults(children) == parameters
  {
    hide NameFaults, TextNodes, NodeText, Child;
    NameFaultsRead(parameters);
    FaultNamesDiffer();
    assert children[1..] == [Leaf(Plain("FaultString"), message)] + NameFaults(parameters);
    assert children[1..][1..] == NameFaults(parameters);
    assert ReadFaults(children) == ReadFaults(children[1..]);
  }

  lemma FaultNamesDiffer()
    ensures "faultcode" != "detail" && "faultstring" != "detail" && "FaultCode" != "FaultString"
    ensures "FaultCode" != "SetParameterValuesFault" && "FaultString" != "SetParameterValuesFault"
  {
    assert "faultcode"[0] != "detail"[0] && "faultstring"[0] != "detail"[0] && "FaultCode"[5] != "FaultString"[5];
    assert "FaultCode"[0] != "SetParameterValuesFault"[0] && "FaultString"[0] != "SetParameterValuesFault"[0];
  }

  lemma ReplyNamesDiffer()
    ensures "GetParameterNamesResponse" != "GetParameterValuesResponse"
    ensures "SetParameterValuesResponse" != "GetParameterValuesResponse"
    ensures "SetParameterValuesResponse" != "GetParameterNamesResponse"
    ensures "RebootResponse"[0] == 'R' && "DownloadResponse"[0] == 'D' && "Fault"[0] == 'F'
    ensures "GetParameterValuesResponse"[0] == 'G' && "GetParameterNamesResponse"[0] == 'G'
    ensures "SetParameterValuesResponse"[0] == 'S'
  {
    assert "GetParameterNamesResponse"[12] != "GetParameterValuesResponse"[12];
  }

  lemma DownloadReads()
    ensures NodeText(Child(Some(DownloadNode()), "Status")) == "1"
    ensures NodeText(Child(Some(DownloadNode()), "StartTime")) == NO_TIME
    ensures NodeText(Child(Some(DownloadNode()), "CompleteTime")) == NO_TIME
  {
    hide NodeText, Child, TextNodes;
    var nodes := DownloadNode().children;
    assert "Status"[3] != "StartTime"[3] && "Status"[0] != "CompleteTime"[0] && "StartTime"[0] != "CompleteTime"[0];
    LeafIsFound(Cwmp("DownloadResponse"), nodes, 0, "Status", "1");
    LeafIsFound(Cwmp("DownloadResponse"), nodes, 1, "StartTime", NO_TIME);
    LeafIsFound(Cwmp("DownloadResponse"), nodes, 2, "CompleteTime", NO_TIME);
  }

  /** Every reply is told from its tree: its kind, its id, its values, names or fault, in order. */
  lemma ReplyIsTold(reply: Reply)
    ensures ReadReply(Envelope(reply.id, ReplyNode(reply))) == Some(reply)
  {
    hide Envelope, CallOf, CwmpIdOf, ListOf, ReadStructs, ReadInfos, ReadFault, NodeText, Child, StructNodes, InfoNodes, NameFaults,
         FaultDetail, TextNodes, ArrayType;
    EnvelopeIsOpened(reply.id, ReplyNode(reply));
    ReplyNamesDiffer();
    match reply {
      case ValuesReply(id, values) =>
        assert '[' !in "ParameterValueStruct";
        ListIsFound(Cwmp("GetParameterValuesResponse"), "ParameterValueStruct", |values|, StructNodes(values));
        StructsReadBack(values);
      case NamesReply(id, names) =>
        assert '[' !in "ParameterInfoStruct";
        ListIsFound(Cwmp("GetParameterNamesResponse"), "ParameterInfoStruct", |names|, InfoNodes(names));
        InfosRead(names);
      case SetReply(_) =>
        LeafIsFound(Cwmp("SetParameterValuesResponse"), [Leaf(Plain("Status"), "0")], 0, "Status", "0");
      case RebootReply(_) =>
      case DownloadReply(_) =>
        DownloadReads();
      case FaultReply(id, code, message, parameters) =>
        FaultReads(id, code, message, parameters);
    }
  }

  /** From a reply to its text and back. */
  method SendReply(reply: Reply) returns (xml: string)
    ensures IsReadableReply(reply) ==> ReadDocument(xml).Some? && ReadReply(ReadDocument(xml).value) == Some(reply)
  {
    hide ReadDocument, ReadReply, Envelope, ReplyNode, IsReadableReply;
    xml := WriteReply(reply);
    ReplyIsTold(reply);
  }
}
