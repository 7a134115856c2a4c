/** Reading requests out of an XML tree (src/SoapParser.cpp). */
module SoapParser {
  import opened Wrappers
  import opened XmlTree
  import RuntimeConfig

  // A node together with the siblings that follow it, which is what a libxml2 node pointer gives access to.
  type Position = seq<Node>

  predicate IsNamed(node: Node, local: string) {
    node.Element? && node.name.local == local
  }

  function ChildrenOf(node: Node): seq<Node> {
    if node.Element? then node.children else []
  }

  function FindDescendant(nodes: Position, local: string): Option<Position> {
    if nodes == [] then None
    else if IsNamed(nodes[0], local) then Some(nodes)
    else
      var inside := if nodes[0].Element? then FindDescendant(nodes[0].children, local) else None;
      if inside.Some? then inside else FindDescendant(nodes[1..], local)
  }

  predicate IsAt(p: Position, local: string) {
    p != [] && IsNamed(p[0], local)
  }

  // Every node at or after a position, with all subtrees, in document order.
  function Preorder(nodes: Position): seq<Position> {
    if nodes == [] then []
    else [nodes] + ((if nodes[0].Element? then Preorder(nodes[0].children) else []) + Preorder(nodes[1..]))
  }

  ghost predicate IsFirst(order: seq<Position>, local: string, i: int) {
    0 <= i < |order| && IsAt(order[i], local) && forall j :: 0 <= j < i ==> !IsAt(order[j], local)
  }

  // The first position of that name in the order; nothing exactly when there is none.
  ghost predicate IsFirstMatch(found: Option<Position>, order: seq<Position>, local: string) {
    match found
    case Some(p) => exists i :: IsFirst(order, local, i) && order[i] == p
    case None => forall i :: 0 <= i < |order| ==> !IsAt(order[i], local)
  }

  lemma FirstMatchOfAppend(a: seq<Position>, b: seq<Position>, local: string, inA: Option<Position>, inB: Option<Position>)
    requires IsFirstMatch(inA, a, local) && IsFirstMatch(inB, b, local)
    ensures IsFirstMatch(if inA.Some? then inA else inB, a + b, local)
  {
    hide IsAt;
    if inA.Some? {
      var i :| IsFirst(a, local, i) && a[i] == inA.value;
      assert IsFirst(a + b, local, i);
    } else if inB.Some? {
      var i :| IsFirst(b, local, i) && b[i] == inB.value;
      assert IsFirst(a + b, local, |a| + i);
    }
  }

  lemma FirstMatchOfOne(p: Position, local: string)
    ensures IsFirstMatch(if IsAt(p, local) then Some(p) else None, [p], local)
  {
    if IsAt(p, local) {
      assert IsFirst([p], local, 0);
    }
  }

  lemma NothingToFind(local: string)
    ensures IsFirstMatch(FindDescendant([], local), Preorder([]), local)
  {
  }

  /** The search returns the first element of that name in document order, and nothing exactly when there is none. */
  lemma {:induction false} FindsFirstInPreorder(nodes: Position, local: string)
    ensures IsFirstMatch(FindDescendant(nodes, local), Preorder(nodes), local)
  {
    if nodes != [] {
      hide IsFirstMatch, IsNamed;
      var inside := if nodes[0].Element? then nodes[0].children else [];
      if nodes[0].Element? {
        FindsFirstInPreorder(nodes[0].children, local);
      } else {
        assert IsFirstMatch(FindDescendant([], local), Preorder([]), local) by { NothingToFind(local); }
      }
      FindsFirstInPreorder(nodes[1..], local);
      FirstMatchOfOne(nodes, local);
      FirstMatchOfAppend(Preorder(inside), Preorder(nodes[1..]), local,
                         FindDescendant(inside, local), FindDescendant(nodes[1..], local));
      FirstMatchOfAppend([nodes], Preorder(inside) + Preorder(nodes[1..]), local,
                         if IsAt(nodes, local) then Some(nodes) else None,
                         if FindDescendant(inside, local).Some? then FindDescendant(inside, local)
                         else FindDescendant(nodes[1..], local));
    }
  }

  // src/SoapParser.cpp:30-37, the loop over siblings with the recursion into children.
  method FindDescendantLoop(nodes: Position, local: string) returns (found: Option<Position>)
    ensures found == FindDescendant(nodes, local)
    decreases nodes
  {
    for i := 0 to |nodes|
      invariant FindDescendant(nodes, local) == FindDescendant(nodes[i..], local)
    {
      assert nodes[i..][1..] == nodes[i + 1..];
      if IsNamed(nodes[i], local) {
        return Some(nodes[i..]);
      }
      if nodes[i].Element? {
        found := FindDescendantLoop(nodes[i].children, local);
        if found.Some? {
          return;
        }
      }
    }
    return None;
  }

  function FirstChild(nodes: seq<Node>, local: string): Option<Node> {
    if nodes == [] then None
    else if IsNamed(nodes[0], local) then Some(nodes[0])
    else FirstChild(nodes[1..], local)
  }

  function Child(parent: Option<Node>, local: string): Option<Node> {
    if parent.None? then None else FirstChild(ChildrenOf(parent.value), local)
  }

  function FirstElement(nodes: seq<Node>): (r: Option<Node>)
    ensures r.Some? ==> r.value.Element?
  {
    if nodes == [] then None else if nodes[0].Element? then Some(nodes[0]) else FirstElement(nodes[1..])
  }

  // xmlNodeGetContent: all text below a node, in order.
  function ContentOf(node: Node): string
    decreases node, 0
  {
    match node
    case Text(content) => content
    case Element(_, _, children) => ContentOfAll(children)
  }

  function ContentOfAll(nodes: seq<Node>): string
    decreases nodes, 1
  {
    if nodes == [] then "" else ContentOf(nodes[0]) + ContentOfAll(nodes[1..])
  }

  function NodeText(node: Option<Node>): string {
    if node.None? then "" else ContentOf(node.value)
  }

  // The xsi:type attribute; the prefix xsi is the one every envelope binds.
  function TypeAttribute(attributes: seq<Attribute>): string {
    if attributes == [] then "xsd:string"
    else if attributes[0].name == QName("xsi", "type") then attributes[0].value
    else TypeAttribute(attributes[1..])
  }

  function LocalType(node: Option<Node>): string {
    if node.None? || node.value.Text? then "xsd:string" else TypeAttribute(node.value.attributes)
  }

  // ---------------------------------------------------------------------
  // Requests.

  datatype ParameterValue = ParameterValue(name: string, value: string, typeName: string)

  datatype DownloadRequest = DownloadRequest(
    commandKey: string,
    fileType: string,
    url: string,
    username: string,
    password: string,
    targetFileName: string,
    delaySeconds: nat)

  datatype ParsedRpc = ParsedRpc(
    method_: string,
    cwmpId: string,
    parameterNames: seq<string>,
    parameterValues: seq<ParameterValue>,
    parameterPath: string,
    parameterKey: string,
    commandKey: string,
    download: Option<DownloadRequest>)

  function ReadNames(nodes: seq<Node>): seq<string> {
    if nodes == [] then []
    else (if IsNamed(nodes[0], "string") then [ContentOf(nodes[0])] else []) + ReadNames(nodes[1..])
  }

  function ReadStruct(item: Node): ParameterValue {
    var value := Child(Some(item), "Value");
    ParameterValue(NodeText(Child(Some(item), "Name")), NodeText(value), LocalType(value))
  }

  function ReadStructs(nodes: seq<Node>): seq<ParameterValue> {
    if nodes == [] then []
    else (if IsNamed(nodes[0], "ParameterValueStruct") then [ReadStruct(nodes[0])] else []) + ReadStructs(nodes[1..])
  }

  function ChildrenOfOption(node: Option<Node>): seq<Node> {
    if node.None? then [] else ChildrenOf(node.value)
  }

  function ReadDelay(text: string, ulongMax: nat): nat {
    if text == "" then 0
    else
      match RuntimeConfig.Stoul(text, ulongMax)
      case Some(p) => RuntimeConfig.ToUnsigned(p.value)
      case None => 0
  }

  function ReadDownload(m: Option<Node>, ulongMax: nat): DownloadRequest {
    DownloadRequest(
      NodeText(Child(m, "CommandKey")),
      NodeText(Child(m, "FileType")),
      NodeText(Child(m, "URL")),
      NodeText(Child(m, "Username")),
      NodeText(Child(m, "Password")),
      NodeText(Child(m, "TargetFileName")),
      ReadDelay(NodeText(Child(m, "DelaySeconds")), ulongMax))
  }

  datatype ParseResult = Parsed(rpc: ParsedRpc) | ParseError(message: string)

  const EMPTY_RPC := ParsedRpc("", "", [], [], "", "", "", None)

  // src/SoapParser.cpp:49-100, from the document's root element on.
  function ParseTree(root: Node, ulongMax: nat): ParseResult {
    match FindDescendant([root], "Body")
    case None => ParseError("SOAP Body missing")
    case Some(body) =>
      var call := if body == [] then None else FirstElement(ChildrenOf(body[0]));
      if call.None? then ParseError("SOAP method missing")
      else
        var header := FindDescendant([root], "Header");
        var id := if header.None? then None else FindDescendant(header.value, "ID");
        var idText := if id.None? || id.value == [] then "" else ContentOf(id.value[0]);
        var rpc := EMPTY_RPC.(method_ := call.value.name.local, cwmpId := idText);
        if rpc.method_ == "GetParameterValues" then
          Parsed(rpc.(parameterNames := ReadNames(ChildrenOfOption(Child(call, "ParameterNames")))))
        else if rpc.method_ == "GetParameterNames" then
          Parsed(rpc.(parameterPath := NodeText(Child(call, "ParameterPath"))))
        else if rpc.method_ == "SetParameterValues" then
          Parsed(rpc.(parameterValues := ReadStructs(ChildrenOfOption(Child(call, "ParameterList"))),
                      parameterKey := NodeText(Child(call, "ParameterKey"))))
        else if rpc.method_ == "Reboot" then
          Parsed(rpc.(commandKey := NodeText(Child(call, "CommandKey"))))
        else if rpc.method_ == "Download" then
          Parsed(rpc.(download := Some(ReadDownload(call, ulongMax))))
        else Parsed(rpc)
  }

  lemma SameFirst(order: seq<Position>, local: string, i: int, found: Option<Position>)
    requires IsFirst(order, local, i) && IsFirstMatch(found, order, local)
    ensures found == Some(order[i])
  {
    hide IsAt;
    if found.Some? {
      var j :| IsFirst(order, local, j) && order[j] == found.value;
      assert i == j;
    }
  }

  // What a SetParameterValues call element asks for.
  function AskedBy(call: Node, cwmpId: string): ParsedRpc {
    EMPTY_RPC.(method_ := "SetParameterValues", cwmpId := cwmpId,
               parameterValues := ReadStructs(ChildrenOfOption(Child(Some(call), "ParameterList"))),
               parameterKey := NodeText(Child(Some(call), "ParameterKey")))
  }

  /** In any tree at all, the request is the first element inside the first Body in document order. */
  lemma CallInFirstBody(root: Node, ulongMax: nat, i: nat, call: Node)
    requires IsFirst(Preorder([root]), "Body", i)
    requires FirstElement(ChildrenOf(Preorder([root])[i][0])) == Some(call) && call.name.local == "SetParameterValues"
    ensures exists id :: ParseTree(root, ulongMax) == Parsed(AskedBy(call, id))
  {
    hide Preorder, FindDescendant, ReadStructs, Child, ReadDownload, ChildrenOf, ContentOf;
    FindsFirstInPreorder([root], "Body");
    SameFirst(Preorder([root]), "Body", i, FindDescendant([root], "Body"));
    assert "SetParameterValues"[0] != "GetParameterValues"[0];
    var rpc := ParseTree(root, ulongMax).rpc;
    assert ParseTree(root, ulongMax) == Parsed(AskedBy(call, rpc.cwmpId));
  }

  predicate HoldsElement(nodes: seq<Node>) {
    exists j :: 0 <= j < |nodes| && nodes[j].Element?
  }

  /** A tree is a request exactly when it has a Body and the first one holds an element. */
  lemma NoRequest(root: Node, ulongMax: nat)
    ensures var order := Preorder([root]);
            match ParseTree(root, ulongMax)
            case Parsed(_) => exists i :: IsFirst(order, "Body", i) && HoldsElement(ChildrenOf(order[i][0]))
            case ParseError(message) =>
              || (message == "SOAP Body missing" && forall i :: 0 <= i < |order| ==> !IsAt(order[i], "Body"))
              || (message == "SOAP method missing" &&
                  exists i :: IsFirst(order, "Body", i) && !HoldsElement(ChildrenOf(order[i][0])))
  {
    hide Preorder, FindDescendant, ReadNames, ReadStructs, Child, ReadDownload, ContentOf, NodeText;
    FindsFirstInPreorder([root], "Body");
    var found := FindDescendant([root], "Body");
    if found.Some? {
      var i :| IsFirst(Preorder([root]), "Body", i) && Preorder([root])[i] == found.value;
      ElementIsFound(ChildrenOf(found.value[0]));
    }
  }

  lemma {:induction false} ElementIsFound(nodes: seq<Node>)
    ensures FirstElement(nodes).Some? <==> HoldsElement(nodes)
  {
    if nodes != [] {
      ElementIsFound(nodes[1..]);
      if HoldsElement(nodes[1..]) {
        var j :| 0 <= j < |nodes[1..]| && nodes[1..][j].Element?;
        assert nodes[j + 1].Element?;
      }
    }
  }

  // ---------------------------------------------------------------------
  // Any other tree with the same call.

  function CallOf(root: Node): Option<Node> {
    match FindDescendant([root], "Body")
    case None => None
    case Some(body) => if body == [] then None else FirstElement(ChildrenOf(body[0]))
  }

  function CwmpIdOf(root: Node): string {
    match FindDescendant([root], "Header")
    case None => ""
    case Some(header) =>
      match FindDescendant(header, "ID")
      case None => ""
      case Some(id) => if id == [] then "" else ContentOf(id[0])
  }

  /** A request depends on its call element and its id alone, wherever in the tree they stand. */
  lemma OnlyCallMatters(a: Node, b: Node, ulongMax: nat, call: Node)
    requires CallOf(a) == Some(call) && CallOf(b) == Some(call) && CwmpIdOf(a) == CwmpIdOf(b)
    ensures ParseTree(a, ulongMax) == ParseTree(b, ulongMax)
  {
    hide FindDescendant, ReadNames, ReadStructs, ReadDownload, Child, NodeText, FirstElement, ContentOf;
  }
}
