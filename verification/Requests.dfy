/** The other requests of an ACS, from their documents to what the parser reads (src/SoapParser.cpp:49-100). */
module Requests {
  import opened Wrappers
  import opened Text
  import opened XmlText
  import opened XmlTree
  import opened SoapParser
  import opened SoapBuilder
  import RuntimeConfig

  // ---------------------------------------------------------------------
  // The calls, in the form of the CWMP schema.

  function NameLeaves(names: seq<string>): seq<Node> {
    if names == [] then [] else [Leaf(Plain("string"), names[0])] + NameLeaves(names[1..])
  }

  function GetCall(names: seq<string>): Node {
    Element(Cwmp("GetParameterValues"), [], [Element(Plain("ParameterNames"), [], NameLeaves(names))])
  }

  function NamesCall(path: string, nextLevel: string): Node {
    Element(Cwmp("GetParameterNames"), [], [Leaf(Plain("ParameterPath"), path), Leaf(Plain("NextLevel"), nextLevel)])
  }

  function RebootCall(key: string): Node {
    Element(Cwmp("Reboot"), [], [Leaf(Plain("CommandKey"), key)])
  }

  // The fields of a Download call; the last four are text for the parser.
  datatype DownloadTexts = DownloadTexts(
    commandKey: string,
    fileType: string,
    url: string,
    username: string,
    password: string,
    fileSize: string,
    targetFileName: string,
    delay: string)

  function DownloadKeys(): (keys: seq<string>)
    ensures |keys| == 8
  {
    ["CommandKey", "FileType", "URL", "Username", "Password", "FileSize", "TargetFileName", "DelaySeconds"]
  }

  function DownloadValues(d: DownloadTexts): (values: seq<string>)
    ensures |values| == 8
  {
    [d.commandKey, d.fileType, d.url, d.username, d.password, d.fileSize, d.targetFileName, d.delay]
  }

  function Leaves(keys: seq<string>, values: seq<string>): (nodes: seq<Node>)
    requires |keys| == |values|
    ensures |nodes| == |keys| && forall i :: 0 <= i < |keys| ==> nodes[i] == Leaf(Plain(keys[i]), values[i])
  {
    if keys == [] then [] else [Leaf(Plain(keys[0]), values[0])] + Leaves(keys[1..], values[1..])
  }

  function DownloadCall(d: DownloadTexts): Node {
    Element(Cwmp("Download"), [], Leaves(DownloadKeys(), DownloadValues(d)))
  }

  // ---------------------------------------------------------------------
  // What is read.

  lemma {:induction false} NamesAreRead(names: seq<string>)
    ensures ReadNames(NameLeaves(names)) == names
  {
    hide ContentOf, TextNodes;
    if names != [] {
      NamesAreRead(names[1..]);
      LeafContent("string", names[0]);
      assert [names[0]] + names[1..] == names;
    }
  }

  lemma LeafContent(name: string, text: string)
    ensures ContentOf(Leaf(Plain(name), text)) == text
  {
    TextNodesContent(text);
  }

  lemma CallNamesDiffer()
    ensures "GetParameterNames" != "GetParameterValues" && "Reboot"[0] == 'R' && "Download"[0] == 'D'
    ensures "GetParameterNames"[0] == 'G' && "GetParameterValues"[0] == 'G' && "SetParameterValues"[0] == 'S'
  {
  }

  /** The names of a GetParameterValues call, in order. */
  lemma GetCallParses(id: string, names: seq<string>, ulongMax: nat)
    ensures ParseTree(Envelope(id, GetCall(names)), ulongMax) ==
            Parsed(EMPTY_RPC.(method_ := "GetParameterValues", cwmpId := id, parameterNames := names))
  {
    hide Envelope, Header, FindDescendant, ReadDownload, NameLeaves, ReadNames;
    var call := GetCall(names);
    EnvelopeIsSearched(id, call);
    assert FirstElement([call]) == Some(call);
    NamesAreRead(names);
    FirstIs(call.children, 0, "ParameterNames");
  }

  /** The path of a GetParameterNames call. */
  lemma NamesCallParses(id: string, path: string, nextLevel: string, ulongMax: nat)
    ensures ParseTree(Envelope(id, NamesCall(path, nextLevel)), ulongMax) ==
            Parsed(EMPTY_RPC.(method_ := "GetParameterNames", cwmpId := id, parameterPath := path))
  {
    hide Envelope, Header, FindDescendant, ReadDownload, NodeText, Child, TextNodes;
    var call := NamesCall(path, nextLevel);
    EnvelopeIsSearched(id, call);
    assert FirstElement([call]) == Some(call);
    CallNamesDiffer();
    LeafIsFound(Cwmp("GetParameterNames"), call.children, 0, "ParameterPath", path);
  }

  /** The command key of a Reboot call. */
  lemma RebootCallParses(id: string, key: string, ulongMax: nat)
    ensures ParseTree(Envelope(id, RebootCall(key)), ulongMax) ==
            Parsed(EMPTY_RPC.(method_ := "Reboot", cwmpId := id, commandKey := key))
  {
    hide Envelope, Header, FindDescendant, ReadDownload, NodeText, Child, TextNodes;
    var call := RebootCall(key);
    EnvelopeIsSearched(id, call);
    assert FirstElement([call]) == Some(call);
    CallNamesDiffer();
    LeafIsFound(Cwmp("Reboot"), call.children, 0, "CommandKey", key);
  }

  lemma DownloadKeysDiffer(i: nat, j: nat)
    requires i < j < 8
    ensures DownloadKeys()[i] != DownloadKeys()[j]
  {
    assert "Password"[0] == 'P' && "Username"[0] == 'U' && "URL"[1] == 'R' && "Username"[1] == 's';
    assert "FileType"[4] == 'T' && "FileSize"[4] == 'S' && "CommandKey"[0] == 'C' && "TargetFileName"[0] == 'T';
    assert "DelaySeconds"[0] == 'D' && "URL"[0] == 'U' && "FileType"[0] == 'F' && "FileSize"[0] == 'F';
  }

  lemma FieldIsRead(d: DownloadTexts, i: nat)
    requires i < 8
    ensures NodeText(Child(Some(DownloadCall(d)), DownloadKeys()[i])) == DownloadValues(d)[i]
  {
    hide NodeText, Child, TextNodes, DownloadKeys, DownloadValues;
    var nodes := Leaves(DownloadKeys(), DownloadValues(d));
    forall j: nat | j < i ensures !IsNamed(nodes[j], DownloadKeys()[i]) {
      DownloadKeysDiffer(j, i);
    }
    LeafIsFound(Cwmp("Download"), nodes, i, DownloadKeys()[i], DownloadValues(d)[i]);
  }

  lemma DownloadIsRead(d: DownloadTexts, ulongMax: nat)
    ensures ReadDownload(Some(DownloadCall(d)), ulongMax) ==
            DownloadRequest(d.commandKey, d.fileType, d.url, d.username, d.password, d.targetFileName,
                            ReadDelay(d.delay, ulongMax))
  {
    hide NodeText, Child, DownloadCall, ReadDelay;
    FieldIsRead(d, 0);
    FieldIsRead(d, 1);
    FieldIsRead(d, 2);
    FieldIsRead(d, 3);
    FieldIsRead(d, 4);
    FieldIsRead(d, 6);
    FieldIsRead(d, 7);
  }

  /** Every field of a Download call; its delay is a number of seconds. */
  lemma DownloadCallParses(id: string, d: DownloadTexts, ulongMax: nat)
    ensures ParseTree(Envelope(id, DownloadCall(d)), ulongMax) ==
            Parsed(EMPTY_RPC.(method_ := "Download", cwmpId := id, download := Some(
              DownloadRequest(d.commandKey, d.fileType, d.url, d.username, d.password, d.targetFileName,
                              ReadDelay(d.delay, ulongMax)))))
  {
    hide Envelope, Header, FindDescendant, ReadDownload, Leaves, ReadDelay, DownloadKeys, DownloadValues;
    var call := DownloadCall(d);
    EnvelopeIsSearched(id, call);
    assert FirstElement([call]) == Some(call);
    CallNamesDiffer();
    DownloadIsRead(d, ulongMax);
  }

  /** A delay is exact when it is a numeral below 2^32; without one, or with no number, there is none. */
  lemma DelayIsExact(text: string, ulongMax: nat)
    requires RuntimeConfig.IsUlongMax(ulongMax)
    ensures IsNumeral(text) && DecimalValue(text) < RuntimeConfig.UINT_RANGE ==>
              ReadDelay(text, ulongMax) == DecimalValue(text)
    ensures text == "" || RuntimeConfig.Stoul(text, ulongMax).None? ==> ReadDelay(text, ulongMax) == 0
  {
    hide RuntimeConfig.Stoul, DecimalValue, IsNumeral;
    if IsNumeral(text) {
      RuntimeConfig.StoulOfNumeral(text, ulongMax);
      NumeralIsSomething(text);
    }
  }

  lemma NumeralIsSomething(s: string)
    requires IsNumeral(s)
    ensures s != ""
  {
  }

  // ---------------------------------------------------------------------
  // Calls with parts missing.

  /** A value without a declared type is a string; a struct without name or value has empty ones. */
  lemma MissingTypeIsString(name: string, value: string)
    ensures ReadStruct(Element(Plain("ParameterValueStruct"), [],
                               [Leaf(Plain("Name"), name), Leaf(Plain("Value"), value)])) ==
            ParameterValue(name, value, "xsd:string")
    ensures ReadStruct(Element(Plain("ParameterValueStruct"), [], [])) == ParameterValue("", "", "xsd:string")
  {
    hide TextNodes;
    var nodes := [Leaf(Plain("Name"), name), Leaf(Plain("Value"), value)];
    assert "Name"[0] != "Value"[0];
    LeafIsFound(Plain("ParameterValueStruct"), nodes, 0, "Name", name);
    LeafIsFound(Plain("ParameterValueStruct"), nodes, 1, "Value", value);
    FirstIs(nodes, 1, "Value");
  }

  /** A call without its parts has empty ones; any other method has none to look for. */
  lemma EmptyCallParses(id: string, method_: string, ulongMax: nat)
    ensures ParseTree(Envelope(id, Element(Cwmp(method_), [], [])), ulongMax) ==
            Parsed(EMPTY_RPC.(method_ := method_, cwmpId := id,
                              download := if method_ == "Download" then Some(DownloadRequest("", "", "", "", "", "", 0))
                                          else None))
  {
    hide Envelope, Header, FindDescendant;
    var call := Element(Cwmp(method_), [], []);
    EnvelopeIsSearched(id, call);
    assert FirstElement([call]) == Some(call);
    CallNamesDiffer();
  }

  // ---------------------------------------------------------------------
  // From the text.

  lemma CallParts()
    ensures IsPart("GetParameterValues") && IsPart("string") && IsPart("ParameterNames")
  {
  }

  lemma NamesCallParts()
    ensures IsPart("GetParameterNames") && IsPart("ParameterPath") && IsPart("NextLevel")
  {
  }

  lemma OtherCallParts()
    ensures IsPart("Reboot") && IsPart("Download") && IsPart("CommandKey")
  {
  }

  lemma DownloadParts()
    ensures IsPart("FileType") && IsPart("URL") && IsPart("Username") && IsPart("Password") && IsPart("FileSize")
  {
  }

  lemma LastDownloadParts()
    ensures IsPart("TargetFileName") && IsPart("DelaySeconds")
  {
  }

  lemma DownloadKeyIsPart(i: nat)
    requires i < 8
    ensures IsPart(DownloadKeys()[i])
  {
    hide IsPart;
    OtherCallParts();
    DownloadParts();
    LastDownloadParts();
  }

  predicate AllTexts(texts: seq<string>) {
    forall i :: 0 <= i < |texts| ==> AllReadable(texts[i], false)
  }

  lemma {:induction false} KeptLeaves(keys: seq<string>, values: seq<string>)
    requires |keys| == |values| && AllTexts(values) && forall i :: 0 <= i < |keys| ==> IsPart(keys[i])
    ensures AllKept(Leaves(keys, values))
  {
    hide Kept, IsPart, AllReadable, TextNodes, IsQName;
    if keys != [] {
      KeptLeaves(keys[1..], values[1..]);
      PartsMakeNames("", keys[0]);
      KeptText(Plain(keys[0]), values[0]);
    }
  }

  lemma {:induction false} KeptNames(names: seq<string>)
    requires AllTexts(names)
    ensures AllKept(NameLeaves(names))
  {
    hide Kept, IsPart, AllReadable, TextNodes, IsQName;
    if names != [] {
      KeptNames(names[1..]);
      CallParts();
      PartsMakeNames("", "string");
      KeptText(Plain("string"), names[0]);
    }
  }

  // A document around a call.
  function DocumentOf(id: string, call: Node): string {
    PROLOGUE + Print(Envelope(id, call))
  }

  lemma CallDocument(id: string, name: string, children: seq<Node>)
    requires AllReadable(id, false) && IsPart(name) && AllKept(children)
    ensures ReadDocument(DocumentOf(id, Element(Cwmp(name), [], children))) == Some(Envelope(id, Element(Cwmp(name), [], children)))
  {
    hide Print, Envelope, ReadDocument, Kept, IsQName, IsPart, AllReadable;
    OtherParts();
    PartsMakeNames("cwmp", name);
    KeptWrapped(Cwmp(name), children);
    KeptEnvelope(id, Element(Cwmp(name), [], children));
    EnvelopeIsElement(id, Element(Cwmp(name), [], children));
    DocumentReadsBack(Envelope(id, Element(Cwmp(name), [], children)));
  }

  ghost predicate ReadsAs(text: string, ulongMax: nat, rpc: ParsedRpc) {
    ReadDocument(text).Some? && ParseTree(ReadDocument(text).value, ulongMax) == Parsed(rpc)
  }

  lemma GetRequestReadsBack(id: string, names: seq<string>, ulongMax: nat)
    requires AllReadable(id, false) && AllTexts(names)
    ensures ReadsAs(DocumentOf(id, GetCall(names)), ulongMax,
                    EMPTY_RPC.(method_ := "GetParameterValues", cwmpId := id, parameterNames := names))
  {
    hide DocumentOf, ReadDocument, ParseTree, IsPart, IsQName, AllReadable, NameLeaves, Envelope;
    CallParts();
    PartsMakeNames("", "ParameterNames");
    KeptNames(names);
    var list := Element(Plain("ParameterNames"), [], NameLeaves(names));
    KeptWrapped(Plain("ParameterNames"), NameLeaves(names));
    KeptOne(list);
    CallDocument(id, "GetParameterValues", [list]);
    GetCallParses(id, names, ulongMax);
  }

  lemma NamesRequestReadsBack(id: string, path: string, nextLevel: string, ulongMax: nat)
    requires AllReadable(id, false) && AllReadable(path, false) && AllReadable(nextLevel, false)
    ensures ReadsAs(DocumentOf(id, NamesCall(path, nextLevel)), ulongMax,
                    EMPTY_RPC.(method_ := "GetParameterNames", cwmpId := id, parameterPath := path))
  {
    hide DocumentOf, ReadDocument, ParseTree, IsPart, IsQName, AllReadable, TextNodes, Envelope, Kept;
    NamesCallParts();
    PartsMakeNames("", "ParameterPath");
    PartsMakeNames("", "NextLevel");
    KeptText(Plain("ParameterPath"), path);
    KeptText(Plain("NextLevel"), nextLevel);
    KeptPair(Leaf(Plain("ParameterPath"), path), Leaf(Plain("NextLevel"), nextLevel));
    CallDocument(id, "GetParameterNames", NamesCall(path, nextLevel).children);
    NamesCallParses(id, path, nextLevel, ulongMax);
  }

  lemma RebootRequestReadsBack(id: string, key: string, ulongMax: nat)
    requires AllReadable(id, false) && AllReadable(key, false)
    ensures ReadsAs(DocumentOf(id, RebootCall(key)), ulongMax,
                    EMPTY_RPC.(method_ := "Reboot", cwmpId := id, commandKey := key))
  {
    hide DocumentOf, ReadDocument, ParseTree, IsPart, IsQName, AllReadable, TextNodes, Envelope, Kept;
    OtherCallParts();
    PartsMakeNames("", "CommandKey");
    KeptText(Plain("CommandKey"), key);
    KeptOne(Leaf(Plain("CommandKey"), key));
    CallDocument(id, "Reboot", RebootCall(key).children);
    RebootCallParses(id, key, ulongMax);
  }

  lemma DownloadRequestReadsBack(id: string, d: DownloadTexts, ulongMax: nat)
    requires AllReadable(id, false) && AllTexts(DownloadValues(d))
    ensures ReadsAs(DocumentOf(id, DownloadCall(d)), ulongMax,
                    EMPTY_RPC.(method_ := "Download", cwmpId := id, download := Some(
                      DownloadRequest(d.commandKey, d.fileType, d.url, d.username, d.password, d.targetFileName,
                                      ReadDelay(d.delay, ulongMax)))))
  {
    hide DocumentOf, ReadDocument, ParseTree, IsPart, IsQName, AllReadable, TextNodes, Envelope, Kept, ReadDelay,
         DownloadKeys, DownloadValues, Leaves;
    OtherCallParts();
    forall i: nat | i < 8 ensures IsPart(DownloadKeys()[i]) {
      DownloadKeyIsPart(i);
    }
    KeptLeaves(DownloadKeys(), DownloadValues(d));
    CallDocument(id, "Download", DownloadCall(d).children);
    DownloadCallParses(id, d, ulongMax);
  }
}
