/**
 The documents a session opens with, Inform and TransferComplete (src/SoapBuilder.cpp:50-84),
 and what an ACS reads in them.
 */
module Informs {
  import opened Wrappers
  import opened Text
  import opened XmlText
  import opened XmlTree
  import opened SoapParser
  import opened SoapBuilder
  import opened Replies
  import CwmpSession

  type TransferResult = CwmpSession.TransferResult

  datatype DeviceId = DeviceId(manufacturer: string, oui: string, productClass: string, serialNumber: string)

  datatype Inform = Inform(device: DeviceId, events: seq<string>, time: string, retries: nat, values: seq<ParameterValue>)

  // ---------------------------------------------------------------------
  // What an ACS reads.

  function Part(call: Option<Node>, name: string): string {
    NodeText(Child(call, name))
  }

  // The entries under an element that announces how many it has, and of which kind.
  function Announced(list: Option<Node>, kind: string): Option<seq<Node>> {
    if list.Some? && list.value.Element? &&
       AnnouncedBy(AttributeOf(list.value.attributes, QName("soap-enc", "arrayType")), kind) == Some(|list.value.children|)
    then Some(list.value.children) else None
  }

  function ReadEvents(nodes: seq<Node>): seq<string> {
    if nodes == [] then []
    else (if IsNamed(nodes[0], "EventStruct") then [Part(Some(nodes[0]), "EventCode")] else []) + ReadEvents(nodes[1..])
  }

  function ReadInform(root: Node): Option<Inform> {
    match CallOf(root)
    case None => None
    case Some(call) =>
      var device := Child(Some(call), "DeviceId");
      var events := Announced(Child(Some(call), "Event"), "EventStruct");
      var values := Announced(Child(Some(call), "ParameterList"), "ParameterValueStruct");
      var retries := Part(Some(call), "RetryCount");
      if call.name.local != "Inform" || events.None? || values.None? || !IsNumeral(retries) then None
      else
        Some(Inform(DeviceId(Part(device, "Manufacturer"), Part(device, "OUI"), Part(device, "ProductClass"),
                             Part(device, "SerialNumber")),
                    ReadEvents(events.value), Part(Some(call), "CurrentTime"), DecimalValue(retries),
                    ReadStructs(values.value)))
  }

  // A number with an optional minus sign.
  function ReadInteger(text: string): Option<int> {
    if IsNumeral(text) then Some(DecimalValue(text))
    else if text != "" && text[0] == '-' && IsNumeral(text[1..]) then Some(0 - DecimalValue(text[1..]))
    else None
  }

  function ReadTransfer(root: Node): Option<TransferResult> {
    match CallOf(root)
    case None => None
    case Some(call) =>
      var fault := Child(Some(call), "FaultStruct");
      var code := ReadInteger(Part(fault, "FaultCode"));
      if call.name.local != "TransferComplete" || code.None? then None
      else
        Some(CwmpSession.TransferResult(Part(Some(call), "CommandKey"), code.value, Part(fault, "FaultString"),
                                        Part(Some(call), "StartTime"), Part(Some(call), "CompleteTime")))
  }

  // ---------------------------------------------------------------------
  // The trees.

  function DeviceNode(d: DeviceId): Node {
    Element(Plain("DeviceId"), [],
            [Leaf(Plain("Manufacturer"), d.manufacturer), Leaf(Plain("OUI"), d.oui),
             Leaf(Plain("ProductClass"), d.productClass), Leaf(Plain("SerialNumber"), d.serialNumber)])
  }

  function EventNode(code: string): Node {
    Element(Plain("EventStruct"), [], [Leaf(Plain("EventCode"), code), Leaf(Plain("CommandKey"), "")])
  }

  function EventNodes(events: seq<string>): (nodes: seq<Node>)
    ensures |nodes| == |events|
  {
    if events == [] then [] else [EventNode(events[0])] + EventNodes(events[1..])
  }

  function EventList(events: seq<string>): Node {
    Element(Plain("Event"), [Attribute(QName("soap-enc", "arrayType"), ArrayType("EventStruct", |events|))],
            EventNodes(events))
  }

  function InformParts(i: Inform): (parts: seq<Node>)
    ensures |parts| == 6
  {
    [DeviceNode(i.device), EventList(i.events), Leaf(Plain("MaxEnvelopes"), "1"), Leaf(Plain("CurrentTime"), i.time),
     Leaf(Plain("RetryCount"), Decimal(i.retries)), ListNode(i.values)]
  }

  function InformNode(i: Inform): Node {
    Element(Cwmp("Inform"), [], InformParts(i))
  }

  function IntegerText(n: int): string {
    if n < 0 then "-" + Decimal(0 - n) else Decimal(n)
  }

  function TransferFault(r: TransferResult): Node {
    Element(Plain("FaultStruct"), [],
            [Leaf(Plain("FaultCode"), IntegerText(r.faultCode)), Leaf(Plain("FaultString"), r.faultString)])
  }

  function TransferParts(r: TransferResult): (parts: seq<Node>)
    ensures |parts| == 4
  {
    [Leaf(Plain("CommandKey"), r.commandKey), TransferFault(r), Leaf(Plain("StartTime"), r.startTime),
     Leaf(Plain("CompleteTime"), r.completeTime)]
  }

  function TransferNode(r: TransferResult): Node {
    Element(Cwmp("TransferComplete"), [], TransferParts(r))
  }

  // ---------------------------------------------------------------------
  // The texts.

  function DeviceText(d: DeviceId): string {
    Open(Plain("DeviceId")) + Raw("Manufacturer", Escape(d.manufacturer)) + Raw("OUI", Escape(d.oui)) +
    Raw("ProductClass", Escape(d.productClass)) + Raw("SerialNumber", Escape(d.serialNumber)) + Close(Plain("DeviceId"))
  }

  function EventText(code: string): string {
    Between(Plain("EventStruct"), Raw("EventCode", Escape(code)) + Raw("CommandKey", ""))
  }

  function EventTexts(events: seq<string>): string {
    if events == [] then "" else EventText(events[0]) + EventTexts(events[1..])
  }

  function EventListText(n: nat, events: string): string {
    OpenWith(Plain("Event"), QName("soap-enc", "arrayType"), ArrayType("EventStruct", n)) + events + Close(Plain("Event"))
  }

  function TimeText(time: string, retries: nat): string {
    Raw("MaxEnvelopes", "1") + (Raw("CurrentTime", Escape(time)) + Raw("RetryCount", Decimal(retries)))
  }

  // src/SoapBuilder.cpp:50-73; the device's fields, the time and the parameters come from outside.
  method InformBody(i: Inform) returns (body: string)
    ensures body == Between(Cwmp("Inform"), DeviceText(i.device) +
                            (EventListText(|i.events|, EventTexts(i.events)) +
                             (TimeText(i.time, i.retries) + ListText(|i.values|, PrintAll(StructNodes(i.values))))))
  {
    hide DeviceText, EventText, EventListText, TimeText, ListText, PrintAll, Between;
    var list := "";
    for k := 0 to |i.events|
      invariant list + EventTexts(i.events[k..]) == EventTexts(i.events)
    {
      assert i.events[k..][1..] == i.events[k + 1..];
      list := list + EventText(i.events[k]);
    }
    assert list == EventTexts(i.events);
    var structs := BuildStructs(i.values);
    body := Between(Cwmp("Inform"), DeviceText(i.device) +
                    (EventListText(|i.events|, list) + (TimeText(i.time, i.retries) + ListText(|i.values|, structs))));
  }

  function TransferFaultText(r: TransferResult): string {
    Between(Plain("FaultStruct"), Raw("FaultCode", IntegerText(r.faultCode)) + Raw("FaultString", Escape(r.faultString)))
  }

  // src/SoapBuilder.cpp:75-84
  function TransferBody(r: TransferResult): string {
    Between(Cwmp("TransferComplete"), Raw("CommandKey", Escape(r.commandKey)) +
            (TransferFaultText(r) + (Raw("StartTime", Escape(r.startTime)) + Raw("CompleteTime", Escape(r.completeTime)))))
  }

  // ---------------------------------------------------------------------
  // The texts read as the trees.

  lemma DeviceParts()
    ensures IsPart("DeviceId") && IsPart("Manufacturer") && IsPart("OUI")
    ensures IsPart("ProductClass") && IsPart("SerialNumber")
  {
  }

  lemma EventParts()
    ensures IsPart("Event") && IsPart("EventStruct") && IsPart("EventCode") && IsPart("CommandKey") && IsPart("Inform")
  {
  }

  lemma TimeParts()
    ensures IsPart("MaxEnvelopes") && IsPart("CurrentTime") && IsPart("RetryCount")
  {
  }

  lemma TransferPartNames()
    ensures IsPart("TransferComplete") && IsPart("FaultStruct")
  {
  }

  lemma Four(x: string, a: Node, y: string, b: Node, z: string, c: Node, w: string, d: Node)
    requires Renders(x, a) && Renders(y, b) && Renders(z, c) && Renders(w, d)
    ensures RendersAll(x + (y + (z + w)), [a, b, c, d])
  {
    hide Renders, RendersAll;
    Three(y, b, z, c, w, d);
    OneMoreRenders(x, a, y + (z + w), [b, c, d]);
    assert [a] + [b, c, d] == [a, b, c, d];
  }

  predicate IsReadableDevice(d: DeviceId) {
    AllReadable(d.manufacturer, false) && AllReadable(d.oui, false) && AllReadable(d.productClass, false) &&
    AllReadable(d.serialNumber, false)
  }

  lemma DeviceRenders(d: DeviceId)
    requires IsReadableDevice(d)
    ensures Renders(DeviceText(d), DeviceNode(d))
  {
    hide Renders, RendersAll, IsPart, Raw, IsQName, AllReadable, Open, Close;
    DeviceParts();
    LeafRenders("Manufacturer", d.manufacturer);
    LeafRenders("OUI", d.oui);
    LeafRenders("ProductClass", d.productClass);
    LeafRenders("SerialNumber", d.serialNumber);
    var m, o, p, s := Raw("Manufacturer", Escape(d.manufacturer)), Raw("OUI", Escape(d.oui)),
                      Raw("ProductClass", Escape(d.productClass)), Raw("SerialNumber", Escape(d.serialNumber));
    Four(m, Leaf(Plain("Manufacturer"), d.manufacturer), o, Leaf(Plain("OUI"), d.oui),
         p, Leaf(Plain("ProductClass"), d.productClass), s, Leaf(Plain("SerialNumber"), d.serialNumber));
    PartsMakeNames("", "DeviceId");
    Wrapped(Plain("DeviceId"), m + (o + (p + s)), DeviceNode(d).children);
    FourJoined(Open(Plain("DeviceId")), m, o, p, s, Close(Plain("DeviceId")));
  }

  lemma FourJoined(open_: string, m: string, o: string, p: string, s: string, close: string)
    ensures open_ + m + o + p + s + close == open_ + (m + (o + (p + s))) + close
  {
  }

  lemma EventRenders(code: string)
    requires AllReadable(code, false)
    ensures Renders(EventText(code), EventNode(code))
  {
    hide Renders, RendersAll, IsPart, Raw, IsQName, Between, IsInert;
    EventParts();
    LeafRenders("EventCode", code);
    NothingIsInert();
    InertRenders("CommandKey", "");
    Two(Raw("EventCode", Escape(code)), Leaf(Plain("EventCode"), code), Raw("CommandKey", ""), Leaf(Plain("CommandKey"), ""));
    PartsMakeNames("", "EventStruct");
    Wrapped(Plain("EventStruct"), Raw("EventCode", Escape(code)) + Raw("CommandKey", ""), EventNode(code).children);
  }

  lemma NothingIsInert()
    ensures IsInert("") && IsInert("1")
  {
  }

  lemma {:induction false} EventsRender(events: seq<string>)
    requires AllNamesReadable(events)
    ensures RendersAll(EventTexts(events), EventNodes(events))
  {
    hide Renders, RendersAll, EventText, EventNode, AllReadable;
    if events == [] {
      NothingRenders();
    } else {
      EventRenders(events[0]);
      EventsRender(events[1..]);
      OneMoreRenders(EventText(events[0]), EventNode(events[0]), EventTexts(events[1..]), EventNodes(events[1..]));
    }
  }

  lemma EventTypeIsInert(n: nat)
    ensures IsInert(ArrayType("EventStruct", n))
  {
  }

  lemma EventListRenders(events: seq<string>)
    requires AllNamesReadable(events)
    ensures Renders(EventListText(|events|, EventTexts(events)), EventList(events))
  {
    hide Renders, RendersAll, IsPart, IsQName, ArrayType, AllNamesReadable, EventTexts, EventNodes, Written, Escape, IsInert,
         AllReadable;
    var a := Attribute(QName("soap-enc", "arrayType"), ArrayType("EventStruct", |events|));
    ParameterParts();
    EventParts();
    PartsMakeNames("", "Event");
    PartsMakeNames("soap-enc", "arrayType");
    EventTypeIsInert(|events|);
    InertIsUnchanged(a.value);
    EventsRender(events);
    AroundRenders(Plain("Event"), [a], EventTexts(events), EventNodes(events));
    OneAttribute(Plain("Event"), a, EventTexts(events));
  }

  lemma ValuesRender(values: seq<ParameterValue>)
    requires AllReadableValues(values)
    ensures Renders(ListText(|values|, PrintAll(StructNodes(values))), ListNode(values))
  {
    hide Renders, ListText, Print, Kept, StructNodes, AllReadableValues, ArrayType;
    ListTextIsPrinted(values);
    KeptList(values);
    PrintRenders(ListNode(values));
  }

  predicate IsReadableInform(i: Inform) {
    IsReadableDevice(i.device) && AllNamesReadable(i.events) && AllReadable(i.time, false) && AllReadableValues(i.values)
  }

  lemma TimeRenders(time: string, retries: nat, tail: string, node: Node)
    requires AllReadable(time, false) && Renders(tail, node)
    ensures RendersAll(TimeText(time, retries) + tail,
                       [Leaf(Plain("MaxEnvelopes"), "1"), Leaf(Plain("CurrentTime"), time),
                        Leaf(Plain("RetryCount"), Decimal(retries)), node])
  {
    hide Renders, RendersAll, IsPart, Raw, IsInert, AllReadable;
    TimeParts();
    NothingIsInert();
    DecimalIsInert(retries);
    InertRenders("MaxEnvelopes", "1");
    LeafRenders("CurrentTime", time);
    InertRenders("RetryCount", Decimal(retries));
    var e, t, r := Raw("MaxEnvelopes", "1"), Raw("CurrentTime", Escape(time)), Raw("RetryCount", Decimal(retries));
    Four(e, Leaf(Plain("MaxEnvelopes"), "1"), t, Leaf(Plain("CurrentTime"), time),
         r, Leaf(Plain("RetryCount"), Decimal(retries)), tail, node);
    assert e + (t + r) + tail == e + (t + (r + tail));
  }

  lemma InformRenders(i: Inform, body: string)
    requires IsReadableInform(i)
    requires body == Between(Cwmp("Inform"), DeviceText(i.device) +
                             (EventListText(|i.events|, EventTexts(i.events)) +
                              (TimeText(i.time, i.retries) + ListText(|i.values|, PrintAll(StructNodes(i.values))))))
    ensures Renders(body, InformNode(i))
  {
    hide Renders, RendersAll, DeviceText, EventListText, TimeText, ListText, PrintAll, DeviceNode, EventList, ListNode, IsPart,
         IsQName, Between, IsReadableDevice, AllNamesReadable, AllReadable, AllReadableValues, StructNodes, EventTexts;
    DeviceRenders(i.device);
    EventListRenders(i.events);
    ValuesRender(i.values);
    var d, e := DeviceText(i.device), EventListText(|i.events|, EventTexts(i.events));
    var v := ListText(|i.values|, PrintAll(StructNodes(i.values)));
    TimeRenders(i.time, i.retries, v, ListNode(i.values));
    var rest := [Leaf(Plain("MaxEnvelopes"), "1"), Leaf(Plain("CurrentTime"), i.time),
                 Leaf(Plain("RetryCount"), Decimal(i.retries)), ListNode(i.values)];
    OneMoreRenders(e, EventList(i.events), TimeText(i.time, i.retries) + v, rest);
    OneMoreRenders(d, DeviceNode(i.device), e + (TimeText(i.time, i.retries) + v), [EventList(i.events)] + rest);
    assert [DeviceNode(i.device)] + ([EventList(i.events)] + rest) == InformParts(i);
    EventParts();
    OtherParts();
    PartsMakeNames("cwmp", "Inform");
    Wrapped(Cwmp("Inform"), d + (e + (TimeText(i.time, i.retries) + v)), InformParts(i));
  }

  predicate IsReadableTransfer(r: TransferResult) {
    AllReadable(r.commandKey, false) && AllReadable(r.faultString, false) && AllReadable(r.startTime, false) &&
    AllReadable(r.completeTime, false)
  }

  lemma IntegerIsInert(n: int)
    ensures IsInert(IntegerText(n))
  {
    if n < 0 {
      DecimalIsInert(0 - n);
      assert IsInert("-");
    } else {
      DecimalIsInert(n);
    }
  }

  lemma TransferRenders(r: TransferResult)
    requires IsReadableTransfer(r)
    ensures Renders(TransferBody(r), TransferNode(r))
  {
    hide Renders, RendersAll, IsPart, IsQName, Between, AllReadable, Raw, IsInert, IntegerText;
    EventParts();
    TransferPartNames();
    DetailParts();
    StatusParts();
    OtherParts();
    LeafRenders("CommandKey", r.commandKey);
    LeafRenders("StartTime", r.startTime);
    LeafRenders("CompleteTime", r.completeTime);
    IntegerIsInert(r.faultCode);
    InertRenders("FaultCode", IntegerText(r.faultCode));
    LeafRenders("FaultString", r.faultString);
    var code, text := Raw("FaultCode", IntegerText(r.faultCode)), Raw("FaultString", Escape(r.faultString));
    Two(code, Leaf(Plain("FaultCode"), IntegerText(r.faultCode)), text, Leaf(Plain("FaultString"), r.faultString));
    PartsMakeNames("", "FaultStruct");
    Wrapped(Plain("FaultStruct"), code + text, TransferFault(r).children);
    var key, start, end := Raw("CommandKey", Escape(r.commandKey)), Raw("StartTime", Escape(r.startTime)),
                           Raw("CompleteTime", Escape(r.completeTime));
    Four(key, Leaf(Plain("CommandKey"), r.commandKey), TransferFaultText(r), TransferFault(r),
         start, Leaf(Plain("StartTime"), r.startTime), end, Leaf(Plain("CompleteTime"), r.completeTime));
    PartsMakeNames("cwmp", "TransferComplete");
    Wrapped(Cwmp("TransferComplete"), key + (TransferFaultText(r) + (start + end)), TransferParts(r));
  }

  // ---------------------------------------------------------------------
  // The trees tell what was reported.

  lemma EventIsRead(code: string)
    ensures Part(Some(EventNode(code)), "EventCode") == code && IsNamed(EventNode(code), "EventStruct")
  {
    hide NodeText, Child, TextNodes;
    LeafIsFound(Plain("EventStruct"), EventNode(code).children, 0, "EventCode", code);
  }

  lemma {:induction false} EventsAreRead(events: seq<string>)
    ensures ReadEvents(EventNodes(events)) == events
  {
    hide Part, EventNode, IsNamed;
    if events != [] {
      EventsAreRead(events[1..]);
      EventIsRead(events[0]);
      assert [events[0]] + events[1..] == events;
    }
  }

  lemma DeviceNamesDiffer()
    ensures "Manufacturer" != "OUI" && "Manufacturer" != "ProductClass" && "Manufacturer" != "SerialNumber"
    ensures "OUI" != "ProductClass" && "OUI" != "SerialNumber" && "ProductClass" != "SerialNumber"
  {
    assert "Manufacturer"[0] == 'M' && "OUI"[0] == 'O' && "ProductClass"[0] == 'P' && "SerialNumber"[0] == 'S';
  }

  lemma DeviceIsRead(d: DeviceId)
    ensures var node := Some(DeviceNode(d));
            Part(node, "Manufacturer") == d.manufacturer && Part(node, "OUI") == d.oui &&
            Part(node, "ProductClass") == d.productClass && Part(node, "SerialNumber") == d.serialNumber
  {
    hide NodeText, Child, TextNodes;
    var nodes := DeviceNode(d).children;
    DeviceNamesDiffer();
    LeafIsFound(Plain("DeviceId"), nodes, 0, "Manufacturer", d.manufacturer);
    LeafIsFound(Plain("DeviceId"), nodes, 1, "OUI", d.oui);
    LeafIsFound(Plain("DeviceId"), nodes, 2, "ProductClass", d.productClass);
    LeafIsFound(Plain("DeviceId"), nodes, 3, "SerialNumber", d.serialNumber);
  }

  lemma PartNamesDiffer()
    ensures "DeviceId"[0] == 'D' && "Event"[0] == 'E' && "MaxEnvelopes"[0] == 'M' && "CurrentTime"[0] == 'C'
    ensures "RetryCount"[0] == 'R' && "ParameterList"[0] == 'P'
  {
  }

  lemma ListIsAnnounced(name: string, kind: string, nodes: seq<Node>)
    requires '[' !in kind
    ensures Announced(Some(Element(Plain(name), [Attribute(QName("soap-enc", "arrayType"), ArrayType(kind, |nodes|))], nodes)),
                      kind) == Some(nodes)
  {
    hide AnnouncedBy, ArrayType;
    CountIsAnnounced(kind, |nodes|);
  }

  lemma InformPartsAreFound(i: Inform)
    ensures var call := Some(InformNode(i));
            && Child(call, "DeviceId") == Some(DeviceNode(i.device)) && Child(call, "Event") == Some(EventList(i.events))
            && Child(call, "ParameterList") == Some(ListNode(i.values))
            && Part(call, "CurrentTime") == i.time && Part(call, "RetryCount") == Decimal(i.retries)
  {
    hide EventNodes, StructNodes, TextNodes, ArrayType, NodeText;
    var nodes := InformParts(i);
    PartNamesDiffer();
    assert forall k :: 0 <= k < 6 ==> nodes[k].Element?;
    FirstIs(nodes, 0, "DeviceId");
    FirstIs(nodes, 1, "Event");
    FirstIs(nodes, 5, "ParameterList");
    hide Child;
    LeafIsFound(Cwmp("Inform"), nodes, 3, "CurrentTime", i.time);
    LeafIsFound(Cwmp("Inform"), nodes, 4, "RetryCount", Decimal(i.retries));
  }

  /** An Inform is told from its tree: the device, the events in order, the time, the retries, the values with their types. */
  lemma InformIsTold(id: string, i: Inform)
    ensures ReadInform(Envelope(id, InformNode(i))) == Some(i) && CwmpIdOf(Envelope(id, InformNode(i))) == id
  {
    hide Envelope, CallOf, CwmpIdOf, Announced, ReadStructs, ReadEvents, Part, Child, InformParts, DeviceNode, EventNodes,
         StructNodes, ArrayType, Decimal, DecimalValue;
    EnvelopeIsOpened(id, InformNode(i));
    InformPartsAreFound(i);
    DeviceIsRead(i.device);
    KindsHaveNoBracket();
    ListIsAnnounced("Event", "EventStruct", EventNodes(i.events));
    ListIsAnnounced("ParameterList", "ParameterValueStruct", StructNodes(i.values));
    EventsAreRead(i.events);
    StructsReadBack(i.values);
    DecimalReadsBack(i.retries);
  }

  lemma KindsHaveNoBracket()
    ensures '[' !in "EventStruct" && '[' !in "ParameterValueStruct"
  {
  }

  lemma IntegerReadsBack(n: int)
    ensures ReadInteger(IntegerText(n)) == Some(n)
  {
    hide Decimal, DecimalValue;
    if n < 0 {
      var text := "-" + Decimal(0 - n);
      assert text[0] == '-' && !IsDigit(text[0]);
      assert text[1..] == Decimal(0 - n);
      DecimalReadsBack(0 - n);
    } else {
      DecimalReadsBack(n);
    }
  }

  lemma TransferNamesDiffer()
    ensures "CommandKey" != "FaultStruct" && "CommandKey" != "StartTime" && "CommandKey" != "CompleteTime"
    ensures "FaultStruct" != "StartTime" && "FaultStruct" != "CompleteTime" && "StartTime" != "CompleteTime"
    ensures "FaultCode" != "FaultString"
  {
    assert "CommandKey"[3] == 'm' && "CompleteTime"[3] == 'p' && "FaultStruct"[0] == 'F' && "StartTime"[0] == 'S';
    assert "FaultCode"[5] == 'C' && "FaultString"[5] == 'S';
  }

  /** A TransferComplete is told from its tree. */
  lemma TransferIsTold(id: string, r: TransferResult)
    ensures ReadTransfer(Envelope(id, TransferNode(r))) == Some(r) && CwmpIdOf(Envelope(id, TransferNode(r))) == id
  {
    hide Envelope, CallOf, CwmpIdOf, NodeText, TextNodes, ReadInteger, IntegerText;
    EnvelopeIsOpened(id, TransferNode(r));
    var nodes, fault := TransferParts(r), TransferFault(r).children;
    TransferNamesDiffer();
    FirstIs(nodes, 1, "FaultStruct");
    hide Child;
    LeafIsFound(Cwmp("TransferComplete"), nodes, 0, "CommandKey", r.commandKey);
    LeafIsFound(Cwmp("TransferComplete"), nodes, 2, "StartTime", r.startTime);
    LeafIsFound(Cwmp("TransferComplete"), nodes, 3, "CompleteTime", r.completeTime);
    LeafIsFound(Plain("FaultStruct"), fault, 0, "FaultCode", IntegerText(r.faultCode));
    LeafIsFound(Plain("FaultStruct"), fault, 1, "FaultString", r.faultString);
    IntegerReadsBack(r.faultCode);
  }

  // ---------------------------------------------------------------------
  // Whole documents.

  /** From an Inform to its document: an ACS reads in it exactly what is reported, under the session's id. */
  method WriteInform(id: string, i: Inform) returns (xml: string)
    ensures AllReadable(id, false) && IsReadableInform(i) ==>
              ReadDocument(xml).Some? && ReadInform(ReadDocument(xml).value) == Some(i) &&
              CwmpIdOf(ReadDocument(xml).value) == id
  {
    hide Renders, ReadDocument, EnvelopeText, AllReadable, IsReadableInform, Envelope, ReadInform, CwmpIdOf, InformNode, Between;
    var body := InformBody(i);
    xml := EnvelopeText(id, body);
    if AllReadable(id, false) && IsReadableInform(i) {
      InformRenders(i, body);
      DocumentRenders(id, body, InformNode(i));
      InformIsTold(id, i);
    }
  }

  /** From a TransferComplete to its document and back. */
  method WriteTransfer(id: string, r: TransferResult) returns (xml: string)
    ensures AllReadable(id, false) && IsReadableTransfer(r) ==>
              ReadDocument(xml).Some? && ReadTransfer(ReadDocument(xml).value) == Some(r) &&
              CwmpIdOf(ReadDocument(xml).value) == id
  {
    hide Renders, ReadDocument, EnvelopeText, AllReadable, IsReadableTransfer, Envelope, ReadTransfer, CwmpIdOf, TransferNode,
         TransferBody;
    xml := EnvelopeText(id, TransferBody(r));
    if AllReadable(id, false) && IsReadableTransfer(r) {
      TransferRenders(r);
      DocumentRenders(id, TransferBody(r), TransferNode(r));
      TransferIsTold(id, r);
    }
  }
}
