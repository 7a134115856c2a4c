/** RPCs from the ACS's document to the reply's document, and a set further on to the daemon's next configuration. */
module EndToEnd {
  import opened Wrappers
  import opened UciCommands
  import opened DeviceMap
  import opened Transaction
  import opened Reading
  import opened RuntimeConfig
  import opened XmlText
  import opened SoapBuilder
  import SoapParser
  import XmlTree
  import CwmpSession
  import opened Replies
  import opened Requests
  import opened DeviceReading
  import Acceptance
  import Names

  function ItemsOf(values: seq<SoapParser.ParameterValue>): (items: seq<Item>)
    ensures |items| == |values|
    ensures forall i :: 0 <= i < |items| ==> items[i] == Item(values[i].name, values[i].value, values[i].typeName)
  {
    seq(|values|, i requires 0 <= i < |values| => Item(values[i].name, values[i].value, values[i].typeName))
  }

  function AnswerTo(r: SetResult): CwmpSession.Answer {
    match r
    case Accepted => CwmpSession.Answer([], [], [], "", true, "", "")
    case Rejected(path, message) => CwmpSession.Answer([], [], [], "", false, message, path)
  }

  // What an accepted request leaves in the store and in the daemon's next configuration.
  ghost predicate InForce(before: View, after: View, items: seq<Item>, key: string, platform: Platform,
                          getters: Getters)
  {
    var plan := PlanOf(DeviceParameters, items, key);
    && plan.Planned?
    && ReadsBack(before, after, items, plan.staged, getters)
    && forall i: nat, p :: Sets(items, i, p) ==> Arrives(Decode(UciSource(after), platform), p, items[i].value)
  }

  lemma AcceptedRequestSettles(view: View, items: seq<Item>, key: string, platform: Platform, getters: Getters)
    requires IsUlongMax(platform.ulongMax) && PlanOf(DeviceParameters, items, key).Planned?
    requires var ws := PlanOf(DeviceParameters, items, key).staged; Consistent(ws) && AllSendable(ws)
    ensures InForce(view, Applied(view, PlanOf(DeviceParameters, items, key).staged), items, key, platform, getters)
  {
    hide PlanOf, Applied, ReadsBack, Decode, Arrives, UciOutcome, DeviceParameters;
    var ws := PlanOf(DeviceParameters, items, key).staged;
    DeviceMapReadsYourWrites(view, items, key, getters);
    AcceptedWhenConsistent(view, ws);
    forall i: nat, p | Sets(items, i, p)
      ensures Arrives(Decode(UciSource(Applied(view, ws)), platform), p, items[i].value)
    {
      AcceptedSettingsArrive(view, items, key, platform, i, p);
    }
  }

  // The text is a document, and the document a SetParameterValues request.
  predicate Asks(text: string, ulongMax: nat, rpc: SoapParser.ParsedRpc) {
    var root := ReadDocument(text);
    root.Some? && rpc.method_ == "SetParameterValues" &&
    SoapParser.ParseTree(root.value, ulongMax) == SoapParser.Parsed(rpc)
  }

  /** Every printed tree asks, whose first Body in document order begins with a SetParameterValues element. */
  lemma AnyTreeAsks(root: XmlTree.Node, ulongMax: nat, i: nat, call: XmlTree.Node)
    requires root.Element? && XmlTree.Kept(root)
    requires SoapParser.IsFirst(SoapParser.Preorder([root]), "Body", i)
    requires SoapParser.FirstElement(SoapParser.ChildrenOf(SoapParser.Preorder([root])[i][0])) == Some(call)
    requires call.name.local == "SetParameterValues"
    ensures exists id :: Asks(PROLOGUE + XmlTree.Print(root), ulongMax, SoapParser.AskedBy(call, id))
  {
    hide XmlTree.Print, XmlTree.Kept, ReadDocument, SoapParser.ParseTree, SoapParser.Preorder, SoapParser.IsFirst;
    DocumentReadsBack(root);
    SoapParser.CallInFirstBody(root, ulongMax, i, call);
    var id :| SoapParser.ParseTree(root, ulongMax) == SoapParser.Parsed(SoapParser.AskedBy(call, id));
    assert Asks(PROLOGUE + XmlTree.Print(root), ulongMax, SoapParser.AskedBy(call, id));
  }

  /** A document in the builder's form asks for exactly what it was written for. */
  lemma BuiltDocumentAsks(id: string, values: seq<SoapParser.ParameterValue>, key: string, ulongMax: nat)
    requires AllReadable(id, false) && AllReadableValues(values) && AllReadable(key, false)
    ensures Asks(PROLOGUE + XmlTree.Print(Envelope(id, SetNode(values, key))), ulongMax,
                 SoapParser.EMPTY_RPC.(method_ := "SetParameterValues", cwmpId := id, parameterValues := values,
                                       parameterKey := key))
  {
    hide XmlTree.Print, Envelope, SetNode, ReadDocument, SoapParser.ParseTree;
    SetRequestReadsBack(id, values, key, ulongMax);
  }

  /**
   The document is read, the transaction runs against a store that may fail at
   any command, and the reply is chosen. A SetParameterValuesResponse means every
   value of the document is in force for readers and for the daemon, and no other
   stored parameter has moved. A refusal is a 9003 fault with the transaction's
   own reason, read from the reply's own document; it leaves the old values, in sight and durable, as far as the
   rollback went (`how`), and never touches an option outside the request.
   */
  method ServeSetRequest(engine: Transformer, text: string, platform: Platform, ghost rpc: SoapParser.ParsedRpc,
                         ghost getters: Getters)
    returns (reply: Reply, xml: string, r: SetResult, ghost how: Course)
    requires engine.Valid() && engine.model == DeviceParameters && !engine.mockMode
    requires IsUlongMax(platform.ulongMax) && Asks(text, platform.ulongMax, rpc)
    modifies engine, engine.uci
    ensures reply.id == ReplyId(rpc) && Tells(xml, reply)
    ensures r.Accepted? ==> reply.SetReply?
    ensures engine.uci.healthy && NulFree(old(engine.uci.visible)) ==>
              (r.Accepted? <==> Acceptance.IsAcceptable(ItemsOf(rpc.parameterValues), rpc.parameterKey))
    ensures r.Rejected? ==>
              reply.FaultReply? && reply.code == 9003 && reply.message == r.message &&
              reply.parameters == if r.path == "" then [] else [r.path]
    ensures var items := ItemsOf(rpc.parameterValues);
            && (r.Accepted? ==>
                  InForce(old(engine.uci.visible), engine.uci.visible, items, rpc.parameterKey, platform, getters))
            && match PlanOf(DeviceParameters, items, rpc.parameterKey)
               case Refused(path, message) => r == Rejected(path, message) && unchanged(engine.uci)
               case Planned(ws) => engine.Settled(ws, r, how)
  {
    hide ReadDocument, SoapParser.ParseTree, PlanOf, Applied, ReadsBack, Decode, InForce, DeviceParameters, UciOutcome,
         Restored, KeysOf, ReadReply, IsReadableReply, Acceptance.IsAcceptable, NulFree, SameOutside, Consistent, AllSendable;
    var asked := SoapParser.ParseTree(ReadDocument(text).value, platform.ulongMax).rpc;
    ghost var before := engine.uci.visible;
    r, how := engine.SetParameterValues(ItemsOf(asked.parameterValues), asked.parameterKey);
    if r.Accepted? {
      AcceptedRequestSettles(before, ItemsOf(asked.parameterValues), asked.parameterKey, platform, getters);
    }
    Acceptance.WorkingStoreAccepts(before, ItemsOf(asked.parameterValues), asked.parameterKey);
    reply := CwmpSession.Handle(asked, AnswerTo(r)).reply;
    xml := SendReply(reply);
  }

  // ---------------------------------------------------------------------
  // The other RPCs.

  function ReplyId(rpc: SoapParser.ParsedRpc): string {
    if rpc.cwmpId == "" then "0" else rpc.cwmpId
  }

  // The document is one from which an ACS reads the reply.
  ghost predicate Tells(xml: string, reply: Reply) {
    IsReadableReply(reply) ==> ReadDocument(xml).Some? && ReadReply(ReadDocument(xml).value) == Some(reply)
  }

  function Sent(v: Value): SoapParser.ParameterValue {
    SoapParser.ParameterValue(v.name, v.value, v.typeName)
  }

  function SentAll(values: seq<Value>): (sent: seq<SoapParser.ParameterValue>)
    ensures |sent| == |values| && forall i :: 0 <= i < |values| ==> sent[i] == Sent(values[i])
  {
    seq(|values|, i requires 0 <= i < |values| => Sent(values[i]))
  }

  // One answered parameter: its own name, the value that is shown, its type.
  ghost predicate Answers(v: SoapParser.ParameterValue, path: string, source: Source, getters: Getters) {
    IsAnswerFor(Value(v.name, v.value, v.typeName), path, source, getters)
  }

  lemma {:induction false} AllKnown(paths: seq<string>)
    ensures UnknownPaths(DeviceParameters, paths) == [] <==> forall i :: 0 <= i < |paths| ==> IsKnown(paths[i])
    ensures UnknownPaths(DeviceParameters, paths) == [] ==> KnownPaths(DeviceParameters, paths) == paths
  {
    hide DeviceParameters, IsKnown;
    if paths != [] {
      var n := |paths| - 1;
      AllKnown(paths[..n]);
      KnownIsKnown(paths[n]);
      assert paths == paths[..n] + [paths[n]];
      assert forall i :: 0 <= i < n ==> paths[..n][i] == paths[i];
    }
  }

  lemma KnownIsAnswered(path: string, source: Source, getters: Getters)
    requires DeviceParameters(path).Some?
    ensures IsAnswerFor(ValueOf(DeviceParameters, source, getters, path, false), path, source, getters)
  {
    hide ParameterAt, PathOf, ReadSpec, SpecOf, IsAnswerFor;
    PathsAreFound(path);
    ValueIsShown(ParameterAt(path).value, source, getters);
  }

  /**
   GetParameterValues from its document to the reply's. When every path is known, the reply lists exactly
   the paths, in order, each with its value and type (the passwords empty); otherwise it is a 9005 fault
   that names exactly the unknown ones, in order.
   */
  method ServeGetRequest(source: Source, getters: Getters, text: string, ulongMax: nat, ghost rpc: SoapParser.ParsedRpc)
    returns (reply: Reply, xml: string)
    requires ReadsAs(text, ulongMax, rpc) && rpc.method_ == "GetParameterValues"
    ensures reply.id == ReplyId(rpc) && Tells(xml, reply)
    ensures var paths := rpc.parameterNames;
            if forall i :: 0 <= i < |paths| ==> IsKnown(paths[i]) then
              reply.ValuesReply? && |reply.values| == |paths| &&
              forall i :: 0 <= i < |paths| ==> Answers(reply.values[i], paths[i], source, getters)
            else
              reply.FaultReply? && reply.code == 9005 && reply.message == "Invalid parameter name" &&
              reply.parameters == UnknownPaths(DeviceParameters, paths) &&
              forall p :: p in reply.parameters <==> p in paths && !IsKnown(p)
  {
    hide ReadDocument, SoapParser.ParseTree, DeviceParameters, IsKnown, IsAnswerFor, ReadReply, IsReadableReply, ValueOf;
    var asked := SoapParser.ParseTree(ReadDocument(text).value, ulongMax).rpc;
    var paths := asked.parameterNames;
    var values, invalid := Reading.GetParameterValues(DeviceParameters, source, getters, paths, false);
    var answer := CwmpSession.Answer(SentAll(values), invalid, [], "", false, "", "");
    reply := CwmpSession.Handle(asked, answer).reply;
    xml := SendReply(reply);
    CwmpSession.ReplyCarriesAnswer(asked, answer);
    AllKnown(paths);
    KnownPathsAreKnown(DeviceParameters, paths);
    forall p ensures IsKnown(p) <==> DeviceParameters(p).Some? {
      KnownIsKnown(p);
    }
    forall i: nat | i < |values| ensures Answers(SentAll(values)[i], KnownPaths(DeviceParameters, paths)[i], source, getters) {
      KnownIsAnswered(KnownPaths(DeviceParameters, paths)[i], source, getters);
    }
  }

  /**
   GetParameterNames from its document to the reply's: exactly the parameters whose path begins with the
   document's own, in the order of their names, each with whether it can be written; a 9005 fault when
   there is none.
   */
  method ServeNamesRequest(text: string, ulongMax: nat, ghost rpc: SoapParser.ParsedRpc)
    returns (reply: Reply, xml: string)
    requires ReadsAs(text, ulongMax, rpc) && rpc.method_ == "GetParameterNames"
    ensures reply.id == ReplyId(rpc) && Tells(xml, reply)
    ensures if exists info :: Names.IsListed(info, rpc.parameterPath) then
              reply.NamesReply? && (forall info :: info in reply.names <==> Names.IsListed(info, rpc.parameterPath)) &&
              forall i, j :: 0 <= i < j < |reply.names| ==> Names.Before(reply.names[i].name, reply.names[j].name)
            else
              reply == CwmpSession.FaultReply(ReplyId(rpc), 9005, "unknown parameter or object: " + rpc.parameterPath, [])
  {
    hide ReadDocument, SoapParser.ParseTree, ReadReply, IsReadableReply, Names.IsListed, Names.Before;
    var asked := SoapParser.ParseTree(ReadDocument(text).value, ulongMax).rpc;
    var names, error := Names.GetParameterNames(asked.parameterPath);
    var answer := CwmpSession.Answer([], [], names, error, false, "", "");
    reply := CwmpSession.Handle(asked, answer).reply;
    xml := SendReply(reply);
    CwmpSession.ReplyCarriesAnswer(asked, answer);
    assert names != [] ==> names[0] in names;
    assert "unknown parameter or object: " + asked.parameterPath != "";
  }

  /**
   Every RPC that is no get or set of values, from its document to the reply's: a Reboot asks for a reboot
   with the document's own key, a Download for the document's own request, each under its own response and
   under no other; names are the engine's answer; anything else is a 9000 fault.
   */
  method ServeOtherRequest(text: string, ulongMax: nat, answer: CwmpSession.Answer, ghost rpc: SoapParser.ParsedRpc)
    returns (handled: CwmpSession.RpcResult, xml: string)
    requires ReadsAs(text, ulongMax, rpc)
    requires rpc.method_ != "GetParameterValues" && rpc.method_ != "SetParameterValues"
    ensures handled.reply.id == ReplyId(rpc) && Tells(xml, handled.reply)
    ensures handled.reply.RebootReply? <==> rpc.method_ == "Reboot"
    ensures handled.reply.DownloadReply? <==> rpc.method_ == "Download" && rpc.download.Some?
    ensures handled.requestReboot <==> handled.reply.RebootReply?
    ensures handled.requestReboot ==> handled.rebootCommandKey == rpc.commandKey
    ensures handled.download == if handled.reply.DownloadReply? then rpc.download else None
    ensures rpc.method_ == "GetParameterNames" ==>
              handled.reply == if answer.namesError == "" then CwmpSession.NamesReply(ReplyId(rpc), answer.names)
                               else CwmpSession.FaultReply(ReplyId(rpc), 9005, answer.namesError, [])
    ensures !CwmpSession.IsSupported(rpc) ==>
              handled.reply == CwmpSession.FaultReply(ReplyId(rpc), 9000, "Method not supported", [])
  {
    hide ReadDocument, SoapParser.ParseTree, ReadReply, IsReadableReply, CwmpSession.Handle;
    var asked := SoapParser.ParseTree(ReadDocument(text).value, ulongMax).rpc;
    handled := CwmpSession.Handle(asked, answer);
    xml := SendReply(handled.reply);
    CwmpSession.ReplyCarriesAnswer(asked, answer);
    CwmpSession.HandledAction(asked, answer);
    CwmpSession.MethodNamesDiffer();
  }

  /** The whole way of a Reboot: a document with a key is answered, and that key is what the daemon is asked to use. */
  method RebootAnswered(id: string, key: string, ulongMax: nat, answer: CwmpSession.Answer)
    returns (handled: CwmpSession.RpcResult, xml: string)
    requires AllReadable(id, false) && AllReadable(key, false)
    ensures handled.requestReboot && handled.rebootCommandKey == key && handled.download.None?
    ensures ReadDocument(xml).Some? &&
            ReadReply(ReadDocument(xml).value) == Some(CwmpSession.RebootReply(if id == "" then "0" else id))
  {
    hide ReadDocument, SoapParser.ParseTree, ReadReply, DocumentOf, AllReadable, ReadsAs;
    RebootRequestReadsBack(id, key, ulongMax);
    RebootIsOther();
    handled, xml := ServeOtherRequest(DocumentOf(id, RebootCall(key)), ulongMax, answer,
                                      SoapParser.EMPTY_RPC.(method_ := "Reboot", cwmpId := id, commandKey := key));
    ZeroIsReadable();
  }

  lemma RebootIsOther()
    ensures "Reboot" != "GetParameterValues" && "Reboot" != "SetParameterValues"
  {
  }

  lemma ZeroIsReadable()
    ensures AllReadable("0", false)
  {
  }
}
