/**
 One CWMP session against an arbitrary ACS: src/CwmpStateMachine.cpp,
 src/cwmp/rpc_handler.cpp and src/CwmpSession.cpp. The ACS is a finite script of
 HTTP responses, the k-th answering the k-th POST.
 */
module CwmpSession {
  import opened Wrappers
  import opened Text
  import opened SoapParser

  // ---------------------------------------------------------------------
  // src/CwmpStateMachine.cpp

  datatype CwmpState = Idle | Connecting | InformSent | RpcProcessing | SessionClose

  predicate Legal(state: CwmpState, next: CwmpState) {
    || (state == Idle && next == Connecting)
    || (state == Connecting && next == InformSent)
    || (state == InformSent && (next == RpcProcessing || next == SessionClose))
    || (state == RpcProcessing && (next == RpcProcessing || next == SessionClose))
    || (state == SessionClose && next == Idle)
  }

  // The steps of the design's state diagram, from and back to Idle.
  function Successors(state: CwmpState): set<CwmpState> {
    match state
    case Idle => {Connecting}
    case Connecting => {InformSent}
    case InformSent => {RpcProcessing, SessionClose}
    case RpcProcessing => {RpcProcessing, SessionClose}
    case SessionClose => {Idle}
  }

  lemma LegalIsDiagram(state: CwmpState, next: CwmpState)
    ensures Legal(state, next) <==> next in Successors(state)
  {
  }

  lemma DiagramSteps()
    ensures RpcProcessing in Successors(InformSent) && RpcProcessing in Successors(RpcProcessing)
    ensures SessionClose in Successors(InformSent) && SessionClose in Successors(RpcProcessing)
    ensures Idle in Successors(SessionClose)
  {
  }

  class CwmpStateMachine {
    var state: CwmpState
    ghost var trace: seq<CwmpState> // every state entered, by a step or by a reset

    constructor ()
      ensures state == Idle && trace == []
    {
      state := Idle;
      trace := [];
    }

    method Transition(next: CwmpState) returns (valid: bool)
      modifies this
      ensures valid <==> next in Successors(old(state))
      ensures state == if valid then next else old(state)
      ensures trace == old(trace) + if valid then [next] else []
    {
      LegalIsDiagram(state, next);
      valid := Legal(state, next);
      if valid {
        state := next;
        trace := trace + [next];
      }
    }

    method Reset()
      modifies this
      ensures state == Idle && trace == old(trace) + [Idle]
    {
      state := Idle;
      trace := trace + [Idle];
    }
  }

  // The phases of a session whose Inform was acknowledged, by the number of its replies.
  function Phases(replies: nat, success: bool): seq<CwmpState> {
    [Idle, Connecting, InformSent] + Conversing(replies, success)
  }

  function Conversing(replies: nat, success: bool): seq<CwmpState> {
    Processing(replies) + (if success then [SessionClose, Idle] else [])
  }

  function Processing(replies: nat): (p: seq<CwmpState>)
    ensures |p| == replies && forall i :: 0 <= i < replies ==> p[i] == RpcProcessing
  {
    seq(replies, _ => RpcProcessing)
  }

  lemma PhasesContinue(before: seq<CwmpState>, replies: nat, success: bool)
    ensures before + Phases(0, false) + Conversing(replies, success) == before + Phases(replies, success)
  {
    hide Processing;
  }

  lemma OneMorePhase(before: seq<CwmpState>, replies: nat)
    ensures before + Conversing(replies, false) + [RpcProcessing] == before + Conversing(replies + 1, false)
    ensures before + Conversing(0, false) == before
  {
    hide Processing;
    assert Processing(replies) + [RpcProcessing] == Processing(replies + 1);
  }

  lemma ConversingCloses(before: seq<CwmpState>, replies: nat)
    ensures before + Conversing(replies, false) + [SessionClose] + [Idle] == before + Conversing(replies, true)
  {
    hide Processing;
  }

  const UNACKNOWLEDGED := [Idle, Connecting, Idle]

  // ---------------------------------------------------------------------
  // src/cwmp/rpc_handler.cpp

  datatype ParameterInfo = ParameterInfo(name: string, writable: bool)

  datatype Reply =
    | ValuesReply(id: string, values: seq<ParameterValue>)
    | NamesReply(id: string, names: seq<ParameterInfo>)
    | SetReply(id: string)
    | RebootReply(id: string)
    | DownloadReply(id: string)
    | FaultReply(id: string, code: nat, message: string, parameters: seq<string>)

  datatype RpcResult = RpcResult(reply: Reply, requestReboot: bool, rebootCommandKey: string, download: Option<DownloadRequest>)

  // What the Transformer answers to the call one RPC makes.
  datatype Answer = Answer(
    values: seq<ParameterValue>,
    invalid: seq<string>,
    names: seq<ParameterInfo>,
    namesError: string,
    setSucceeds: bool,
    setError: string,
    failedParameter: string)

  function ReplyOnly(reply: Reply): RpcResult {
    RpcResult(reply, false, "", None)
  }

  function Handle(rpc: ParsedRpc, answer: Answer): RpcResult {
    var id := if rpc.cwmpId == "" then "0" else rpc.cwmpId;
    if rpc.method_ == "GetParameterValues" then
      ReplyOnly(if answer.invalid == [] then ValuesReply(id, answer.values)
                else FaultReply(id, 9005, "Invalid parameter name", answer.invalid))
    else if rpc.method_ == "GetParameterNames" then
      ReplyOnly(if answer.namesError == "" then NamesReply(id, answer.names) else FaultReply(id, 9005, answer.namesError, []))
    else if rpc.method_ == "SetParameterValues" then
      ReplyOnly(if answer.setSucceeds then SetReply(id)
                else FaultReply(id, 9003, answer.setError,
                                if answer.failedParameter == "" then [] else [answer.failedParameter]))
    else if rpc.method_ == "Reboot" then
      RpcResult(RebootReply(id), true, rpc.commandKey, None)
    else if rpc.method_ == "Download" && rpc.download.Some? then
      RpcResult(DownloadReply(id), false, "", rpc.download)
    else ReplyOnly(FaultReply(id, 9000, "Method not supported", []))
  }

  predicate IsSupported(rpc: ParsedRpc) {
    || rpc.method_ == "GetParameterValues" || rpc.method_ == "GetParameterNames" || rpc.method_ == "SetParameterValues"
    || rpc.method_ == "Reboot" || (rpc.method_ == "Download" && rpc.download.Some?)
  }

  /** The fault code tells why: 9000 for what is not supported, 9003 for a refused set, 9005 for a failed read. */
  lemma FaultCodeTellsWhy(rpc: ParsedRpc, answer: Answer)
    requires Handle(rpc, answer).reply.FaultReply?
    ensures var code := Handle(rpc, answer).reply.code;
            && (code == 9000 <==> !IsSupported(rpc))
            && (code == 9003 <==> rpc.method_ == "SetParameterValues" && !answer.setSucceeds)
            && (code == 9005 <==> (rpc.method_ == "GetParameterValues" && answer.invalid != []) ||
                                  (rpc.method_ == "GetParameterNames" && answer.namesError != ""))
  {
    MethodNamesDiffer();
  }

  lemma MethodNamesDiffer()
    ensures "GetParameterValues" != "GetParameterNames" && "GetParameterValues" != "SetParameterValues"
    ensures "GetParameterNames" != "SetParameterValues"
    ensures "Reboot" != "Download" && "Reboot" != "GetParameterValues" && "Reboot" != "GetParameterNames"
    ensures "Reboot" != "SetParameterValues" && "Download" != "GetParameterValues"
    ensures "Download" != "GetParameterNames" && "Download" != "SetParameterValues"
  {
  }

  /** An RPC asks for a reboot exactly when it is Reboot, for a download exactly when it is a Download with a request. */
  lemma HandledAction(rpc: ParsedRpc, answer: Answer)
    ensures Handle(rpc, answer).requestReboot <==> rpc.method_ == "Reboot"
    ensures Handle(rpc, answer).download.Some? <==> rpc.method_ == "Download" && rpc.download.Some?
    ensures !Handle(rpc, answer).requestReboot ==> Handle(rpc, answer).rebootCommandKey == ""
    ensures Handle(rpc, answer).reply.id == if rpc.cwmpId == "" then "0" else rpc.cwmpId
    ensures Handle(rpc, answer).reply.FaultReply? ==> !Handle(rpc, answer).requestReboot && Handle(rpc, answer).download.None?
    ensures Handle(rpc, answer).requestReboot ==>
              Handle(rpc, answer).rebootCommandKey == rpc.commandKey && Handle(rpc, answer).reply.RebootReply?
    ensures Handle(rpc, answer).download.Some? ==>
              Handle(rpc, answer).download == rpc.download && Handle(rpc, answer).reply.DownloadReply?
  {
    MethodNamesDiffer();
  }

  // Each kind of reply belongs to one kind of request, and carries the engine's answer to it.
  ghost predicate Carries(reply: Reply, rpc: ParsedRpc, answer: Answer) {
    match reply
    case ValuesReply(_, values) => rpc.method_ == "GetParameterValues" && answer.invalid == [] && values == answer.values
    case NamesReply(_, names) => rpc.method_ == "GetParameterNames" && answer.namesError == "" && names == answer.names
    case SetReply(_) => rpc.method_ == "SetParameterValues" && answer.setSucceeds
    case RebootReply(_) => rpc.method_ == "Reboot"
    case DownloadReply(_) => rpc.method_ == "Download" && rpc.download.Some?
    case FaultReply(_, code, message, parameters) =>
      || (code == 9000 && !IsSupported(rpc) && message == "Method not supported" && parameters == [])
      || (code == 9003 && rpc.method_ == "SetParameterValues" && !answer.setSucceeds && message == answer.setError &&
          parameters == if answer.failedParameter == "" then [] else [answer.failedParameter])
      || (code == 9005 && rpc.method_ == "GetParameterValues" && answer.invalid != [] &&
          message == "Invalid parameter name" && parameters == answer.invalid)
      || (code == 9005 && rpc.method_ == "GetParameterNames" && answer.namesError != "" &&
          message == answer.namesError && parameters == [])
  }

  lemma ReplyCarriesAnswer(rpc: ParsedRpc, answer: Answer)
    ensures Carries(Handle(rpc, answer).reply, rpc, answer)
  {
    MethodNamesDiffer();
  }

  // ---------------------------------------------------------------------
  // The world of one session.

  datatype HttpResponse = HttpResponse(status: int, body: string, error: string) {
    predicate Ok() {
      error == "" && 200 <= status < 300
    }
  }

  /** A response counts when it was received and its status is of the success class. */
  lemma OkIsSuccess(r: HttpResponse)
    ensures r.Ok() <==> r.error == "" && r.status / 100 == 2
  {
  }

  const NO_RESPONSE := HttpResponse(0, "", "Couldn't connect to server")

  datatype World = World(
    script: seq<HttpResponse>,
    parse: string -> Option<ParsedRpc>,
    answers: nat -> Answer) {

    // What post number k is answered with.
    function Response(k: nat): HttpResponse {
      if k < |script| then script[k] else NO_RESPONSE
    }

    predicate IsMethod(body: string, name: string) {
      parse(body).Some? && parse(body).value.method_ == name
    }
  }

  datatype TransferResult = TransferResult(
    commandKey: string,
    faultCode: int,
    faultString: string,
    startTime: string,
    completeTime: string)

  datatype Post =
    | InformPost(id: string, events: seq<string>)
    | TransferPost(id: string, result: TransferResult)
    | EmptyPost
    | ReplyPost(reply: Reply)

  datatype SessionOutcome = SessionOutcome(
    success: bool,
    rebootRequested: bool,
    rebootCommandKey: string,
    download: Option<DownloadRequest>)

  const FAILED := SessionOutcome(false, false, "", None)

  // ---------------------------------------------------------------------
  // The conversation in closed form: post j answers the RPC in response j - 1.

  // What post number j was made from, when it is a reply.
  function HandledAt(w: World, j: nat): Option<RpcResult> {
    if j > 0 && w.parse(w.Response(j - 1).body).Some? then
      Some(Handle(w.parse(w.Response(j - 1).body).value, w.answers(j)))
    else None
  }

  predicate Acts(handled: Option<RpcResult>) {
    handled.Some? && (handled.value.requestReboot || handled.value.download.Some?)
  }

  // The response to post i is an RPC that will be answered; `first` is the empty POST, all later posts are replies.
  predicate Continues(w: World, first: nat, i: nat) {
    && w.Response(i).Ok() && w.Response(i).body != ""
    && w.parse(w.Response(i).body).Some?
    && (i > first ==> !Acts(HandledAt(w, i)))
  }

  // What the session reports when post number n was its last one.
  function OutcomeAt(w: World, first: nat, n: nat): SessionOutcome {
    var acted := n > first && Acts(HandledAt(w, n));
    if !w.Response(n).Ok() || (w.Response(n).body != "" && !acted) then FAILED
    else if acted then
      var h := HandledAt(w, n).value;
      SessionOutcome(true, h.requestReboot, h.rebootCommandKey, h.download)
    else SessionOutcome(true, false, "", None)
  }

  // Every post after `first` replies to the response before it, and none was sent after the conversation was over.
  ghost predicate Underway(w: World, first: nat, posts: seq<Post>) {
    && |posts| > first
    && (forall j :: first < j < |posts| ==>
          HandledAt(w, j).Some? && posts[j] == ReplyPost(HandledAt(w, j).value.reply))
    && (forall i :: first <= i < |posts| - 1 ==> Continues(w, first, i))
  }

  ghost predicate Conversation(w: World, first: nat, posts: seq<Post>, outcome: SessionOutcome) {
    Underway(w, first, posts) && !Continues(w, first, |posts| - 1) && outcome == OutcomeAt(w, first, |posts| - 1)
  }

  lemma OneMoreReply(w: World, first: nat, posts: seq<Post>)
    requires Underway(w, first, posts) && Continues(w, first, |posts| - 1)
    ensures HandledAt(w, |posts|).Some?
    ensures Underway(w, first, posts + [ReplyPost(HandledAt(w, |posts|).value.reply)])
  {
    hide Handle;
    var longer := posts + [ReplyPost(HandledAt(w, |posts|).value.reply)];
    assert longer[|posts|] == ReplyPost(HandledAt(w, |posts|).value.reply);
    forall j | first < j < |longer| ensures HandledAt(w, j).Some? && longer[j] == ReplyPost(HandledAt(w, j).value.reply) {
      assert j < |posts| ==> longer[j] == posts[j];
    }
  }

  lemma NothingSentYet(w: World, first: nat, posts: seq<Post>)
    requires |posts| == first + 1
    ensures Underway(w, first, posts)
  {
  }

  /** A failed session asks for nothing; a successful one for at most one thing, and that by its last RPC. */
  lemma OutcomeIsFromLastRpc(w: World, first: nat, posts: seq<Post>, outcome: SessionOutcome)
    requires Conversation(w, first, posts, outcome)
    ensures !outcome.success ==> !outcome.rebootRequested && outcome.download.None?
    ensures !(outcome.rebootRequested && outcome.download.Some?)
    ensures outcome.rebootRequested || outcome.download.Some? ==>
              var n := |posts| - 1;
              n > first && HandledAt(w, n).Some? && posts[n] == ReplyPost(HandledAt(w, n).value.reply) &&
              HandledAt(w, n).value.requestReboot == outcome.rebootRequested &&
              HandledAt(w, n).value.rebootCommandKey == outcome.rebootCommandKey &&
              HandledAt(w, n).value.download == outcome.download
    ensures outcome.rebootRequested ==>
              var rpc := w.parse(w.Response(|posts| - 2).body).value;
              rpc.method_ == "Reboot" && outcome.rebootCommandKey == rpc.commandKey
    ensures outcome.download.Some? ==>
              var rpc := w.parse(w.Response(|posts| - 2).body).value;
              rpc.method_ == "Download" && outcome.download == rpc.download
    ensures forall j :: first < j < |posts| - 1 ==> !Acts(HandledAt(w, j))
  {
    hide Handle;
    var n := |posts| - 1;
    if n > first {
      HandledAction(w.parse(w.Response(n - 1).body).value, w.answers(n));
      MethodNamesDiffer();
    }
    forall j | first < j < n ensures !Acts(HandledAt(w, j)) {
      assert Continues(w, first, j);
    }
  }

  /** The closed form leaves no choice: after the same opening, the script determines every post and the outcome. */
  lemma ConversationIsDetermined(w: World, first: nat, p: seq<Post>, a: SessionOutcome, q: seq<Post>, b: SessionOutcome)
    requires Conversation(w, first, p, a) && Conversation(w, first, q, b)
    requires p[..first + 1] == q[..first + 1]
    ensures p == q && a == b
  {
    hide Handle, Continues, OutcomeAt, HandledAt;
    var n: nat, m: nat := |p| - 1, |q| - 1;
    assert n < m ==> Continues(w, first, n);
    assert m < n ==> Continues(w, first, m);
    forall j | 0 <= j < |p| ensures p[j] == q[j] {
      if j <= first {
        assert p[..first + 1][j] == q[..first + 1][j];
      }
    }
  }

  // ---------------------------------------------------------------------
  // src/CwmpSession.cpp

  const INFORM_RESPONSE := "InformResponse"
  const TRANSFER_RESPONSE := "TransferCompleteResponse"

  predicate Acknowledged(w: World, k: nat, name: string) {
    w.Response(k).Ok() && w.IsMethod(w.Response(k).body, name)
  }

  function IdOf(sequence: nat): string {
    "tr069d-" + Decimal(sequence)
  }

  // All POSTs of session.run, and what it returns.
  ghost predicate IsRun(w: World, sequence: nat, events: seq<string>, posts: seq<Post>, outcome: SessionOutcome) {
    var inform := InformPost(IdOf(sequence), events);
    if !Acknowledged(w, 0, "InformResponse") then posts == [inform] && outcome == FAILED
    else if !w.Response(1).Ok() then posts == [inform, EmptyPost] && outcome == FAILED
    else Conversation(w, 1, posts, outcome) && posts[..2] == [inform, EmptyPost]
  }

  const TRANSFER_EVENTS := ["7 TRANSFER COMPLETE", "M Download"]

  // All POSTs of session.runTransferComplete; what the ACS asks for in its conversation is not acted upon.
  ghost predicate IsTransferRun(w: World, sequence: nat, result: TransferResult, posts: seq<Post>, success: bool) {
    var inform := InformPost(IdOf(sequence), ["7 TRANSFER COMPLETE", "M Download"]);
    var transfer := TransferPost(IdOf(sequence + 1), result);
    if !Acknowledged(w, 0, "InformResponse") then posts == [inform] && !success
    else if !Acknowledged(w, 1, "TransferCompleteResponse") then posts == [inform, transfer] && !success
    else if !w.Response(2).Ok() then posts == [inform, transfer, EmptyPost] && !success
    else
      posts[..if |posts| < 3 then |posts| else 3] == [inform, transfer, EmptyPost] &&
      exists outcome :: Conversation(w, 2, posts, outcome) && success == outcome.success
  }

  predicate IsActionRequest(rpc: Option<ParsedRpc>) {
    rpc.Some? && (rpc.value.method_ == "Reboot" || (rpc.value.method_ == "Download" && rpc.value.download.Some?))
  }

  // A Reboot or a Download that post number j answers.
  predicate IsAnsweredRequest(w: World, posts: seq<Post>, j: nat) {
    2 < j < |posts| && Acts(HandledAt(w, j)) && posts[j] == ReplyPost(HandledAt(w, j).value.reply)
  }

  /**
   A TransferComplete session that succeeds answers a Reboot or a Download, and nobody acts
   on it, exactly when the last RPC it answered is one.
   */
  lemma TransferLosesRequest(w: World, sequence: nat, result: TransferResult, posts: seq<Post>)
    requires IsTransferRun(w, sequence, result, posts, true)
    ensures |posts| >= 3
    ensures (exists j :: 0 <= j < |posts| && IsAnsweredRequest(w, posts, j)) <==>
            |posts| > 3 && IsActionRequest(w.parse(w.Response(|posts| - 2).body))
  {
    hide Handle, OutcomeAt, Continues;
    var outcome :| Conversation(w, 2, posts, outcome) && outcome.success;
    var n: nat := |posts| - 1;
    OutcomeIsFromLastRpc(w, 2, posts, outcome);
    if n > 2 {
      assert HandledAt(w, n).Some?;
      HandledAction(w.parse(w.Response(n - 1).body).value, w.answers(n));
      assert IsAnsweredRequest(w, posts, n) <==> Acts(HandledAt(w, n));
    }
  }

  // An ACS that answers the TransferComplete session with a Reboot.
  function RebootingAcs(): World {
    World([HttpResponse(200, "inform", ""), HttpResponse(200, "transfer", ""), HttpResponse(200, "reboot", ""),
           HttpResponse(204, "", "")],
          body => if body == "inform" then Some(EMPTY_RPC.(method_ := INFORM_RESPONSE))
                  else if body == "transfer" then Some(EMPTY_RPC.(method_ := TRANSFER_RESPONSE))
                  else if body == "reboot" then Some(EMPTY_RPC.(method_ := "Reboot"))
                  else None,
          _ => Answer([], [], [], "", false, "", ""))
  }

  /** A Reboot in the TransferComplete session is answered, and the session succeeds without asking for it. */
  lemma TransferForgetsReboot(sequence: nat, result: TransferResult)
    ensures var w := RebootingAcs();
            var posts := [InformPost(IdOf(sequence), TRANSFER_EVENTS), TransferPost(IdOf(sequence + 1), result), EmptyPost,
                          ReplyPost(RebootReply("0"))];
            IsTransferRun(w, sequence, result, posts, true) &&
            HandledAt(w, 3).Some? && HandledAt(w, 3).value.requestReboot
  {
    var w := RebootingAcs();
    var posts := [InformPost(IdOf(sequence), TRANSFER_EVENTS), TransferPost(IdOf(sequence + 1), result), EmptyPost,
                  ReplyPost(RebootReply("0"))];
    assert "inform"[0] != "transfer"[0] && "inform"[0] != "reboot"[0] && "transfer"[0] != "reboot"[0];
    MethodNamesDiffer();
    assert HandledAt(w, 3).value.reply == RebootReply("0");
    assert Continues(w, 2, 2) && !Continues(w, 2, 3);
    assert Underway(w, 2, posts);
    assert Conversation(w, 2, posts, SessionOutcome(true, true, "", None));
  }

  class CwmpSession {
    const world: World
    const stateMachine: CwmpStateMachine
    var sequence: nat
    var sent: nat // POSTs so far
    ghost var posts: seq<Post>
    ghost var refused: bool // some transition was not accepted

    ghost predicate Valid()
      reads this
    {
      sent == |posts|
    }

    constructor (world: World)
      ensures Valid() && fresh(stateMachine) && this.world == world
      ensures stateMachine.state == Idle && stateMachine.trace == []
      ensures sequence == 1 && posts == [] && !refused
    {
      this.world := world;
      stateMachine := new CwmpStateMachine();
      sequence := 1;
      sent := 0;
      posts := [];
      refused := false;
    }

    method HttpPost(post: Post) returns (response: HttpResponse)
      requires Valid()
      modifies `sent, `posts
      ensures Valid() && posts == old(posts) + [post] && response == world.Response(|old(posts)|)
    {
      response := world.Response(sent);
      sent := sent + 1;
      posts := posts + [post];
    }

    method Advance(next: CwmpState)
      modifies `refused, stateMachine
      ensures refused == (old(refused) || next !in Successors(old(stateMachine.state)))
      ensures next in Successors(old(stateMachine.state)) ==>
                stateMachine.state == next && stateMachine.trace == old(stateMachine.trace) + [next]
    {
      var valid := stateMachine.Transition(next);
      refused := refused || !valid;
    }

    method NextId() returns (id: string)
      modifies `sequence
      ensures id == IdOf(old(sequence)) && sequence == old(sequence) + 1
    {
      id := "tr069d-" + Decimal(sequence);
      sequence := sequence + 1;
    }

    // src/CwmpSession.cpp:27-48
    method BeginInform(events: seq<string>, id: string) returns (ok: bool)
      requires Valid() && posts == [] && !refused
      modifies `sent, `posts, `refused, stateMachine
      ensures Valid() && !refused && posts == [InformPost(id, events)]
      ensures ok <==> Acknowledged(world, 0, INFORM_RESPONSE)
      ensures stateMachine.state == if ok then InformSent else Idle
      ensures stateMachine.trace == old(stateMachine.trace) + if ok then Phases(0, false) else UNACKNOWLEDGED
    {
      stateMachine.Reset();
      Advance(Connecting);
      var response := HttpPost(InformPost(id, events));
      if !response.Ok() {
        stateMachine.Reset();
        return false;
      }
      if !world.IsMethod(response.body, INFORM_RESPONSE) {
        stateMachine.Reset();
        return false;
      }
      Advance(InformSent);
      return true;
    }

    // src/CwmpSession.cpp:50-80. Every pass of the loop uses up one response of the script.
    method ProcessAcsMessages(first: nat, firstBody: string) returns (outcome: SessionOutcome)
      requires Valid() && |posts| == first + 1 && !refused && stateMachine.state == InformSent
      requires world.Response(first).Ok() && firstBody == world.Response(first).body
      modifies `sent, `posts, `refused, stateMachine
      ensures Valid() && Conversation(world, first, posts, outcome) && posts[..first + 1] == old(posts)
      ensures !refused && (outcome.success ==> stateMachine.state == Idle)
      ensures |posts| <= first + 1 || |posts| <= |world.script| + 1
      ensures |posts| > first
      ensures stateMachine.trace == old(stateMachine.trace) + Conversing(|posts| - 1 - first, outcome.success)
    {
      hide Handle, Successors, Underway, Conversing;
      DiagramSteps();
      OneMorePhase(stateMachine.trace, 0);
      assert Underway(world, first, posts) by { NothingSentYet(world, first, posts); }
      var body := firstBody;
      outcome := FAILED;
      var acted := false;
      while body != "" && !acted
        invariant Valid() && |posts| > first && posts[..first + 1] == old(posts) && !refused
        invariant Underway(world, first, posts)
        invariant stateMachine.state == InformSent || stateMachine.state == RpcProcessing
        invariant stateMachine.trace == old(stateMachine.trace) + Conversing(|posts| - 1 - first, false)
        invariant world.Response(|posts| - 1).Ok() && body == world.Response(|posts| - 1).body
        invariant acted == (|posts| - 1 > first && Acts(HandledAt(world, |posts| - 1)))
        invariant !acted ==> !outcome.rebootRequested && outcome.rebootCommandKey == "" && outcome.download.None?
        invariant acted ==> var h := HandledAt(world, |posts| - 1).value;
                            outcome == SessionOutcome(false, h.requestReboot, h.rebootCommandKey, h.download)
        invariant !outcome.success
        decreases |world.script| - |posts|, !acted
      {
        var rpc := world.parse(body);
        if rpc.None? {
          return FAILED;
        }
        OneMoreReply(world, first, posts);
        Advance(RpcProcessing);
        OneMorePhase(old(stateMachine.trace), |posts| - 1 - first);
        var handled := Handle(rpc.value, world.answers(sent));
        var response := HttpPost(ReplyPost(handled.reply));
        assert HandledAt(world, |posts| - 1) == Some(handled);
        if !response.Ok() {
          return FAILED;
        }
        HandledAction(rpc.value, world.answers(sent - 1));
        if handled.requestReboot {
          outcome := outcome.(rebootRequested := true, rebootCommandKey := handled.rebootCommandKey);
        }
        if handled.download.Some? {
          outcome := outcome.(download := handled.download);
        }
        body := response.body;
        acted := outcome.rebootRequested || outcome.download.Some?;
      }
      Advance(SessionClose);
      Advance(Idle);
      ConversingCloses(old(stateMachine.trace), |posts| - 1 - first);
      outcome := outcome.(success := true);
    }

    /** src/CwmpSession.cpp:82-91 */
    method Run(events: seq<string>) returns (outcome: SessionOutcome)
      requires Valid() && posts == [] && !refused
      modifies `sequence, `sent, `posts, `refused, stateMachine
      ensures IsRun(world, old(sequence), events, posts, outcome)
      ensures Acknowledged(world, 0, INFORM_RESPONSE) ==> |posts| >= 2
      ensures !refused && (outcome.success ==> stateMachine.state == Idle)
      ensures |posts| <= 2 || |posts| <= |world.script| + 1
      ensures stateMachine.trace == old(stateMachine.trace) +
                if Acknowledged(world, 0, INFORM_RESPONSE) then Phases(|posts| - 2, outcome.success) else UNACKNOWLEDGED
    {
      hide Phases, Conversing, Underway, OutcomeAt, Continues, Successors;
      var id := NextId();
      var ok := BeginInform(events, id);
      if !ok {
        return FAILED;
      }
      var response := HttpPost(EmptyPost);
      if !response.Ok() {
        return FAILED;
      }
      outcome := ProcessAcsMessages(1, response.body);
      PhasesContinue(old(stateMachine.trace), |posts| - 2, outcome.success);
    }

    /** src/CwmpSession.cpp:93-103 */
    method RunTransferComplete(result: TransferResult) returns (success: bool)
      requires Valid() && posts == [] && !refused
      modifies `sequence, `sent, `posts, `refused, stateMachine
      ensures IsTransferRun(world, old(sequence), result, posts, success)
      ensures !refused && (success ==> stateMachine.state == Idle)
      ensures |posts| <= 3 || |posts| <= |world.script| + 1
      ensures stateMachine.trace == old(stateMachine.trace) +
                if Acknowledged(world, 0, INFORM_RESPONSE) then Phases(if |posts| < 3 then 0 else |posts| - 3, success) else UNACKNOWLEDGED
    {
      hide Phases, Conversing, Underway, OutcomeAt, Continues, Successors;
      var id := NextId();
      var ok := BeginInform(TRANSFER_EVENTS, id);
      if !ok {
        return false;
      }
      id := NextId();
      var response := HttpPost(TransferPost(id, result));
      if !response.Ok() || !world.IsMethod(response.body, TRANSFER_RESPONSE) {
        return false;
      }
      response := HttpPost(EmptyPost);
      if !response.Ok() {
        return false;
      }
      var outcome := ProcessAcsMessages(2, response.body);
      PhasesContinue(old(stateMachine.trace), |posts| - 3, outcome.success);
      success := outcome.success;
    }
  }
}
