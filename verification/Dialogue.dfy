/** The dialogue between the node and the VM process: lockstep nonces over two pipes, hook calls
    nested in requests, and resets that each side does on its own. */
module Dialogue {
  import opened Overflow
  import opened Wrappers

  datatype Kind = ContractRequest | HookCall | HookResponse | FinalResponse | UndefinedMessage

  /** Every message has an identity; a response says which message it answers. */
  datatype Message = Message(nonce: uint32, kind: Kind, id: nat, answers: Option<nat>)

  function Succ(n: uint32): uint32 {
    (n + 1) % TWO_32
  }

  /** The message as Send puts it on the pipe. */
  function Stamped(nonce: uint32, kind: Kind, id: nat, answers: Option<nat>): Message {
    Message(Succ(nonce), kind, id, answers)
  }

  /** Receive accepts a message only if its nonce is the next one. */
  predicate Expected(nonce: uint32, m: Message) {
    m.nonce == Succ(nonce)
  }

  class Pipe {
    var messages: seq<Message>
  }

  class Messenger {
    var nonce: uint32

    method Send(pipe: Pipe, kind: Kind, id: nat, answers: Option<nat>)
      modifies this, pipe
      ensures nonce == Succ(old(nonce))
      ensures pipe.messages == old(pipe.messages) + [Stamped(old(nonce), kind, id, answers)]
    {
      nonce := (nonce + 1) % TWO_32;
      pipe.messages := pipe.messages + [Message(nonce, kind, id, answers)];
    }

    /** Takes the next message off the pipe; the nonce advances only if it was the expected one. */
    method Receive(pipe: Pipe) returns (m: Option<Message>)
      requires pipe.messages != []
      modifies this, pipe
      ensures pipe.messages == old(pipe.messages)[1..]
      ensures m == if Expected(old(nonce), old(pipe.messages)[0]) then Some(old(pipe.messages)[0]) else None
      ensures nonce == if m.Some? then m.value.nonce else old(nonce)
    {
      var message := pipe.messages[0];
      pipe.messages := pipe.messages[1..];
      if message.nonce != (nonce + 1) % TWO_32 {
        return None;
      }
      nonce := message.nonce;
      m := Some(message);
    }

    method ResetDialogue()
      modifies this
      ensures nonce == 0
    {
      nonce := 0;
    }
  }

  // ---------------------------------------------------------------- the two processes

  datatype NodeState =
    | Idle                       // no StartLoop running
    | Waiting                    // inside doLoop, before Receive
    | Replying(hook: nat)        // a hook call was received and is being served
    | Closing(success: bool)     // doLoop returned, ResetDialogue not yet done

  datatype VMState =
    | AwaitRequest               // before ReceiveNodeRequest
    | Serving(request: nat)      // running the request
    | AwaitHook(request: nat, hook: nat)  // a hook call was sent, its response not yet received
    | Answered                   // response sent, ResetDialogue not yet done

  datatype System = System(
    node: NodeState, nodeNonce: uint32, vm: VMState, vmNonce: uint32,
    toVM: seq<Message>, toNode: seq<Message>,
    request: nat,                // the request of the current or last dialogue
    nextId: nat,
    invalidNonce: bool,          // some Receive reported an invalid nonce
    wrongAnswer: bool)           // some response did not answer what its receiver had asked

  const START := System(Idle, 0, AwaitRequest, 0, [], [], 0, 0, false, false)

  datatype Event =
    | NodeStart                  // StartLoop: SendContractRequest
    | NodeReceive                // doLoop: Receive, and dispatch on the kind
    | NodeReply                  // replyToHookCallRequest: SendHookCallResponse
    | NodeClose                  // StartLoop: ResetDialogue and return
    | VMReceive                  // doLoop: ReceiveNodeRequest
    | VMHookCall                 // SendHookCallRequest: Send
    | VMHookReceive              // SendHookCallRequest: Receive
    | VMAnswer(known: bool)      // doLoop: SendContractResponse, undefined for an unknown request
    | VMReset                    // doLoop: ResetDialogue

  /** A step is enabled when its process is there, and a message has arrived if it receives. */
  predicate Enabled(s: System, e: Event) {
    match e
    case NodeStart => s.node.Idle?
    case NodeReceive => s.node.Waiting? && s.toNode != []
    case NodeReply => s.node.Replying?
    case NodeClose => s.node.Closing?
    case VMReceive => s.vm.AwaitRequest? && s.toVM != []
    case VMHookCall => s.vm.Serving?
    case VMHookReceive => s.vm.AwaitHook? && s.toVM != []
    case VMAnswer(_) => s.vm.Serving?
    case VMReset => s.vm.Answered?
  }

  function NodeSends(s: System, kind: Kind, answers: Option<nat>): System {
    s.(nodeNonce := Succ(s.nodeNonce), toVM := s.toVM + [Stamped(s.nodeNonce, kind, s.nextId, answers)],
       nextId := s.nextId + 1)
  }

  function VMSends(s: System, kind: Kind, answers: Option<nat>): System {
    s.(vmNonce := Succ(s.vmNonce), toNode := s.toNode + [Stamped(s.vmNonce, kind, s.nextId, answers)],
       nextId := s.nextId + 1)
  }

  function NodeTakes(s: System): System
    requires s.toNode != []
  {
    var m := s.toNode[0];
    var t := s.(toNode := s.toNode[1..]);
    if !Expected(s.nodeNonce, m) then t.(node := Closing(false), invalidNonce := true)
    else
      var u := t.(nodeNonce := m.nonce);
      match m.kind
      case HookCall => u.(node := Replying(m.id))
      case HookResponse => u.(node := Replying(m.id))
      case FinalResponse => u.(node := Closing(true), wrongAnswer := s.wrongAnswer || m.answers != Some(s.request))
      case _ => u.(node := Closing(false))
  }

  function VMTakesRequest(s: System): System
    requires s.toVM != []
  {
    var m := s.toVM[0];
    var t := s.(toVM := s.toVM[1..]);
    if !Expected(s.vmNonce, m) then t.(invalidNonce := true)
    else t.(vmNonce := m.nonce, vm := Serving(m.id))
  }

  function VMTakesHookResponse(s: System): System
    requires s.toVM != [] && s.vm.AwaitHook?
  {
    var m := s.toVM[0];
    var t := s.(toVM := s.toVM[1..], vm := Serving(s.vm.request));
    if !Expected(s.vmNonce, m) then t.(invalidNonce := true)
    else t.(vmNonce := m.nonce, wrongAnswer := s.wrongAnswer || m.answers != Some(s.vm.hook))
  }

  function Apply(s: System, e: Event): System
    requires Enabled(s, e)
  {
    match e
    case NodeStart => NodeSends(s, ContractRequest, None).(node := Waiting, request := s.nextId)
    case NodeReceive => NodeTakes(s)
    case NodeReply => NodeSends(s, HookResponse, Some(s.node.hook)).(node := Waiting)
    case NodeClose => s.(node := Idle, nodeNonce := 0)
    case VMReceive => VMTakesRequest(s)
    case VMHookCall => VMSends(s, HookCall, None).(vm := AwaitHook(s.vm.request, s.nextId))
    case VMHookReceive => VMTakesHookResponse(s)
    case VMAnswer(known) =>
      VMSends(s, if known then FinalResponse else UndefinedMessage, Some(s.vm.request)).(vm := Answered)
    case VMReset => s.(vm := AwaitRequest, vmNonce := 0)
  }

  // ---------------------------------------------------------------- invariant

  predicate Quiet(s: System) {
    s.toVM == [] && s.toNode == []
  }

  /** The VM is between dialogues, possibly one local reset away from nonce 0. */
  predicate VMAtRest(s: System) {
    s.vm.Answered? || (s.vm.AwaitRequest? && s.vmNonce == 0)
  }

  /** No dialogue is running, or it has just ended. */
  predicate Resting(s: System) {
    Quiet(s) && VMAtRest(s) && ((s.node.Idle? && s.nodeNonce == 0) || s.node.Closing?)
  }

  predicate RequestSent(s: System) {
    && s.node.Waiting? && VMAtRest(s) && s.toNode == [] && s.nodeNonce == 1
    && s.toVM == [Message(1, ContractRequest, s.request, None)]
  }

  predicate VMRunning(s: System) {
    s.node.Waiting? && Quiet(s) && s.vm == Serving(s.request) && s.vmNonce == s.nodeNonce
  }

  predicate HookAsked(s: System) {
    && s.node.Waiting? && s.toVM == [] && s.vm.AwaitHook? && s.vm.request == s.request
    && s.vmNonce == Succ(s.nodeNonce)
    && s.toNode == [Message(s.vmNonce, HookCall, s.vm.hook, None)]
  }

  predicate HookServed(s: System) {
    && s.vm.AwaitHook? && s.vm.request == s.request && s.node == Replying(s.vm.hook)
    && Quiet(s) && s.vmNonce == s.nodeNonce
  }

  predicate HookAnswered(s: System) {
    && s.node.Waiting? && s.toNode == [] && s.vm.AwaitHook? && s.vm.request == s.request
    && s.nodeNonce == Succ(s.vmNonce)
    && |s.toVM| == 1 && s.toVM[0].nonce == s.nodeNonce && s.toVM[0].answers == Some(s.vm.hook)
  }

  predicate ResponseSent(s: System) {
    && s.node.Waiting? && s.toVM == [] && VMAtRest(s)
    && |s.toNode| == 1 && s.toNode[0].nonce == Succ(s.nodeNonce)
    && (s.toNode[0].kind.FinalResponse? || s.toNode[0].kind.UndefinedMessage?)
    && s.toNode[0].answers == Some(s.request)
  }

  predicate Inv(s: System) {
    && !s.invalidNonce && !s.wrongAnswer
    && (Resting(s) || RequestSent(s) || VMRunning(s) || HookAsked(s) || HookServed(s) || HookAnswered(s)
        || ResponseSent(s))
  }

  lemma StepKeepsInv(s: System, e: Event)
    requires Inv(s) && Enabled(s, e)
    ensures Inv(Apply(s, e))
  {
    var t := Apply(s, e);
    match e
    case NodeStart => assert RequestSent(t);
    case NodeReceive => assert HookServed(t) || Resting(t);
    case NodeReply => assert HookAnswered(t);
    case NodeClose => assert Resting(t);
    case VMReceive => assert VMRunning(t);
    case VMHookCall => assert HookAsked(t);
    case VMHookReceive => assert VMRunning(t);
    case VMAnswer(known) => assert ResponseSent(t);
    case VMReset => assert Resting(t) || RequestSent(t) || ResponseSent(t);
  }

  // ---------------------------------------------------------------- one dialogue

  /** What the check of nonces is for: the next message of a peer in step is accepted, and neither the
      message accepted last nor one that follows a lost message. */
  lemma NonceRefuses(nonce: uint32, kind: Kind, id: nat, answers: Option<nat>)
    ensures var next := Stamped(nonce, kind, id, answers);
      && Expected(nonce, next) && !Expected(next.nonce, next)
      && !Expected(nonce, Stamped(next.nonce, kind, id, answers))
  {
  }

  /** One hook call: asked, received, answered, and its answer received. */
  function HookRound(s: System): System
    requires VMRunning(s)
  {
    Apply(Apply(Apply(Apply(s, VMHookCall), NodeReceive), NodeReply), VMHookReceive)
  }

  lemma HookRoundServes(s: System)
    requires VMRunning(s)
    ensures var t := HookRound(s);
      && VMRunning(t) && t == s.(nodeNonce := (s.nodeNonce + 2) % TWO_32, vmNonce := (s.nodeNonce + 2) % TWO_32,
                                 nextId := s.nextId + 2)
  {
    var a := Apply(s, VMHookCall);
    var b := Apply(a, NodeReceive);
    assert b.node == Replying(s.nextId) && b.nodeNonce == b.vmNonce;
    var c := Apply(b, NodeReply);
    assert c.toVM == [Message(c.nodeNonce, HookResponse, s.nextId + 1, Some(s.nextId))];
  }

  ghost function HookRounds(s: System, k: nat): (t: System)
    requires VMRunning(s)
    ensures VMRunning(t)
    decreases k
  {
    HookRoundServes(s);
    if k == 0 then s else HookRounds(HookRound(s), k - 1)
  }

  lemma {:induction false} HookRoundsServe(s: System, k: nat)
    requires VMRunning(s)
    ensures var t := HookRounds(s, k);
      && VMRunning(t) && t.request == s.request && t.nodeNonce == (s.nodeNonce + 2 * k) % TWO_32
      && t.invalidNonce == s.invalidNonce && t.wrongAnswer == s.wrongAnswer && t.nextId == s.nextId + 2 * k
    decreases k
  {
    hide HookRound, VMRunning;
    HookRoundServes(s);
    if k > 0 {
      HookRoundsServe(HookRound(s), k - 1);
      WrapsOnce(s.nodeNonce + 2, 2 * (k - 1));
    } else {
      assert s.nodeNonce % TWO_32 == s.nodeNonce;
    }
  }

  lemma WrapsOnce(a: nat, b: nat)
    ensures (a % TWO_32 + b) % TWO_32 == (a + b) % TWO_32
  {
  }

  /** Every dialogue can be completed: a request with any number of hook calls, more than the nonces can
      count, ends with its response received; the node is told whether the VM knew the request, and both
      sides are then ready for the next one. */
  lemma DialogueCompletes(s: System, k: nat, known: bool)
    requires Inv(s) && s.node.Idle? && s.vm.AwaitRequest?
    ensures var running := Apply(Apply(s, NodeStart), VMReceive);
      && VMRunning(running) && running.request == s.nextId
      && var closing := Apply(Apply(HookRounds(running, k), VMAnswer(known)), NodeReceive);
         && closing.node == Closing(known) && closing.request == s.nextId
         && var done := Apply(Apply(closing, NodeClose), VMReset);
            Inv(done) && done.node.Idle? && done.vm.AwaitRequest? && done.vmNonce == done.nodeNonce == 0
  {
    var sent := Apply(s, NodeStart);
    assert sent.toVM == [Message(1, ContractRequest, s.nextId, None)];
    var running := Apply(sent, VMReceive);
    assert VMRunning(running);
    HookRoundsServe(running, k);
    var answered := Apply(HookRounds(running, k), VMAnswer(known));
    assert |answered.toNode| == 1;
    var closing := Apply(answered, NodeReceive);
    StepKeepsInv(s, NodeStart);
    assert Resting(Apply(Apply(closing, NodeClose), VMReset));
  }

  // ---------------------------------------------------------------- runs

  /** A run: any interleaving of enabled steps of the two processes. */
  ghost predicate IsRun(states: seq<System>, events: seq<Event>) {
    && |states| == |events| + 1 && states[0] == START
    && (forall i :: 0 <= i < |events| ==> Enabled(states[i], events[i]) && states[i + 1] == Apply(states[i], events[i]))
  }

  lemma {:induction false} RunKeepsInv(states: seq<System>, events: seq<Event>, n: nat)
    requires IsRun(states, events) && n < |states|
    ensures Inv(states[n])
  {
    if n > 0 {
      RunKeepsInv(states, events, n - 1);
      StepKeepsInv(states[n - 1], events[n - 1]);
    }
  }

  /** Safety of every run: at most one message is in flight, no Receive reports an invalid nonce
      (the counters may wrap), every response answers what its receiver asked, and whenever
      StartLoop returns both pipes are empty, the node's nonce is 0 and the VM's is 0 or one
      local reset away. */
  lemma DialogueSafety(states: seq<System>, events: seq<Event>, n: nat)
    requires IsRun(states, events) && n < |states|
    ensures var s := states[n];
      && |s.toVM| + |s.toNode| <= 1
      && !s.invalidNonce && !s.wrongAnswer
      && (s.node.Idle? ==> Quiet(s) && s.nodeNonce == 0 && VMAtRest(s))
      && (s.node.Closing? ==> Quiet(s) && VMAtRest(s))
  {
    RunKeepsInv(states, events, n);
  }

  /** While a dialogue is running, some step other than a new request is enabled: the two processes
      never both wait for a message that was not sent. */
  lemma NoDeadlock(states: seq<System>, events: seq<Event>, n: nat)
    requires IsRun(states, events) && n < |states| && !states[n].node.Idle?
    ensures exists e: Event :: !e.NodeStart? && Enabled(states[n], e)
  {
    RunKeepsInv(states, events, n);
    var s := states[n];
    if Resting(s) {
      assert Enabled(s, NodeClose);
    } else if RequestSent(s) {
      assert Enabled(s, if s.vm.Answered? then VMReset else VMReceive);
    } else if VMRunning(s) {
      assert Enabled(s, VMAnswer(true));
    } else if HookServed(s) {
      assert Enabled(s, NodeReply);
    } else if HookAnswered(s) {
      assert Enabled(s, VMHookReceive);
    } else {
      assert Enabled(s, NodeReceive);
    }
  }

  // ---------------------------------------------------------------- the code of each step

  /** Both parts with their messengers; each method is the stretch of code a process runs between
      two points where the other may run. */
  class Session {
    const nodeMessenger: Messenger
    const vmMessenger: Messenger
    const toVM: Pipe
    const toNode: Pipe
    var node: NodeState
    var vm: VMState
    ghost var request: nat
    var nextId: nat
    ghost var invalidNonce: bool
    ghost var wrongAnswer: bool

    ghost predicate Valid()
      reads this
    {
      nodeMessenger != vmMessenger && toVM != toNode
    }

    ghost function View(): System
      reads this, nodeMessenger, vmMessenger, toVM, toNode
    {
      System(node, nodeMessenger.nonce, vm, vmMessenger.nonce, toVM.messages, toNode.messages,
             request, nextId, invalidNonce, wrongAnswer)
    }

    constructor ()
      ensures Valid() && View() == START
    {
      nodeMessenger := new Messenger;
      vmMessenger := new Messenger;
      toVM := new Pipe;
      toNode := new Pipe;
      node, vm := Idle, AwaitRequest;
      request, nextId, invalidNonce, wrongAnswer := 0, 0, false, false;
      new;
      nodeMessenger.ResetDialogue();
      vmMessenger.ResetDialogue();
      toVM.messages := [];
      toNode.messages := [];
    }

    method NodeStartLoop()
      requires Valid() && Enabled(View(), NodeStart)
      modifies this, nodeMessenger, toVM
      ensures Valid() && View() == Apply(old(View()), NodeStart)
    {
      request := nextId;
      nodeMessenger.Send(toVM, ContractRequest, nextId, None);
      nextId := nextId + 1;
      node := Waiting;
    }

    method NodeDoLoop()
      requires Valid() && Enabled(View(), NodeReceive)
      modifies this, nodeMessenger, toNode
      ensures Valid() && View() == Apply(old(View()), NodeReceive)
    {
      var received := nodeMessenger.Receive(toNode);
      if received.None? {
        invalidNonce := true;
        node := Closing(false);
        return;
      }
      var message := received.value;
      if message.kind.HookCall? || message.kind.HookResponse? {
        node := Replying(message.id);
      } else if message.kind.FinalResponse? {
        wrongAnswer := wrongAnswer || message.answers != Some(request);
        node := Closing(true);
      } else {
        node := Closing(false);
      }
    }

    method NodeReplyToHookCall()
      requires Valid() && Enabled(View(), NodeReply)
      modifies this, nodeMessenger, toVM
      ensures Valid() && View() == Apply(old(View()), NodeReply)
    {
      nodeMessenger.Send(toVM, HookResponse, nextId, Some(node.hook));
      nextId := nextId + 1;
      node := Waiting;
    }

    method NodeEndLoop()
      requires Valid() && Enabled(View(), NodeClose)
      modifies this, nodeMessenger
      ensures Valid() && View() == Apply(old(View()), NodeClose)
    {
      nodeMessenger.ResetDialogue();
      node := Idle;
    }

    method VMReceiveNodeRequest()
      requires Valid() && Enabled(View(), VMReceive)
      modifies this, vmMessenger, toVM
      ensures Valid() && View() == Apply(old(View()), VMReceive)
    {
      var received := vmMessenger.Receive(toVM);
      if received.None? {
        invalidNonce := true;
        return;
      }
      vm := Serving(received.value.id);
    }

    method VMSendHookCall()
      requires Valid() && Enabled(View(), VMHookCall)
      modifies this, vmMessenger, toNode
      ensures Valid() && View() == Apply(old(View()), VMHookCall)
    {
      vmMessenger.Send(toNode, HookCall, nextId, None);
      vm := AwaitHook(vm.request, nextId);
      nextId := nextId + 1;
    }

    method VMReceiveHookResponse()
      requires Valid() && Enabled(View(), VMHookReceive)
      modifies this, vmMessenger, toVM
      ensures Valid() && View() == Apply(old(View()), VMHookReceive)
    {
      var received := vmMessenger.Receive(toVM);
      if received.None? {
        invalidNonce := true;
      } else {
        wrongAnswer := wrongAnswer || received.value.answers != Some(vm.hook);
      }
      vm := Serving(vm.request);
    }

    method VMSendResponse(known: bool)
      requires Valid() && Enabled(View(), VMAnswer(known))
      modifies this, vmMessenger, toNode
      ensures Valid() && View() == Apply(old(View()), VMAnswer(known))
    {
      vmMessenger.Send(toNode, if known then FinalResponse else UndefinedMessage, nextId, Some(vm.request));
      nextId := nextId + 1;
      vm := Answered;
    }

    method VMResetDialogue()
      requires Valid() && Enabled(View(), VMReset)
      modifies this, vmMessenger
      ensures Valid() && View() == Apply(old(View()), VMReset)
    {
      vmMessenger.ResetDialogue();
      vm := AwaitRequest;
    }
  }
}
