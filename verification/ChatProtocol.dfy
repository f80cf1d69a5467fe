/**
 What the chat host asks of the agent. `Requested` lists, for every input, the one call that the protocol
 prescribes; a run sends exactly these, in order. So a task goes out as it was typed, and an approval is
 answered as the user decided.
 */
module ChatProtocol {
  import opened Wrappers
  import opened Text
  import opened ChatSpec
  import opened ChatInvariants
  import opened ChatTranscript
  import opened ChatExact

  // ----- The calls of a log -----

  function SentIn(log: seq<Effect>): seq<Effect>
    decreases |log|
  {
    if log == [] then []
    else SentIn(log[..|log| - 1]) + if log[|log| - 1].Sent? then [log[|log| - 1]] else []
  }

  lemma SentSnoc(log: seq<Effect>, e: Effect)
    ensures SentIn(log + [e]) == SentIn(log) + if e.Sent? then [e] else []
  {
    assert (log + [e])[..|log + [e]| - 1] == log;
  }

  function Listed(e: Option<Effect>): seq<Effect> {
    if e.None? then [] else [e.value]
  }

  /** From `w` to `v` exactly this call was sent. */
  ghost predicate Asks(w: World, v: World, e: Option<Effect>) {
    SentIn(v.log) == SentIn(w.log) + Listed(e)
  }

  // ----- The protocol -----

  /** The pending approval that the answer is for; only one that offers it can be allowed for the session. */
  predicate Answerable(c: Chat, approvalId: Option<string>, d: Decision) {
    exists i :: 0 <= i < |c.items| && c.items[i].approvalId == approvalId && c.items[i].status.Pending?
                && (d.AllowForSession? ==> c.items[i].allowForSession)
  }

  /** The agent's terms for a decision. */
  function Told(session: Option<string>, approvalId: Option<string>, d: Decision): Rpc {
    match d
    case AllowOnce => ApprovalRespond(session, approvalId, true, false)
    case AllowForSession => ApprovalRespond(session, approvalId, true, true)
    case Deny => ApprovalRespond(session, approvalId, false, false)
  }

  /** A new task opens a session, or changes the mode of the one there is, or is sent at once. */
  function FirstCall(c: Chat, raw: Task): Rpc {
    if c.sessionId.None? then SessionCreate(raw.mode)
    else if c.mode != raw.mode then SetMode(c.sessionId, raw.mode)
    else ChatSend(c.sessionId, Instruction(raw), raw.requestId)
  }

  function RequestedBy(c: Chat, m: Message): Option<Rpc> {
    match m
    case Submit(raw) => if Starts(c, raw) then Some(FirstCall(c, raw)) else None
    case CancelTask => if c.busy && c.sessionId.Some? then Some(SessionCancel(c.sessionId)) else None
    case Approve(approvalId, decision) =>
      if c.busy && c.sessionId.Some? && decision.Some? && Answerable(c, approvalId, decision.value)
      then Some(Told(c.sessionId, approvalId, decision.value)) else None
    case SetModeTo(mode) =>
      if mode in MODES && !c.busy && c.sessionId.Some? && "session.setMode" in c.methods
      then Some(SetMode(c.sessionId, mode)) else None
    case NewTask => if !c.busy && c.sessionId.Some? then Some(SessionCancel(c.sessionId)) else None
    case Reconnect => if !c.busy && !c.connecting && !c.connected then Some(Initialize) else None
    case LocateCli => if !c.busy then Some(NativeAction) else None
    case Native => Some(NativeAction)
    case _ => None
  }

  /** What a submit asks for next, in the session it has. */
  function NextCall(c: Chat, task: Task, point: SubmitPoint, b: Body): Option<Rpc> {
    match point
    case AwaitCreate =>
      if b.sessionId == "" then None
      else if "session.modelInfo" in c.methods then Some(ModelInfo(Some(b.sessionId)))
      else Some(ChatSend(Some(b.sessionId), task.instruction, task.requestId))
    case AwaitModel => Some(ChatSend(c.sessionId, task.instruction, task.requestId))
    case AwaitMode =>
      if task.mode == (if b.mode != "" then b.mode else c.mode)
      then Some(ChatSend(c.sessionId, task.instruction, task.requestId)) else None
    case AwaitSend(_) => None
  }

  /** The call that the protocol prescribes for an input, with the generation in which it is made. */
  function Requested(w: World, input: Input): Option<Effect> {
    var c := w.chat;
    match input
    case Deliver(m) => At(c.generation, RequestedBy(c, m))
    case TimerFires =>
      if c.busy && c.jobId.Some? && c.timer == Some(c.generation)
          then Some(Sent(c.generation, JobStatus(c.jobId.value)))
      else None
    case Resume(id, reply) =>
      if !Enabled(w, id) || reply.Rejected? then None
      else if ConfirmedConfigure(w.pending[id], reply) then Some(Sent(c.generation + 1, Initialize))
      else if w.pending[id].SubmitFrame? && w.pending[id].gen == c.generation
      then At(c.generation, NextCall(c, w.pending[id].task, w.pending[id].point, reply.body))
      else None
    case _ => None
  }

  function At(gen: nat, rpc: Option<Rpc>): Option<Effect> {
    if rpc.None? then None else Some(Sent(gen, rpc.value))
  }

  // ----- The code follows it -----

  lemma EmitAsks(w: World, message: Outgoing)
    ensures Asks(w, Emit(w, message), None)
  {
    SentSnoc(w.log, Emitted(w.chat.generation, message));
  }

  lemma CallAsks(w: World, rpc: Rpc)
    ensures Asks(w, Call(w, rpc), Some(Sent(w.chat.generation, rpc)))
  {
    SentSnoc(w.log, Sent(w.chat.generation, rpc));
  }

  lemma PublishAsks(w: World)
    ensures Asks(w, Publish(w), None)
  {
    EmitAsks(w, StateChanged(ViewOf(w.chat)));
  }

  lemma ConnectAsks(w: World)
    ensures Asks(w, Connect(w), At(w.chat.generation, RequestedBy(w.chat, Reconnect)))
  {
    hide SentIn, ViewOf;
    var c := w.chat;
    if !c.busy && !c.connecting && !c.connected {
      var v := w.(chat := c.(connecting := true, error := ""));
      PublishAsks(v);
      CallAsks(Publish(v), Initialize);
    }
  }

  lemma SubmitFailedAsks(w: World, id: nat, key: string, started: bool, userItem: Option<nat>, message: string)
    ensures Asks(w, SubmitFailed(w, id, key, started, userItem, message), None)
  {
    hide SentIn, ViewOf, Add;
    var c := if userItem.Some? then w.chat.(items := Drop(w.chat.items, userItem.value)) else w.chat;
    var c1 := if started then c.(busy := false, status := "failed") else c;
    AnsweredAsks(w.(chat := Add(c1, ErrorNote, Or(message, "The task could not start."))), id, key, false);
  }

  lemma AnsweredAsks(w: World, id: nat, key: string, started: bool)
    ensures Asks(w, Answered(w, id, key, started), None)
  {
    hide SentIn, ViewOf;
    EmitAsks(w, TaskResult(key, Some(started)));
    PublishAsks(Emit(w, TaskResult(key, Some(started))));
  }

  lemma SendChatAsks(w: World, id: nat, task: Task)
    ensures Asks(w, SendChat(w, id, task),
                 Some(Sent(w.chat.generation, ChatSend(w.chat.sessionId, task.instruction, task.requestId))))
  {
    hide SentIn, Evict;
    var v := w.(chat := Add(w.chat, UserTurn, task.instruction));
    CallAsks(v, ChatSend(v.chat.sessionId, task.instruction, task.requestId));
  }

  lemma SubmitOnceAsks(w: World, id: nat, task: Task)
    ensures var c := w.chat;
            Asks(w, SubmitOnce(w, id, task),
                 if Refusal(c, task).Some? then None
                 else if c.sessionId.None? then Some(Sent(c.generation, SessionCreate(task.mode)))
                 else if task.mode == c.mode
                 then Some(Sent(c.generation, ChatSend(c.sessionId, task.instruction, task.requestId)))
                 else if "session.setMode" in c.methods then Some(Sent(c.generation, SetMode(c.sessionId, task.mode)))
                 else None)
  {
    hide SentIn, SendChat, SubmitFailed, ViewOf;
    var c := w.chat;
    if Refusal(c, task).Some? {
      SubmitFailedAsks(w, id, task.requestId, false, None, Refusal(c, task).value);
    } else {
      var u := w.(chat := c.(busy := true, status := "starting"));
      var v := Publish(u);
      PublishAsks(u);
      CallAsks(v, SessionCreate(task.mode));
      SendChatAsks(v, id, task);
      SubmitFailedAsks(v, id, task.requestId, true, None, "Update the CLI to change permissions.");
      CallAsks(v, SetMode(c.sessionId, task.mode));
    }
  }

  lemma SubmitTaskAsks(w: World, raw: Task)
    ensures Asks(w, SubmitTask(w, raw), At(w.chat.generation, RequestedBy(w.chat, Submit(raw))))
  {
    hide SentIn, SubmitOnce, Instruction;
    var task := raw.(instruction := Instruction(raw));
    if WellFormedId(task.requestId) {
      if Known(w.chat.requests, task.requestId) {
        EmitAsks(w, TaskResult(task.requestId, Some(false)));
      } else {
        SubmitOnceAsks(w.(nextId := w.nextId + 1), w.nextId, task);
        StartsMeans(w.chat, raw);
      }
    }
  }

  lemma StartsMeans(c: Chat, raw: Task)
    ensures var task := raw.(instruction := Instruction(raw));
            Starts(c, raw) <==> && WellFormedId(raw.requestId) && !Known(c.requests, raw.requestId)
                                && Refusal(c, task).None?
                                && (c.sessionId.None? || task.mode == c.mode || "session.setMode" in c.methods)
  {
  }

  lemma SubmitAcceptedAsks(w: World, id: nat, key: string, b: Body)
    ensures Asks(w, SubmitAccepted(w, id, key, b), None)
  {
    hide SentIn, Finish, ViewOf;
    var c := w.chat.(jobId := Some(b.jobId), accepted := Some(key), status := Or(b.status, "running"));
    AnsweredAsks(w.(chat := if Terminal(c.status) then Finish(c, c.status) else SchedulePoll(c)), id, key, true);
  }

  lemma SubmitRepliedAsks(w: World, id: nat, f: Frame, reply: Reply)
    requires f.SubmitFrame?
    ensures Asks(w, SubmitReplied(w, id, f.gen, f.task, f.point, reply),
                 if f.gen != w.chat.generation || reply.Rejected? then None
                 else At(w.chat.generation, NextCall(w.chat, f.task, f.point, reply.body)))
  {
    hide SentIn, SendChat, SubmitFailed, SubmitAccepted, SessionCreated;
    var c, task, point := w.chat, f.task, f.point;
    if f.gen != c.generation {
    } else if reply.Rejected? {
      SubmitFailedAsks(w, id, task.requestId, true, if point.AwaitSend? then Some(point.userItem) else None,
                       reply.message);
    } else {
      var b := reply.body;
      match point
      case AwaitCreate => SessionCreatedAsks(w, id, task, b);
      case AwaitModel => SendChatAsks(w.(chat := c.(model := Or(b.model, Or(b.modelName, c.model)))), id, task);
      case AwaitMode =>
        var v := w.(chat := c.(mode := Or(b.mode, c.mode)));
        SubmitFailedAsks(v, id, task.requestId, true, None, "The agent did not accept the selected permissions.");
        SendChatAsks(v, id, task);
      case AwaitSend(item) =>
        SubmitFailedAsks(w, id, task.requestId, true, Some(item), "The agent did not start a task.");
        SubmitAcceptedAsks(w, id, task.requestId, b);
    }
  }

  lemma SessionCreatedAsks(w: World, id: nat, task: Task, b: Body)
    ensures Asks(w, SessionCreated(w, id, task, b), At(w.chat.generation, NextCall(w.chat, task, AwaitCreate, b)))
  {
    hide SentIn, SendChat, SubmitFailed;
    var v := w.(chat := w.chat.(sessionId := Some(b.sessionId), mode := Or(b.mode, task.mode), sequence := 0));
    SubmitFailedAsks(w, id, task.requestId, true, None, "The agent did not create a conversation.");
    CallAsks(v, ModelInfo(v.chat.sessionId));
    SendChatAsks(v, id, task);
  }

  lemma DisconnectedAsks(w: World, reason: string)
    ensures Asks(w, Disconnected(w, reason), None)
  {
    hide SentIn, Finish, ViewOf;
    var c := w.chat.(generation := w.chat.generation + 1, timer := None, connected := false,
                     connecting := false, requests := [], accepted := None, error := reason);
    PublishAsks(w.(chat := Finish(c, "interrupted").(sessionId := None)));
  }

  lemma PollRepliedAsks(w: World, gen: nat, reply: Reply)
    ensures Asks(w, PollReplied(w, gen, reply), None)
  {
    hide SentIn, Finish, Disconnected, ViewOf;
    match reply
    case Rejected(message) => DisconnectedAsks(w, Or(message, "The local agent stopped responding."));
    case Resolved(b) =>
      var status := Or(b.status, w.chat.status);
      var c := w.chat.(status := status);
      PublishAsks(w.(chat := if Terminal(status) then Finish(c, status) else c));
  }

  lemma CancelRepliedAsks(w: World, gen: nat, reply: Reply)
    ensures Asks(w, CancelReplied(w, gen, reply), None)
  {
    hide SentIn, Finish, ViewOf;
    if reply.Resolved? {
      var status := Or(reply.body.status, "cancellation_requested");
      var c := w.chat.(status := status);
      PublishAsks(w.(chat := if status == "closed" then Finish(c.(sessionId := None), "cancelled")
                             else if Terminal(status) then Finish(c, status) else c));
    }
  }

  lemma SessionClearedAsks(w: World)
    ensures Asks(w, SessionCleared(w), None)
  {
    hide SentIn, ViewOf;
    var c := w.chat;
    PublishAsks(w.(chat := c.(generation := c.generation + 1, busy := false, sessionId := None, jobId := None,
                              items := [], requests := [], accepted := None, status := "idle")));
  }

  lemma NewSessionAsks(w: World)
    ensures Asks(w, NewSession(w), At(w.chat.generation, RequestedBy(w.chat, NewTask)))
  {
    hide SentIn, ViewOf, SessionCleared;
    var u := w.(chat := w.chat.(busy := true));
    PublishAsks(u);
    SessionClearedAsks(Publish(u));
    CallAsks(Publish(u), SessionCancel(w.chat.sessionId));
  }

  lemma CaughtAsks(w: World, gen: nat, message: string)
    ensures Asks(w, Caught(w, gen, message), None)
  {
    hide SentIn, ViewOf, Add;
    PublishAsks(w.(chat := Add(w.chat, ErrorNote, Or(message, "The action could not complete."))));
  }

  lemma ChangeModeAsks(w: World, mode: string)
    ensures Asks(w, ChangeMode(w, mode), At(w.chat.generation, RequestedBy(w.chat, SetModeTo(mode))))
  {
    hide SentIn, ViewOf, Caught;
    PublishAsks(w.(chat := w.chat.(mode := mode)));
    CaughtAsks(w, w.chat.generation, "Update the CLI to change permissions.");
    CallAsks(w, SetMode(w.chat.sessionId, mode));
  }

  lemma {:induction false} FindPendingFinds(items: seq<Item>, approvalId: Option<string>)
    ensures FindPending(items, approvalId) < |items| <==>
              exists i :: 0 <= i < |items| && items[i].approvalId == approvalId && items[i].status.Pending?
  {
    if items != [] && !(items[0].approvalId == approvalId && items[0].status.Pending?) {
      FindPendingFinds(items[1..], approvalId);
      assert forall i :: 1 <= i < |items| ==> items[i] == items[1..][i - 1];
    }
  }

  /** There is one pending approval with an id at most. */
  lemma AnswerableIsFound(c: Chat, approvalId: Option<string>, d: Decision)
    requires WellKept(c)
    ensures var i := FindPending(c.items, approvalId);
            Answerable(c, approvalId, d) <==> i < |c.items| && (d.AllowForSession? ==> c.items[i].allowForSession)
  {
    var i := FindPending(c.items, approvalId);
    FindPendingFinds(c.items, approvalId);
    if Answerable(c, approvalId, d) {
      var k :| 0 <= k < |c.items| && c.items[k].approvalId == approvalId && c.items[k].status.Pending?
               && (d.AllowForSession? ==> c.items[k].allowForSession);
      assert ItemKept(c.items[i], c.counter) && ItemKept(c.items[k], c.counter);
      assert i < k ==> InOrder(c.items[i], c.items[k]);
      assert k < i ==> InOrder(c.items[k], c.items[i]);
    }
  }

  lemma ApproveAsks(w: World, approvalId: Option<string>, decision: Option<Decision>)
    requires WellKept(w.chat)
    ensures Asks(w, ApproveItem(w, approvalId, decision),
                 At(w.chat.generation, RequestedBy(w.chat, Approve(approvalId, decision))))
  {
    hide SentIn, FindPending, Answerable, WellKept;
    if decision.Some? {
      var d := decision.value;
      AnswerableIsFound(w.chat, approvalId, d);
      CallAsks(w, Told(w.chat.sessionId, approvalId, d));
    }
  }

  lemma HandleAsks(w: World, m: Message)
    requires WellKept(w.chat)
    ensures Asks(w, Handle(w, m), At(w.chat.generation, RequestedBy(w.chat, m)))
  {
    hide SentIn, ViewOf, SubmitTask, ApproveItem, ChangeMode, NewSession, Connect, Caught, WellKept, Answerable, Starts;
    match m
    case Malformed =>
    case Ready => PublishAsks(w);
    case Submit(raw) => SubmitTaskAsks(w, raw);
    case CancelTask => CallAsks(w, SessionCancel(w.chat.sessionId));
    case Approve(approvalId, decision) => ApproveAsks(w, approvalId, decision);
    case SetModeTo(mode) => ChangeModeAsks(w, mode);
    case NewTask => NewSessionAsks(w);
    case Reconnect => ConnectAsks(w);
    case LocateCli => CallAsks(w, NativeAction);
    case Native => CallAsks(w, NativeAction);
    case Unsupported => CaughtAsks(w, w.chat.generation, "This action is not available in the JetBrains preview yet.");
  }

  lemma EventAsks(w: World, e: Event)
    ensures Asks(w, OnEvent(w, e), None)
  {
    hide SentIn, ViewOf, ApplyEvent, Unseen, Relevant, Newer;
    if Relevant(w.chat, e) && Newer(w.chat.sequence, e) {
      NewerHasSequence(w.chat.sequence, e);
      PublishAsks(w.(chat := ApplyEvent(w.chat.(sequence := e.sequence.value), e)));
    }
  }

  lemma NewerHasSequence(sequence: int, e: Event)
    ensures Newer(sequence, e) ==> e.sequence.Some?
  {
  }

  lemma ConfigureAsks(w: World, id: nat, f: Frame, reply: Reply)
    requires f.ConfigureFrame?
    ensures Asks(w, Replied(w, id, f, reply),
                 if ConfirmedConfigure(f, reply) then Some(Sent(w.chat.generation + 1, Initialize)) else None)
  {
    hide SentIn, Connect, Disconnected, Caught;
    if reply.Rejected? {
      CaughtAsks(w, f.gen, reply.message);
    } else if reply.body.confirmed {
      DisconnectedAsks(w, "");
      ConnectAsks(Disconnected(w, ""));
      AfterDisconnect(w);
    }
  }

  lemma AfterDisconnect(w: World)
    ensures var c := Disconnected(w, "").chat;
            !c.busy && !c.connecting && !c.connected && c.generation == w.chat.generation + 1
  {
  }

  /** A reply to a call that is no submit asks for nothing, but for the confirmed dialog. */
  lemma RepliedAsks(w: World, id: nat, f: Frame, reply: Reply)
    requires !f.SubmitFrame? && (f.WaiterFrame? ==> f.call in w.settled)
    ensures Asks(w, Replied(w, id, f, reply),
                 if ConfirmedConfigure(f, reply) then Some(Sent(w.chat.generation + 1, Initialize)) else None)
  {
    hide SentIn, ViewOf, PollReplied, CancelReplied, Caught, SessionCleared;
    match f
    case ConnectFrame(gen) => ConnectRepliedAsks(w, gen, reply);
    case WaiterFrame(gen, key, call) => EmitAsks(w, TaskResult(key, w.settled[call]));
    case PollFrame(gen, _) => PollRepliedAsks(w, gen, reply);
    case ApproveFrame(gen, item, decision) => ApproveRepliedAsks(w, gen, item, decision, reply);
    case CancelFrame(gen) => CancelRepliedAsks(w, gen, reply);
    case NewSessionFrame(gen) => SessionClearedAsks(w);
    case ModeFrame(gen) => ModeRepliedAsks(w, id, f, reply);
    case ConfigureFrame(gen) => ConfigureAsks(w, id, f, reply);
    case NativeFrame(gen) => if reply.Rejected? { CaughtAsks(w, gen, reply.message); }
    case CatchFrame(gen, message) => CaughtAsks(w, gen, message);
  }

  lemma ConnectRepliedAsks(w: World, gen: nat, reply: Reply)
    ensures Asks(w, ConnectReplied(w, gen, reply), None)
  {
    hide SentIn, ViewOf;
    if gen == w.chat.generation {
      var c := match reply
        case Rejected(message) =>
          w.chat.(connected := false, error := Or(message, "Could not connect to the local agent."))
        case Resolved(b) =>
          if b.protocol != "1" || !(REQUIRED_METHODS <= b.methods)
          then w.chat.(methods := b.methods, connected := false, error := INCOMPATIBLE)
          else w.chat.(methods := b.methods, connected := true);
      PublishAsks(w.(chat := c.(connecting := false)));
    }
  }

  lemma ApproveRepliedAsks(w: World, gen: nat, item: nat, decision: Decision, reply: Reply)
    ensures Asks(w, ApproveReplied(w, gen, item, decision, reply), None)
  {
    hide SentIn, ViewOf;
    if reply.Resolved? {
      var status := if reply.body.status == "expired" then Expired else Decided(decision);
      PublishAsks(w.(chat := w.chat.(items := SetStatus(w.chat.items, item, status))));
    }
  }

  lemma ModeRepliedAsks(w: World, id: nat, f: Frame, reply: Reply)
    requires f.ModeFrame?
    ensures Asks(w, Replied(w, id, f, reply), None)
  {
    hide SentIn, ViewOf, Caught;
    match reply
    case Rejected(message) => CaughtAsks(w, f.gen, message);
    case Resolved(b) => PublishAsks(w.(chat := w.chat.(mode := Or(b.mode, w.chat.mode))));
  }

  lemma TimerAsks(w: World)
    ensures Asks(w, TimerFired(w), Requested(w, TimerFires))
  {
    hide SentIn;
    if w.chat.timer.Some? && w.chat.jobId.Some? {
      CallAsks(w.(chat := w.chat.(timer := None)), JobStatus(w.chat.jobId.value));
    }
  }

  /** Every step sends exactly the call that the protocol prescribes, or none. */
  lemma StepAsks(w: World, input: Input)
    requires WellKept(w.chat)
    ensures Asks(w, Step(w, input), Requested(w, input))
  {
    hide SentIn, Handle, OnEvent, Disconnected, TimerFired, Replied, RequestedBy, NextCall, WellKept;
    match input
    case Deliver(m) => HandleAsks(w, m);
    case HostEvent(e) => EventAsks(w, e);
    case HostDisconnected(reason) => DisconnectedAsks(w, reason);
    case TimerFires => TimerAsks(w);
    case Resume(id, reply) =>
      if Enabled(w, id) {
        var u, f := w.(pending := w.pending - {id}), w.pending[id];
        if f.SubmitFrame? {
          SubmitRepliedAsks(u, id, f, reply);
          ReplyOfSubmit(u, id, f, reply);
        } else {
          RepliedAsks(u, id, f, reply);
        }
      }
  }

  /** The calls that the protocol prescribes for a run. */
  function Prescribed(inputs: seq<Input>): seq<Effect>
    decreases |inputs|
  {
    if inputs == [] then []
    else
      var front := inputs[..|inputs| - 1];
      Prescribed(front) + Listed(Requested(Run(INITIAL, front), inputs[|inputs| - 1]))
  }

  /** A run sends exactly the calls that the protocol prescribes, in order. */
  lemma {:induction false} RunFollowsProtocol(inputs: seq<Input>)
    ensures SentIn(Run(INITIAL, inputs).log) == Prescribed(inputs)
    decreases |inputs|
  {
    hide SentIn, Step, Requested;
    if inputs == [] {
      NothingSentYet();
    } else {
      RunFollowsProtocol(inputs[..|inputs| - 1]);
      TranscriptWellKept(inputs[..|inputs| - 1]);
      StepAsks(Run(INITIAL, inputs[..|inputs| - 1]), inputs[|inputs| - 1]);
    }
  }

  lemma NothingSentYet()
    ensures SentIn(INITIAL.log) == []
  {
  }
}
