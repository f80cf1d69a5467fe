/**
 What the steps that end something leave behind: a connect, a turn, an answer to an approval, a failed send
 and a change of session.
 */
module ChatOutcomes {
  import opened Wrappers
  import opened Text
  import opened ChatSpec
  import opened ChatInvariants
  import opened ChatTranscript
  import opened ChatExact
  import opened ChatStream
  import L = ChatLimit

  // ----- Connecting -----

  /** An agent that speaks the protocol. */
  predicate Capable(methods: set<string>) {
    && "session.create" in methods && "chat.send" in methods && "session.cancel" in methods
    && "approval.respond" in methods && "job.status" in methods
  }

  /** The reply that connects the chat. */
  predicate Connects(w: World, input: Input) {
    && input.Resume? && input.id in w.pending && w.pending[input.id] == ConnectFrame(w.chat.generation)
    && input.reply.Resolved? && input.reply.body.protocol == "1" && Capable(input.reply.body.methods)
  }

  /** The connection is as it was, or lost. */
  predicate NotBetter(c: Chat, d: Chat) {
    d.connected ==> c.connected && d.methods == c.methods
  }

  lemma SubmitNotBetter(w: World, raw: Task)
    ensures NotBetter(w.chat, SubmitTask(w, raw).chat)
  {
    hide SubmitOnce, Instruction;
    SubmitOnceKeepsConnecting(w.(nextId := w.nextId + 1), w.nextId, raw.(instruction := Instruction(raw)));
  }

  lemma ChangeModeNotBetter(w: World, mode: string)
    ensures NotBetter(w.chat, ChangeMode(w, mode).chat)
  {
    hide Caught, ViewOf;
    CaughtSameConnection(w, w.chat.generation, "Update the CLI to change permissions.");
  }

  lemma ApproveNotBetter(w: World, approvalId: Option<string>, decision: Option<Decision>)
    ensures NotBetter(w.chat, ApproveItem(w, approvalId, decision).chat)
  {
    hide FindPending;
  }

  lemma HandleNotBetter(w: World, m: Message)
    ensures NotBetter(w.chat, Handle(w, m).chat)
  {
    hide SubmitTask, ChangeMode, ApproveItem, Caught, Evict, ViewOf;
    match m
    case Submit(raw) => SubmitNotBetter(w, raw);
    case SetModeTo(mode) => ChangeModeNotBetter(w, mode);
    case Approve(approvalId, decision) => ApproveNotBetter(w, approvalId, decision);
    case Unsupported =>
      CaughtSameConnection(w, w.chat.generation, "This action is not available in the JetBrains preview yet.");
    case _ =>
  }

  lemma RepliedNotBetter(w: World, id: nat, f: Frame, reply: Reply)
    requires f.WaiterFrame? ==> f.call in w.settled
    requires f == ConnectFrame(w.chat.generation) ==> reply.Resolved? ==>
               reply.body.protocol != "1" || !Capable(reply.body.methods)
    ensures NotBetter(w.chat, Replied(w, id, f, reply).chat)
  {
    hide SubmitReplied, PollReplied, CancelReplied, Evict, ViewOf, FinishItems;
    match f
    case ConnectFrame(gen) =>
    case SubmitFrame(gen, task, point) => SubmitRepliedConnection(w, id, gen, task, point, reply);
    case PollFrame(gen, _) => PollNotBetter(w, gen, reply);
    case CancelFrame(gen) => CancelNotBetter(w, gen, reply);
    case NewSessionFrame(_) =>
    case ConfigureFrame(_) =>
    case _ =>
  }

  lemma PollNotBetter(w: World, gen: nat, reply: Reply)
    ensures NotBetter(w.chat, PollReplied(w, gen, reply).chat)
  {
    hide Evict, ViewOf, FinishItems, Terminal;
  }

  lemma CancelNotBetter(w: World, gen: nat, reply: Reply)
    ensures NotBetter(w.chat, CancelReplied(w, gen, reply).chat)
  {
    hide Evict, ViewOf, FinishItems, Terminal;
  }

  lemma EventNotBetter(w: World, e: Event)
    ensures NotBetter(w.chat, OnEvent(w, e).chat)
  {
    EventChangesItems(w.chat.(sequence := if e.sequence.Some? then e.sequence.value else 0), e);
  }

  lemma StepNotBetter(w: World, input: Input)
    requires !Connects(w, input)
    ensures NotBetter(w.chat, Step(w, input).chat)
  {
    hide Handle, OnEvent, Disconnected, Replied, Capable;
    match input
    case Deliver(m) => HandleNotBetter(w, m);
    case HostEvent(e) => EventNotBetter(w, e);
    case HostDisconnected(reason) => LostConnection(w, reason);
    case TimerFires =>
    case Resume(id, reply) =>
      if Enabled(w, id) { RepliedNotBetter(w.(pending := w.pending - {id}), id, w.pending[id], reply); }
  }

  lemma LostConnection(w: World, reason: string)
    ensures !Disconnected(w, reason).chat.connected
  {
  }

  lemma GoodReplyConnects(w: World, input: Input)
    requires Connects(w, input)
    ensures var d := Step(w, input).chat;
            d.connected && !d.connecting && d.methods == input.reply.body.methods && d.error == w.chat.error
  {
  }

  /** The chat gets connected exactly by the answer of an agent that speaks the protocol. */
  lemma ConnectsExactly(w: World, input: Input)
    requires !w.chat.connected
    ensures Step(w, input).chat.connected <==> Connects(w, input)
  {
    hide Step, Connects;
    if Connects(w, input) { GoodReplyConnects(w, input); } else { StepNotBetter(w, input); }
  }

  /** Any other answer to a connect gives a reason. */
  lemma FailedConnectSaysWhy(w: World, input: Input)
    requires input.Resume? && input.id in w.pending && w.pending[input.id] == ConnectFrame(w.chat.generation)
    requires !Connects(w, input)
    ensures var d := Step(w, input).chat;
            && !d.connected && !d.connecting
            && d.error == match input.reply {
                 case Rejected(message) => if message != "" then message else "Could not connect to the local agent."
                 case Resolved(_) =>
                   "This CLI does not support the required Alysis chat protocol. Update the CLI and reconnect."
               }
  {
  }

  /** A connected chat is connected to an agent that speaks the protocol. */
  lemma {:induction false} ConnectedIsCapable(inputs: seq<Input>)
    ensures var c := Run(INITIAL, inputs).chat; c.connected ==> Capable(c.methods)
    decreases |inputs|
  {
    if inputs != [] {
      var front, last := inputs[..|inputs| - 1], inputs[|inputs| - 1];
      var w := Run(INITIAL, front);
      ConnectedIsCapable(front);
      hide Step, Capable;
      if Connects(w, last) { GoodReplyConnects(w, last); } else { StepNotBetter(w, last); }
    }
  }

  // ----- The end of a turn -----

  /** An open answer is complete, a pending approval has expired, and all else is as it was. */
  function EndedItem(x: Item): Item {
    match x.status
    case Streaming => if x.kind.Assistant? then x.(status := Complete) else x
    case Pending => if x.kind.Approval? then x.(status := Expired) else x
    case _ => x
  }

  function Ended(items: seq<Item>): (r: seq<Item>)
    ensures |r| == |items| && forall i :: 0 <= i < |items| ==> r[i] == EndedItem(items[i])
  {
    seq(|items|, i requires 0 <= i < |items| => EndedItem(items[i]))
  }

  /** The status with which a reply ends the turn. */
  function EndStatus(c: Chat, f: Frame, reply: Reply): string
    requires EndsTurn(c, f, reply)
  {
    var status := reply.body.status;
    match f
    case CancelFrame(_) => if status == "closed" then "cancelled" else status
    case PollFrame(_, _) => if status != "" then status else c.status
    case SubmitFrame(_, _, _) => status
  }

  lemma FinishEnds(c: Chat, status: string)
    requires WellKept(c)
    ensures var d := Finish(c, status);
            && d.status == status && !d.busy && d.jobId.None? && d.timer.None? && d.sessionId == c.sessionId
            && d.items == if status == "cancelled"
                          then Room(Ended(c.items)) + [Item(c.counter + 1, Notice, "Stopped.", Complete, None, false)]
                          else Ended(c.items)
  {
    hide Evict, Room, WellKept;
    FinishItemsEnd(c.items);
    var x := Item(c.counter + 1, Notice, "Stopped.", Complete, None, false);
    EvictSnoc(Ended(c.items), x);
    NothingCrowds(c);
    assert Clip("Stopped.", TEXT_LIMIT) == "Stopped.";
  }

  lemma FinishItemsEnd(items: seq<Item>)
    ensures FinishItems(items) == Ended(items)
  {
  }

  lemma NothingCrowds(c: Chat)
    requires WellKept(c)
    ensures !Crowded(Ended(c.items))
  {
    forall x | x in Ended(c.items) ensures !x.status.Pending? {
      var i :| 0 <= i < |c.items| && Ended(c.items)[i] == x;
      assert ItemKept(c.items[i], c.counter);
    }
    L.AllSettled(Ended(c.items));
  }

  /**
   The end of a turn settles every item as it should, frees the chat and keeps its session, unless the
   session was closed; a cancelled turn ends with a notice.
   */
  lemma TurnEnds(w: World, id: nat, reply: Reply)
    requires WellKept(w.chat) && Enabled(w, id) && EndsTurn(w.chat, w.pending[id], reply)
    ensures var c, d, status := w.chat, Step(w, Resume(id, reply)).chat, EndStatus(w.chat, w.pending[id], reply);
            && d.status == status && !d.busy && d.jobId.None? && d.timer.None?
            && d.sessionId == (if w.pending[id].CancelFrame? && reply.body.status == "closed" then None
                               else c.sessionId)
            && d.items == if status == "cancelled"
                          then Room(Ended(c.items)) + [Item(c.counter + 1, Notice, "Stopped.", Complete, None, false)]
                          else Ended(c.items)
  {
    hide Finish, WellKept, Room, Ended, ViewOf;
    var c, f, status := w.chat, w.pending[id], EndStatus(w.chat, w.pending[id], reply);
    var d := match f
      case CancelFrame(_) =>
        if reply.body.status == "closed" then c.(status := "closed", sessionId := None) else c.(status := status)
      case PollFrame(_, _) => c.(status := status)
      case SubmitFrame(_, task, _) =>
        c.(jobId := Some(reply.body.jobId), accepted := Some(task.requestId), status := status);
    SameKept(c, d);
    FinishEnds(d, status);
  }

  /** A lost connection ends the turn too, and says why. */
  lemma DisconnectEnds(w: World, reason: string)
    requires WellKept(w.chat)
    ensures var c, d := w.chat, Step(w, HostDisconnected(reason)).chat;
            && d.items == Ended(c.items) && d.status == "interrupted" && d.error == reason
            && !d.busy && d.jobId.None? && d.timer.None? && d.sessionId.None? && !d.connected && !d.connecting
            && d.mode == c.mode && d.counter == c.counter && d.generation == c.generation + 1
  {
    FinishItemsEnd(w.chat.items);
  }

  // ----- Answers to approvals -----

  /**
   The reply to an answer shows the user's decision at its approval, or that it came too late, and nothing
   else changes.
   */
  lemma AnswerIsShown(w: World, id: nat, reply: Reply)
    requires Enabled(w, id) && AnswersApproval(w.chat, w.pending[id], reply)
    ensures var c, d, f := w.chat, Step(w, Resume(id, reply)).chat, w.pending[id];
            && d == c.(items := d.items) && |d.items| == |c.items|
            && forall i :: 0 <= i < |c.items| ==>
                 d.items[i] == if c.items[i].id != f.item then c.items[i]
                               else if reply.body.status == "expired" then c.items[i].(status := Expired)
                               else c.items[i].(status := Decided(f.decision))
  {
  }

  // ----- A failed send -----

  /** The items but for those with the id. */
  function Others(items: seq<Item>, id: nat): seq<Item>
    decreases |items|
  {
    if items == [] then []
    else Others(items[..|items| - 1], id) + if items[|items| - 1].id == id then [] else [items[|items| - 1]]
  }

  lemma {:induction false} DropSnoc(items: seq<Item>, x: Item, id: nat)
    ensures Drop(items + [x], id) == Drop(items, id) + if x.id == id then [] else [x]
  {
    if items == [] {
      assert [] + [x] == [x] && [x][1..] == [];
    } else {
      assert (items + [x])[0] == items[0] && (items + [x])[1..] == items[1..] + [x];
      DropSnoc(items[1..], x, id);
    }
  }

  lemma {:induction false} DropIsOthers(items: seq<Item>, id: nat)
    ensures Drop(items, id) == Others(items, id)
    decreases |items|
  {
    if items != [] {
      var front, last := items[..|items| - 1], items[|items| - 1];
      DropIsOthers(front, id);
      DropSnoc(front, last, id);
      assert items == front + [last];
    }
  }

  /** The chat after a failure: an error at the end, unless pending approvals leave no room for it. */
  predicate Reports(items: seq<Item>, c: Chat, d: Chat, message: string) {
    && d.items == Room(items) + (if Crowded(items) then []
                                 else [Item(c.counter + 1, ErrorNote, Head(message, 100000), Complete, None, false)])
    && d.counter == c.counter + 1
  }

  lemma AddReports(c: Chat, message: string)
    ensures Reports(c.items, c, Add(c, ErrorNote, message), message)
  {
    hide Evict, Room, Crowded;
    EvictSnoc(c.items, Item(c.counter + 1, ErrorNote, Clip(message, TEXT_LIMIT), Complete, None, false));
  }

  /** A `chat.send` that fails takes its message back, reports why and frees the chat. */
  lemma FailedSendTakesBack(w: World, id: nat, reply: Reply)
    requires id in w.pending && AwaitsSend(w, id) && (reply.Rejected? || reply.body.jobId == "")
    ensures var c, d, item := w.chat, Step(w, Resume(id, reply)).chat, w.pending[id].point.userItem;
            var message := match reply
              case Rejected(m) => if m != "" then m else "The task could not start."
              case Resolved(_) => "The agent did not start a task.";
            && Reports(Others(c.items, item), c, d, message)
            && !d.busy && d.status == "failed" && d.sessionId == c.sessionId && d.jobId == c.jobId
  {
    hide Reports, Add, ViewOf;
    var c, item := w.chat, w.pending[id].point.userItem;
    DropIsOthers(c.items, item);
    var d := c.(items := Others(c.items, item), busy := false, status := "failed");
    var message := match reply case Rejected(m) => Or(m, "The task could not start.")
                               case Resolved(_) => "The agent did not start a task.";
    AddReports(d, message);
    ReportsSame(c, d, Add(d, ErrorNote, message), message);
    AddKeepsJob(d, message);
  }

  predicate AwaitsSend(w: World, id: nat) {
    SubmitsNow(w, id) && w.pending[id].point.AwaitSend?
  }

  lemma ReportsSame(c: Chat, d: Chat, e: Chat, message: string)
    requires Reports(d.items, d, e, message) && d.counter == c.counter
    ensures Reports(d.items, c, e, message)
  {
  }

  lemma AddKeepsJob(c: Chat, message: string)
    ensures var d := Add(c, ErrorNote, message);
            d.busy == c.busy && d.status == c.status && d.sessionId == c.sessionId && d.jobId == c.jobId
  {
  }

  // ----- Sessions and modes -----

  /** A step that gives up the old session for a new one. */
  predicate StartsAnew(w: World, input: Input) {
    || (input == Deliver(NewTask) && !w.chat.busy && w.chat.sessionId.None?)
    || (input.Resume? && input.id in w.pending && w.pending[input.id] == NewSessionFrame(w.chat.generation)
        && input.reply.Resolved?)
  }

  /** A new task begins with an empty transcript, no session and nothing running; the connection stays. */
  lemma NewTaskClears(w: World, input: Input)
    requires StartsAnew(w, input)
    ensures var c, d := w.chat, Step(w, input).chat;
            && d.items == [] && d.sessionId.None? && d.jobId.None? && !d.busy && d.status == "idle"
            && d.requests == [] && d.accepted.None? && d.generation == c.generation + 1
            && d.connected == c.connected && d.connecting == c.connecting && d.methods == c.methods && d.mode == c.mode
  {
  }

  /** Without a session the user's mode holds at once; with one, the mode is what the agent reports. */
  lemma ModeIsSet(w: World, mode: string, id: nat, reply: Reply)
    ensures !w.chat.busy && w.chat.sessionId.None? && mode in ["readonly", "review", "auto"] ==>
              Step(w, Deliver(SetModeTo(mode))).chat == w.chat.(mode := mode)
    ensures id in w.pending && w.pending[id] == ModeFrame(w.chat.generation) && reply.Resolved? ==>
              Step(w, Resume(id, reply)).chat
              == if reply.body.mode == "" then w.chat else w.chat.(mode := reply.body.mode)
  {
    hide ViewOf;
  }
}
