/**
 How far the transcript goes beyond its limit of 200 items: exactly which step makes it longer, that no
 other run does, and that with such steps there is no bound.
 */
module ChatLimit {
  import opened Wrappers
  import opened Text
  import opened ChatSpec
  import opened ChatInvariants
  import opened ChatTranscript
  import opened ChatExact

  function Max(a: int, b: int): int {
    if a < b then b else a
  }

  ghost predicate AllPending(items: seq<Item>) {
    forall i :: 0 <= i < |items| ==> items[i].status.Pending?
  }

  /**
   A new prompt for an approval that is not shown yet, while at least 200 items are shown and all of them
   are pending.
   */
  ghost predicate Crowds(c: Chat, input: Input) {
    && input.HostEvent? && input.event.kind.Prompt? && input.event.isApproval
    && Relevant(c, input.event) && Newer(c.sequence, input.event) && !Unseen(c, input.event)
    && |c.items| >= ITEM_LIMIT && AllPending(c.items)
  }

  // ----- One item more -----

  lemma {:induction false} SettledSnoc(items: seq<Item>, item: Item)
    ensures Settled(items + [item]) == Settled(items) + if item.status.Pending? then 0 else 1
  {
    if items == [] {
      assert items + [item] == [item] && [item][1..] == [];
    } else {
      assert (items + [item])[1..] == items[1..] + [item];
      SettledSnoc(items[1..], item);
    }
  }

  lemma {:induction false} NoneSettled(items: seq<Item>)
    ensures Settled(items) == 0 <==> AllPending(items)
  {
    if items != [] {
      NoneSettled(items[1..]);
      assert forall i :: 1 <= i < |items| ==> items[i] == items[1..][i - 1];
    }
  }

  lemma {:induction false} DropSettledSettles(items: seq<Item>, n: nat)
    requires n <= Settled(items)
    ensures Settled(DropSettled(items, n)) == Settled(items) - n
  {
    if n > 0 {
      if items[0].status.Pending? {
        DropSettledSettles(items[1..], n);
        assert DropSettled(items, n)[1..] == DropSettled(items[1..], n);
      } else {
        DropSettledSettles(items[1..], n - 1);
      }
    }
  }

  lemma EvictCounts(items: seq<Item>)
    ensures |Evict(items)| == |items| - Excess(items) && Settled(Evict(items)) == Settled(items) - Excess(items)
  {
    EvictDropsOldestSettled(items);
    DropSettledCounts(items, Excess(items));
    DropSettledSettles(items, Excess(items));
  }

  /** How many items, and how many settled ones, are left when one is added. */
  lemma AddCounts(c: Chat, kind: Kind, content: string, status: ItemStatus, approvalId: Option<string>, allow: bool)
    ensures var items := Add(c, kind, content, status, approvalId, allow).items;
            var settled := Settled(c.items) + if status.Pending? then 0 else 1;
            var excess := if |c.items| < ITEM_LIMIT then 0
                          else if |c.items| + 1 - ITEM_LIMIT <= settled then |c.items| + 1 - ITEM_LIMIT
                          else settled;
            |items| == |c.items| + 1 - excess && Settled(items) == settled - excess
  {
    var item := Item(c.counter + 1, kind, Clip(content, TEXT_LIMIT), status, approvalId, allow);
    SettledSnoc(c.items, item);
    EvictCounts(c.items + [item]);
    hide Settled, Evict, Clip;
  }

  /**
   The transcript grows, and beyond the limit, if and only if a pending item is added to a full one of
   pending items.
   */
  lemma AddCrowds(c: Chat, kind: Kind, content: string, status: ItemStatus, approvalId: Option<string>, allow: bool)
    ensures |Add(c, kind, content, status, approvalId, allow).items| > Max(|c.items|, ITEM_LIMIT)
            <==> status.Pending? && |c.items| >= ITEM_LIMIT && AllPending(c.items)
  {
    AddCounts(c, kind, content, status, approvalId, allow);
    NoneSettled(c.items);
  }

  // ----- Every other stretch -----

  /** `d` has no more items than `c`, or than the limit. */
  predicate Held(c: Chat, d: Chat) {
    |d.items| <= Max(|c.items|, ITEM_LIMIT)
  }

  lemma SettledAddHeld(c: Chat, kind: Kind, content: string)
    ensures Held(c, Add(c, kind, content))
  {
    AddCrowds(c, kind, content, Complete, None, false);
  }

  lemma {:induction false} DropShortens(items: seq<Item>, id: nat)
    ensures |Drop(items, id)| <= |items|
  {
    if items != [] { DropShortens(items[1..], id); }
  }

  lemma FinishHeld(c: Chat, status: string)
    ensures Held(c, Finish(c, status))
    ensures status != "cancelled" ==> |Finish(c, status).items| == |c.items|
  {
    SettledAddHeld(c.(status := status, busy := false, jobId := None, timer := None, items := FinishItems(c.items)),
                   Notice, "Stopped.");
  }

  lemma SubmitFailedHeld(w: World, id: nat, key: string, started: bool, userItem: Option<nat>, message: string)
    ensures Held(w.chat, SubmitFailed(w, id, key, started, userItem, message).chat)
  {
    hide Add;
    if userItem.Some? { DropShortens(w.chat.items, userItem.value); }
    var c := if userItem.Some? then w.chat.(items := Drop(w.chat.items, userItem.value)) else w.chat;
    SettledAddHeld(if started then c.(busy := false, status := "failed") else c, ErrorNote,
                   Or(message, "The task could not start."));
  }

  lemma SendChatHeld(w: World, id: nat, task: Task)
    ensures Held(w.chat, SendChat(w, id, task).chat)
  {
    SettledAddHeld(w.chat, UserTurn, task.instruction);
  }

  lemma SubmitOnceHeld(w: World, id: nat, task: Task)
    ensures Held(w.chat, SubmitOnce(w, id, task).chat)
  {
    hide SubmitFailed, SendChat;
    var c := w.chat;
    if Refusal(c, task).Some? {
      SubmitFailedHeld(w, id, task.requestId, false, None, Refusal(c, task).value);
    } else {
      var v := Publish(w.(chat := c.(busy := true, status := "starting")));
      SendChatHeld(v, id, task);
      SubmitFailedHeld(v, id, task.requestId, true, None, "Update the CLI to change permissions.");
    }
  }

  lemma SubmitAcceptedHeld(w: World, id: nat, key: string, b: Body)
    ensures Held(w.chat, SubmitAccepted(w, id, key, b).chat)
  {
    hide Finish;
    var c := w.chat.(jobId := Some(b.jobId), accepted := Some(key), status := Or(b.status, "running"));
    FinishHeld(c, c.status);
  }

  lemma SubmitRepliedHeld(w: World, id: nat, gen: nat, task: Task, point: SubmitPoint, reply: Reply)
    ensures Held(w.chat, SubmitReplied(w, id, gen, task, point, reply).chat)
  {
    hide SubmitFailed, SendChat, SubmitAccepted;
    if gen != w.chat.generation { return; }
    if reply.Rejected? {
      SubmitFailedHeld(w, id, task.requestId, true, if point.AwaitSend? then Some(point.userItem) else None,
                       reply.message);
      return;
    }
    var c, b := w.chat, reply.body;
    match point
    case AwaitCreate =>
      SubmitFailedHeld(w, id, task.requestId, true, None, "The agent did not create a conversation.");
      SendChatHeld(w.(chat := c.(sessionId := Some(b.sessionId), mode := Or(b.mode, task.mode), sequence := 0)), id,
                   task);
    case AwaitModel => SendChatHeld(w.(chat := c.(model := Or(b.model, Or(b.modelName, c.model)))), id, task);
    case AwaitMode =>
      var v := w.(chat := c.(mode := Or(b.mode, c.mode)));
      SubmitFailedHeld(v, id, task.requestId, true, None, "The agent did not accept the selected permissions.");
      SendChatHeld(v, id, task);
    case AwaitSend(item) =>
      SubmitFailedHeld(w, id, task.requestId, true, Some(item), "The agent did not start a task.");
      SubmitAcceptedHeld(w, id, task.requestId, b);
  }

  lemma DisconnectedHeld(w: World, reason: string)
    ensures |Disconnected(w, reason).chat.items| == |w.chat.items|
  {
  }

  lemma CancelRepliedHeld(w: World, gen: nat, reply: Reply)
    ensures Held(w.chat, CancelReplied(w, gen, reply).chat)
  {
    hide Finish;
    if reply.Resolved? {
      var status := Or(reply.body.status, "cancellation_requested");
      var c := w.chat.(status := status);
      FinishHeld(c.(sessionId := None), "cancelled");
      FinishHeld(c, status);
    }
  }

  lemma PollRepliedHeld(w: World, gen: nat, reply: Reply)
    ensures Held(w.chat, PollReplied(w, gen, reply).chat)
  {
    hide Finish, Disconnected;
    match reply
    case Rejected(message) => DisconnectedHeld(w, Or(message, "The local agent stopped responding."));
    case Resolved(b) => FinishHeld(w.chat.(status := Or(b.status, w.chat.status)), Or(b.status, w.chat.status));
  }

  lemma CaughtHeld(w: World, gen: nat, message: string)
    ensures Held(w.chat, Caught(w, gen, message).chat)
  {
    SettledAddHeld(w.chat, ErrorNote, Or(message, "The action could not complete."));
  }

  lemma RepliedHeld(w: World, id: nat, f: Frame, reply: Reply)
    requires f.WaiterFrame? ==> f.call in w.settled
    ensures Held(w.chat, Replied(w, id, f, reply).chat)
  {
    hide SubmitReplied, PollReplied, CancelReplied, Caught, Disconnected;
    match f
    case SubmitFrame(gen, task, point) => SubmitRepliedHeld(w, id, gen, task, point, reply);
    case PollFrame(gen, _) => PollRepliedHeld(w, gen, reply);
    case CancelFrame(gen) => CancelRepliedHeld(w, gen, reply);
    case ConfigureFrame(gen) =>
      DisconnectedHeld(w, "");
      if reply.Rejected? { CaughtHeld(w, gen, reply.message); }
    case CatchFrame(gen, message) => CaughtHeld(w, gen, message);
    case ModeFrame(gen) => if reply.Rejected? { CaughtHeld(w, gen, reply.message); }
    case NativeFrame(gen) => if reply.Rejected? { CaughtHeld(w, gen, reply.message); }
    case _ =>
  }

  lemma SubmitTaskHeld(w: World, raw: Task)
    ensures Held(w.chat, SubmitTask(w, raw).chat)
  {
    hide SubmitOnce;
    SubmitOnceHeld(w.(nextId := w.nextId + 1), w.nextId, raw.(instruction := Instruction(raw)));
  }

  lemma HandleHeld(w: World, m: Message)
    ensures Held(w.chat, Handle(w, m).chat)
  {
    hide SubmitTask, Caught;
    match m
    case Submit(task) => SubmitTaskHeld(w, task);
    case SetModeTo(mode) => CaughtHeld(w, w.chat.generation, "Update the CLI to change permissions.");
    case Unsupported => CaughtHeld(w, w.chat.generation, "This action is not available in the JetBrains preview yet.");
    case _ =>
  }

  lemma ApplyTextHeld(c: Chat, e: Event)
    ensures Held(c, ApplyText(c, e))
  {
    hide Add;
    AddCrowds(c, Assistant, "", Streaming, None, false);
  }

  lemma EventCrowds(w: World, e: Event)
    ensures !Held(w.chat, OnEvent(w, e).chat) <==> Crowds(w.chat, HostEvent(e))
  {
    hide Add, ApplyText, Unseen;
    if Relevant(w.chat, e) && Newer(w.chat.sequence, e) {
      var c := w.chat.(sequence := e.sequence.value);
      UnseenIgnoresSequence(w.chat, c, e);
      match e.kind
      case MessageDelta => ApplyTextHeld(c, e);
      case MessageEnd => ApplyTextHeld(c, e);
      case Prompt => AddCrowds(c, Approval, Clip(Or(e.reason, e.promptText), TEXT_LIMIT), Pending, e.approvalId,
                               e.allowForSession);
      case ErrorRaised => SettledAddHeld(c, ErrorNote,
                                         Or(Clip(Or(e.message, e.error), 4000), "The agent reported an error."));
      case ToolStarted => SettledAddHeld(c, Notice, "Using " + Or(Clip(Or(e.toolName, e.name), 100), "a tool") + "…");
      case OtherEvent =>
    }
  }

  lemma UnseenIgnoresSequence(c: Chat, d: Chat, e: Event)
    requires d == c.(sequence := d.sequence)
    ensures Unseen(d, e) == Unseen(c, e)
  {
  }

  /**
   The transcript grows beyond its limit, or further beyond it, if and only if the step is a new prompt for
   an approval that is not shown yet, while at least 200 items are shown and all of them are pending.
   */
  lemma CrowdsExactly(w: World, input: Input)
    ensures |Step(w, input).chat.items| > Max(|w.chat.items|, ITEM_LIMIT) <==> Crowds(w.chat, input)
  {
    hide Handle, OnEvent, Disconnected, Replied, Crowds;
    var c, d := w.chat, Step(w, input).chat;
    NoOtherCrowds(c, input);
    match input
    case Deliver(m) => HandleHeld(w, m);
    case HostEvent(e) => EventCrowds(w, e);
    case HostDisconnected(reason) => DisconnectedHeld(w, reason);
    case Resume(id, reply) =>
      if Enabled(w, id) { RepliedHeld(w.(pending := w.pending - {id}), id, w.pending[id], reply); }
    case TimerFires =>
  }

  lemma NoOtherCrowds(c: Chat, input: Input)
    ensures Crowds(c, input) ==> input.HostEvent?
  {
  }

  // ----- Over runs -----

  /** No step of the run is such a prompt. */
  ghost predicate Uncrowded(inputs: seq<Input>)
    decreases |inputs|
  {
    inputs == [] ||
    var front := inputs[..|inputs| - 1];
    Uncrowded(front) && !Crowds(Run(INITIAL, front).chat, inputs[|inputs| - 1])
  }

  /** At no time in the run more than 200 items are shown. */
  ghost predicate NeverOver(inputs: seq<Input>)
    decreases |inputs|
  {
    |Run(INITIAL, inputs).chat.items| <= ITEM_LIMIT && (inputs == [] || NeverOver(inputs[..|inputs| - 1]))
  }

  /** A run keeps to the limit if and only if it has no such prompt. */
  lemma {:induction false} LimitKeptExactly(inputs: seq<Input>)
    ensures NeverOver(inputs) <==> Uncrowded(inputs)
    decreases |inputs|
  {
    if inputs != [] {
      var front, last := inputs[..|inputs| - 1], inputs[|inputs| - 1];
      LimitKeptExactly(front);
      CrowdsExactly(Run(INITIAL, front), last);
      if NeverOver(front) { OverOnlyNow(front); }
    }
  }

  lemma OverOnlyNow(inputs: seq<Input>)
    requires NeverOver(inputs)
    ensures |Run(INITIAL, inputs).chat.items| <= ITEM_LIMIT
  {
  }

  // ----- There is no bound -----

  /** A different approval id for every number. */
  function Ticks(n: nat): string {
    seq(n, _ => 'p')
  }

  function PromptFor(n: nat): Event {
    Event("s", "", Some(n), Prompt, false, None, true, Some(Ticks(n)), "", "", false, "", "", "", "")
  }

  /** The first message is under way, and the agent asks for `n` approvals. */
  function Asking(n: nat): seq<Input> {
    if n == 0 then TO_SENT else Asking(n - 1) + [HostEvent(PromptFor(n))]
  }

  /** After `n` prompts: all of them are pending, and the user's message is there until it has to go. */
  ghost predicate Asked(c: Chat, n: nat) {
    && c.sessionId == Some("s") && c.busy && c.jobId.None? && c.sequence == n
    && (forall i :: 0 <= i < |c.items| && c.items[i].approvalId.Some? ==> |c.items[i].approvalId.value| <= n)
    && if n < ITEM_LIMIT then |c.items| == n + 1 && Settled(c.items) == 1 else |c.items| == n && Settled(c.items) == 0
  }

  /** The effect of such a prompt, for a chat in which its approval is not shown. */
  lemma PromptAdds(w: World, n: nat)
    requires Asked(w.chat, n) && n < MAX_SAFE_INTEGER
    ensures OnEvent(w, PromptFor(n + 1)).chat
            == Add(w.chat.(sequence := n + 1), Approval, "", Pending, Some(Ticks(n + 1)), false)
  {
    hide Settled, Add;
    assert |Ticks(n + 1)| == n + 1;
    assert !Unseen(w.chat.(sequence := n + 1), PromptFor(n + 1));
  }

  lemma EvictWithin(items: seq<Item>)
    ensures forall x :: x in Evict(items) ==> x in items
  {
    var at := EvictSpec(items);
    SelectedMembers(items, at, Evict(items));
  }

  lemma AddKeepsRest(c: Chat, kind: Kind, content: string, status: ItemStatus, approvalId: Option<string>, allow: bool)
    ensures var d := Add(c, kind, content, status, approvalId, allow);
            && d.sessionId == c.sessionId && d.busy == c.busy && d.jobId == c.jobId && d.sequence == c.sequence
            && forall x :: x in d.items ==> x in c.items || x.approvalId == approvalId
  {
    var item := Item(c.counter + 1, kind, Clip(content, TEXT_LIMIT), status, approvalId, allow);
    EvictWithin(c.items + [item]);
    hide Evict, Clip;
    assert forall x :: x in c.items + [item] ==> x in c.items || x == item;
  }

  lemma PromptAsks(w: World, n: nat)
    requires Asked(w.chat, n) && n < MAX_SAFE_INTEGER
    ensures Asked(OnEvent(w, PromptFor(n + 1)).chat, n + 1)
  {
    hide Settled, Add, OnEvent;
    var c, d := w.chat.(sequence := n + 1), OnEvent(w, PromptFor(n + 1)).chat;
    PromptAdds(w, n);
    AddCounts(c, Approval, "", Pending, Some(Ticks(n + 1)), false);
    AddKeepsRest(c, Approval, "", Pending, Some(Ticks(n + 1)), false);
    forall i | 0 <= i < |d.items| && d.items[i].approvalId.Some? ensures |d.items[i].approvalId.value| <= n + 1 {
      assert d.items[i] in d.items;
    }
  }

  lemma SentAsked()
    ensures Asked(SENT, 0)
  {
    assert Settled(SENT.items) == 1 + Settled(SENT.items[1..]);
    assert SENT.items[1..] == [];
  }

  lemma {:induction false} AskingAsks(n: nat)
    requires n <= MAX_SAFE_INTEGER
    ensures Asked(Run(INITIAL, Asking(n)).chat, n)
  {
    hide Asked, OnEvent;
    if n == 0 {
      SentState();
      SentAsked();
    } else {
      AskingAsks(n - 1);
      PromptAsks(Run(INITIAL, Asking(n - 1)), n - 1);
      RunSnoc(INITIAL, Asking(n - 1), HostEvent(PromptFor(n)));
    }
  }

  /**
   There is no bound: as many approvals as an agent can number can be shown at once, and when the agent
   disconnects they are all settled and all stay.
   */
  lemma {:induction false} AnyNumberStays(n: nat)
    requires ITEM_LIMIT <= n <= MAX_SAFE_INTEGER
    ensures var c := Run(INITIAL, Asking(n)).chat; |c.items| == n && AllPending(c.items)
    ensures var c := Run(INITIAL, Asking(n) + [HostDisconnected("")]).chat;
            |c.items| == n && Settled(c.items) == n
  {
    var w := Run(INITIAL, Asking(n));
    AskingAsks(n);
    NoneSettled(w.chat.items);
    RunSnoc(INITIAL, Asking(n), HostDisconnected(""));
    DisconnectedHeld(w, "");
    TranscriptWellKept(Asking(n));
    DisconnectedSettles(w, "");
    AllSettled(Disconnected(w, "").chat.items);
  }

  lemma DisconnectedSettles(w: World, reason: string)
    requires WellKept(w.chat)
    ensures forall x :: x in Disconnected(w, reason).chat.items ==> !x.status.Pending?
  {
    var c := w.chat.(generation := w.chat.generation + 1, timer := None, connected := false,
                     connecting := false, requests := [], accepted := None, error := reason);
    SameItemsCarries(w.chat, c);
    FinishKept(c, "interrupted");
  }

  lemma {:induction false} AllSettled(items: seq<Item>)
    requires forall x :: x in items ==> !x.status.Pending?
    ensures Settled(items) == |items|
  {
    if items != [] {
      AllSettled(items[1..]);
    }
  }
}
