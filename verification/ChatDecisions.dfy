/**
 What the user decided and what was typed is what the agent is told: every answer to an approval and every
 task among the calls of a run comes from a message of the sidebar, and what an approval shows was sent.
 */
module ChatDecisions {
  import opened Wrappers
  import opened Text
  import opened ChatSpec
  import opened ChatInvariants
  import opened ChatTranscript
  import opened HostHandOff
  import opened ChatExact
  import opened ChatProtocol
  import A = ChatAnswers
  import L = ChatLimit

  // ----- Where the items come from -----

  /** `x` is an item of the list as it was, or with another text or status; only an answer decides an approval. */
  ghost predicate From(items: seq<Item>, x: Item) {
    exists y :: y in items && y.id == x.id && y.kind == x.kind && y.approvalId == x.approvalId
                && y.allowForSession == x.allowForSession && (x.kind.Approval? ==> y.text == x.text)
                && (x.status.Decided? ==> y.status == x.status)
  }

  ghost predicate Traced(c: Chat, d: Chat) {
    && c.counter <= d.counter
    && forall x :: x in d.items ==> (x.id > c.counter && !x.status.Decided?) || From(c.items, x)
  }

  lemma SubsetTraced(c: Chat, d: Chat)
    requires c.counter <= d.counter && forall x :: x in d.items ==> x in c.items
    ensures Traced(c, d)
  {
  }

  lemma TracedTransitive(c: Chat, d: Chat, e: Chat)
    requires Traced(c, d) && Traced(d, e)
    ensures Traced(c, e)
  {
    forall x | x in e.items && !(x.id > c.counter && !x.status.Decided?) ensures From(c.items, x) {
      assert From(d.items, x);
      var y :| y in d.items && y.id == x.id && y.kind == x.kind && y.approvalId == x.approvalId
               && y.allowForSession == x.allowForSession && (x.kind.Approval? ==> y.text == x.text)
               && (x.status.Decided? ==> y.status == x.status);
      assert From(c.items, y);
    }
  }

  lemma AddTraced(c: Chat, kind: Kind, content: string, status: ItemStatus, approvalId: Option<string>, allow: bool)
    requires !status.Decided?
    ensures Traced(c, Add(c, kind, content, status, approvalId, allow))
  {
    var item := Item(c.counter + 1, kind, Clip(content, TEXT_LIMIT), status, approvalId, allow);
    L.EvictWithin(c.items + [item]);
    hide Evict, Clip;
    assert forall x :: x in c.items + [item] ==> x in c.items || x == item;
  }

  lemma DropTraced(c: Chat, id: nat)
    ensures Traced(c, c.(items := Drop(c.items, id)))
  {
    var at := DropSelects(c.items, id);
    SelectedMembers(c.items, at, Drop(c.items, id));
  }

  lemma FinishItemsTraced(c: Chat)
    ensures Traced(c, c.(items := FinishItems(c.items)))
  {
    var d := c.(items := FinishItems(c.items));
    forall x | x in d.items ensures From(c.items, x) {
      var i :| 0 <= i < |d.items| && d.items[i] == x;
      assert c.items[i] in c.items;
    }
  }

  lemma FinishTraced(c: Chat, status: string)
    ensures Traced(c, Finish(c, status))
  {
    hide Traced, Add;
    var c1 := c.(items := FinishItems(c.items));
    var c2 := c.(status := status, busy := false, jobId := None, timer := None, items := FinishItems(c.items));
    FinishItemsTraced(c);
    SubsetTraced(c1, c2);
    TracedTransitive(c, c1, c2);
    AddTraced(c2, Notice, "Stopped.", Complete, None, false);
    TracedTransitive(c, c2, Add(c2, Notice, "Stopped."));
  }

  lemma TextTraced(c: Chat, item: Item, text: string, status: ItemStatus)
    requires !status.Decided? && item.kind.Assistant?
    requires forall i :: 0 <= i < |c.items| && c.items[i].id == item.id ==> c.items[i] == item
    ensures Traced(c, c.(items := WithItem(c.items, item.(text := text, status := status))))
  {
    var d := c.(items := WithItem(c.items, item.(text := text, status := status)));
    forall x | x in d.items ensures From(c.items, x) {
      var i :| 0 <= i < |d.items| && d.items[i] == x;
      assert c.items[i] in c.items;
    }
  }

  lemma ApplyTextTraced(c: Chat, e: Event)
    requires WellKept(c)
    ensures Traced(c, ApplyText(c, e))
  {
    hide Traced, Add, Preview, WellKept;
    var text := if e.text.Some? then Clip(e.text.value, TEXT_LIMIT) else "";
    if StreamOpen(c) {
      var item := c.items[|c.items| - 1];
      LastIsAlone(c);
      TextTraced(c, item, Preview(if e.kind.MessageEnd? && e.text.Some? then e.text.value else item.text + text),
                 if e.kind.MessageEnd? then Complete else item.status);
    } else {
      var base := Add(c, Assistant, "", Streaming);
      var item := Item(base.counter, Assistant, "", Streaming, None, false);
      AddTraced(c, Assistant, "", Streaming, None, false);
      OpenedItem(c, base, item);
      TextTraced(base, item, Preview(if e.kind.MessageEnd? && e.text.Some? then e.text.value else "" + text),
                 if e.kind.MessageEnd? then Complete else Streaming);
      TracedTransitive(c, base, ApplyText(c, e));
    }
  }

  lemma EventTraced(w: World, e: Event)
    requires WellKept(w.chat)
    ensures Traced(w.chat, OnEvent(w, e).chat)
  {
    hide Traced, Add, ApplyText, WellKept, Unseen, Relevant;
    SubsetTraced(w.chat, w.chat);
    if Relevant(w.chat, e) && Newer(w.chat.sequence, e) {
      var c := w.chat.(sequence := e.sequence.value);
      SubsetTraced(w.chat, c);
      SameKept(w.chat, c);
      ApplyTextTraced(c, e);
      AddTraced(c, Approval, Clip(Or(e.reason, e.promptText), TEXT_LIMIT), Pending, e.approvalId, e.allowForSession);
      AddTraced(c, ErrorNote, Or(Clip(Or(e.message, e.error), 4000), "The agent reported an error."), Complete, None,
                false);
      AddTraced(c, Notice, "Using " + Or(Clip(Or(e.toolName, e.name), 100), "a tool") + "…", Complete, None, false);
      TracedTransitive(w.chat, c, OnEvent(w, e).chat);
    }
  }

  lemma SubmitFailedTraced(w: World, id: nat, key: string, started: bool, userItem: Option<nat>, message: string)
    ensures Traced(w.chat, SubmitFailed(w, id, key, started, userItem, message).chat)
  {
    hide Traced, Add;
    var c := w.chat;
    var c1 := if userItem.Some? then c.(items := Drop(c.items, userItem.value)) else c;
    var c2 := if started then c1.(busy := false, status := "failed") else c1;
    if userItem.Some? { DropTraced(c, userItem.value); } else { SubsetTraced(c, c1); }
    SubsetTraced(c1, c2);
    AddTraced(c2, ErrorNote, Or(message, "The task could not start."), Complete, None, false);
    TracedTransitive(c, c1, c2);
    TracedTransitive(c, c2, Add(c2, ErrorNote, Or(message, "The task could not start.")));
  }

  lemma SendChatTraced(c: Chat, w: World, id: nat, task: Task)
    requires w.chat.items == c.items && w.chat.counter == c.counter
    ensures Traced(c, SendChat(w, id, task).chat)
  {
    hide Traced, Add;
    SubsetTraced(c, w.chat);
    AddTraced(w.chat, UserTurn, task.instruction, Complete, None, false);
    TracedTransitive(c, w.chat, SendChat(w, id, task).chat);
  }

  lemma FailureTraced(c: Chat, w: World, id: nat, key: string, message: string)
    requires w.chat.items == c.items && w.chat.counter == c.counter
    ensures Traced(c, SubmitFailed(w, id, key, true, None, message).chat)
  {
    hide Traced, SubmitFailed;
    SubsetTraced(c, w.chat);
    SubmitFailedTraced(w, id, key, true, None, message);
    TracedTransitive(c, w.chat, SubmitFailed(w, id, key, true, None, message).chat);
  }

  lemma SubmitOnceTraced(w: World, id: nat, task: Task)
    ensures Traced(w.chat, SubmitOnce(w, id, task).chat)
  {
    hide Traced, SendChat, SubmitFailed;
    var c := w.chat;
    if Refusal(c, task).Some? {
      SubmitFailedTraced(w, id, task.requestId, false, None, Refusal(c, task).value);
    } else {
      var v := Publish(w.(chat := c.(busy := true, status := "starting")));
      SubsetTraced(c, v.chat);
      SendChatTraced(c, v, id, task);
      FailureTraced(c, v, id, task.requestId, "Update the CLI to change permissions.");
    }
  }

  lemma SubmitTaskTraced(w: World, raw: Task)
    ensures Traced(w.chat, SubmitTask(w, raw).chat)
  {
    hide Traced, SubmitOnce;
    var u, task := w.(nextId := w.nextId + 1), raw.(instruction := Instruction(raw));
    SubsetTraced(w.chat, w.chat);
    SubmitOnceTraced(u, w.nextId, task);
    SubsetTraced(SubmitOnce(u, w.nextId, task).chat, FirstSubmit(w, task).chat);
    TracedTransitive(w.chat, SubmitOnce(u, w.nextId, task).chat, FirstSubmit(w, task).chat);
  }

  lemma SubmitAcceptedTraced(w: World, id: nat, key: string, b: Body)
    ensures Traced(w.chat, SubmitAccepted(w, id, key, b).chat)
  {
    hide Traced, Finish;
    var c := w.chat.(jobId := Some(b.jobId), accepted := Some(key), status := Or(b.status, "running"));
    SubsetTraced(w.chat, c);
    SubsetTraced(w.chat, SchedulePoll(c));
    FinishTraced(c, c.status);
    TracedTransitive(w.chat, c, Finish(c, c.status));
  }

  lemma SubmitRepliedTraced(w: World, id: nat, gen: nat, task: Task, point: SubmitPoint, reply: Reply)
    ensures Traced(w.chat, SubmitReplied(w, id, gen, task, point, reply).chat)
  {
    hide Traced, SendChat, SubmitFailed, SubmitAccepted;
    SubsetTraced(w.chat, w.chat);
    if gen != w.chat.generation { return; }
    if reply.Rejected? {
      SubmitFailedTraced(w, id, task.requestId, true, if point.AwaitSend? then Some(point.userItem) else None,
                         reply.message);
      return;
    }
    var c, b := w.chat, reply.body;
    match point
    case AwaitCreate =>
      var v := w.(chat := c.(sessionId := Some(b.sessionId), mode := Or(b.mode, task.mode), sequence := 0));
      FailureTraced(c, w, id, task.requestId, "The agent did not create a conversation.");
      SubsetTraced(c, v.chat);
      SendChatTraced(c, v, id, task);
    case AwaitModel => SendChatTraced(c, w.(chat := c.(model := Or(b.model, Or(b.modelName, c.model)))), id, task);
    case AwaitMode =>
      var v := w.(chat := c.(mode := Or(b.mode, c.mode)));
      FailureTraced(c, v, id, task.requestId, "The agent did not accept the selected permissions.");
      SendChatTraced(c, v, id, task);
    case AwaitSend(item) =>
      SubmitFailedTraced(w, id, task.requestId, true, Some(item), "The agent did not start a task.");
      SubmitAcceptedTraced(w, id, task.requestId, b);
  }

  lemma DisconnectedTraced(w: World, reason: string)
    ensures Traced(w.chat, Disconnected(w, reason).chat)
  {
    hide Traced, Finish;
    var c := w.chat.(generation := w.chat.generation + 1, timer := None, connected := false,
                     connecting := false, requests := [], accepted := None, error := reason);
    var d := Finish(c, "interrupted");
    SubsetTraced(w.chat, c);
    FinishTraced(c, "interrupted");
    SubsetTraced(d, d.(sessionId := None));
    TracedTransitive(w.chat, c, d);
    TracedTransitive(w.chat, d, d.(sessionId := None));
  }

  lemma CancelRepliedTraced(w: World, gen: nat, reply: Reply)
    ensures Traced(w.chat, CancelReplied(w, gen, reply).chat)
  {
    hide Traced, Finish;
    SubsetTraced(w.chat, w.chat);
    if reply.Resolved? {
      var status := Or(reply.body.status, "cancellation_requested");
      var c := w.chat.(status := status);
      SubsetTraced(w.chat, c);
      SubsetTraced(w.chat, c.(sessionId := None));
      FinishTraced(c.(sessionId := None), "cancelled");
      FinishTraced(c, status);
      TracedTransitive(w.chat, c, Finish(c, status));
      TracedTransitive(w.chat, c.(sessionId := None), Finish(c.(sessionId := None), "cancelled"));
    }
  }

  lemma PollRepliedTraced(w: World, gen: nat, reply: Reply)
    ensures Traced(w.chat, PollReplied(w, gen, reply).chat)
  {
    hide Traced, Finish, Disconnected;
    SubsetTraced(w.chat, w.chat);
    match reply
    case Rejected(message) => DisconnectedTraced(w, Or(message, "The local agent stopped responding."));
    case Resolved(b) =>
      var c := w.chat.(status := Or(b.status, w.chat.status));
      SubsetTraced(w.chat, c);
      SubsetTraced(w.chat, SchedulePoll(c));
      FinishTraced(c, c.status);
      SubsetTraced(Finish(c, c.status), SchedulePoll(Finish(c, c.status)));
      TracedTransitive(w.chat, c, Finish(c, c.status));
      TracedTransitive(w.chat, Finish(c, c.status), SchedulePoll(Finish(c, c.status)));
  }

  lemma CaughtTraced(w: World, gen: nat, message: string)
    ensures Traced(w.chat, Caught(w, gen, message).chat)
  {
    hide Traced, Add;
    SubsetTraced(w.chat, w.chat);
    AddTraced(w.chat, ErrorNote, Or(message, "The action could not complete."), Complete, None, false);
  }

  /** The answer to an approval that takes effect. */
  predicate Decides(c: Chat, f: Frame, reply: Reply) {
    f.ApproveFrame? && f.gen == c.generation && reply.Resolved?
  }

  lemma RepliedTraced(w: World, id: nat, f: Frame, reply: Reply)
    requires (f.WaiterFrame? ==> f.call in w.settled) && !Decides(w.chat, f, reply)
    ensures Traced(w.chat, Replied(w, id, f, reply).chat)
  {
    hide Traced, SubmitReplied, PollReplied, CancelReplied, Caught, Disconnected;
    var d := Replied(w, id, f, reply).chat;
    SubsetTraced(w.chat, w.chat);
    match f
    case SubmitFrame(gen, task, point) => SubmitRepliedTraced(w, id, gen, task, point, reply);
    case PollFrame(gen, _) => PollRepliedTraced(w, gen, reply);
    case CancelFrame(gen) => CancelRepliedTraced(w, gen, reply);
    case ConfigureFrame(gen) => ConfigureTraced(w, id, f, reply);
    case CatchFrame(gen, message) => CaughtTraced(w, gen, message);
    case ModeFrame(gen) =>
      if reply.Rejected? { CaughtTraced(w, gen, reply.message); } else { SubsetTraced(w.chat, d); }
    case NativeFrame(gen) => if reply.Rejected? { CaughtTraced(w, gen, reply.message); }
    case _ => SubsetTraced(w.chat, d);
  }

  lemma ConfigureTraced(w: World, id: nat, f: Frame, reply: Reply)
    requires f.ConfigureFrame?
    ensures Traced(w.chat, Replied(w, id, f, reply).chat)
  {
    hide Traced, Caught, Disconnected;
    SubsetTraced(w.chat, w.chat);
    if reply.Rejected? {
      CaughtTraced(w, f.gen, reply.message);
    } else if reply.body.confirmed {
      DisconnectedTraced(w, "");
      var v := Disconnected(w, "");
      SubsetTraced(v.chat, Connect(v).chat);
      TracedTransitive(w.chat, v.chat, Connect(v).chat);
    }
  }

  lemma HandleTraced(w: World, m: Message)
    ensures Traced(w.chat, Handle(w, m).chat)
  {
    hide Traced, SubmitTask, Caught;
    SubsetTraced(w.chat, w.chat);
    match m
    case Submit(task) => SubmitTaskTraced(w, task);
    case SetModeTo(mode) =>
      SubsetTraced(w.chat, w.chat.(mode := mode));
      CaughtTraced(w, w.chat.generation, "Update the CLI to change permissions.");
    case Unsupported => CaughtTraced(w, w.chat.generation,
                                     "This action is not available in the JetBrains preview yet.");
    case _ => SubsetTraced(w.chat, Handle(w, m).chat);
  }

  /** The step takes up an answer to an approval. */
  predicate DecidesNow(w: World, input: Input) {
    input.Resume? && Enabled(w, input.id) && Decides(w.chat, w.pending[input.id], input.reply)
  }

  /** No other step decides an approval, or changes what it is for. */
  lemma StepTraced(w: World, input: Input)
    requires WellKept(w.chat) && !DecidesNow(w, input)
    ensures Traced(w.chat, Step(w, input).chat)
  {
    hide Traced, Handle, OnEvent, Disconnected, Replied, Decides;
    match input
    case Deliver(m) => HandleTraced(w, m);
    case HostEvent(e) => EventTraced(w, e);
    case HostDisconnected(reason) => DisconnectedTraced(w, reason);
    case TimerFires => SubsetTraced(w.chat, TimerFired(w).chat);
    case Resume(id, reply) =>
      SubsetTraced(w.chat, w.chat);
      if Enabled(w, id) { RepliedTraced(w.(pending := w.pending - {id}), id, w.pending[id], reply); }
  }

  // ----- Answers are sent as decided -----

  /** The call told the agent this decision for the approval. */
  predicate Tells(e: Effect, approvalId: Option<string>, d: Decision) {
    e.Sent? && e.rpc.ApprovalRespond? && e.rpc == Told(e.rpc.session, approvalId, d)
  }

  /** The call of which the frame awaits the answer, and what its item stands for. */
  predicate Awaited(c: Chat, f: Frame, e: Effect) {
    && f.ApproveFrame? && f.item <= c.counter && e.gen == f.gen && e.Sent? && e.rpc.ApprovalRespond?
    && Tells(e, e.rpc.approvalId, f.decision) && e.rpc.session.Some?
    && forall x :: x in c.items && x.id == f.item ==> x.approvalId == e.rpc.approvalId
  }

  ghost predicate WasSent(w: World, f: Frame) {
    exists e :: e in SentIn(w.log) && Awaited(w.chat, f, e)
  }

  ghost predicate WasTold(w: World, x: Item) {
    x.status.Decided? ==> exists e :: e in SentIn(w.log) && Tells(e, x.approvalId, x.status.decision)
  }

  /** Every outstanding answer was sent as the user decided, and every decision that is shown was sent. */
  ghost predicate AnswersSent(w: World) {
    && (forall id :: id in w.pending && w.pending[id].ApproveFrame? ==> WasSent(w, w.pending[id]))
    && forall x :: x in w.chat.items ==> WasTold(w, x)
  }

  ghost predicate SentGrows(w: World, v: World) {
    forall e :: e in SentIn(w.log) ==> e in SentIn(v.log)
  }

  lemma AsksGrows(w: World, v: World, e: Option<Effect>)
    requires Asks(w, v, e)
    ensures SentGrows(w, v)
  {
  }

  lemma TracedKeepsTold(w: World, v: World)
    requires Traced(w.chat, v.chat) && SentGrows(w, v) && forall x :: x in w.chat.items ==> WasTold(w, x)
    ensures forall x :: x in v.chat.items ==> WasTold(v, x)
  {
    forall x | x in v.chat.items && x.status.Decided? ensures WasTold(v, x) {
      assert From(w.chat.items, x);
      var y :| y in w.chat.items && y.approvalId == x.approvalId && y.status == x.status;
      assert WasTold(w, y);
    }
  }

  lemma TracedKeepsSent(w: World, v: World, f: Frame)
    requires Traced(w.chat, v.chat) && SentGrows(w, v) && WasSent(w, f)
    ensures WasSent(v, f)
  {
    var e :| e in SentIn(w.log) && Awaited(w.chat, f, e);
    forall x | x in v.chat.items && x.id == f.item ensures x.approvalId == e.rpc.approvalId {
      assert From(w.chat.items, x);
      var y :| y in w.chat.items && y.id == x.id && y.approvalId == x.approvalId;
    }
    assert Awaited(v.chat, f, e);
  }

  /** The answer that takes effect decides its item as the agent was told. */
  lemma DecidingKeeps(w: World, v: World, f: Frame, reply: Reply)
    requires AnswersSent(w) && SentGrows(w, v) && WasSent(w, f) && Decides(w.chat, f, reply)
    requires v.chat == w.chat.(items := SetStatus(w.chat.items, f.item,
                                                  if reply.body.status == "expired" then Expired
                                                      else Decided(f.decision)))
    ensures forall x :: x in v.chat.items ==> WasTold(v, x)
    ensures forall g: Frame :: WasSent(w, g) ==> WasSent(v, g)
  {
    var e :| e in SentIn(w.log) && Awaited(w.chat, f, e);
    forall x | x in v.chat.items ensures WasTold(v, x) {
      var i :| 0 <= i < |v.chat.items| && v.chat.items[i] == x;
      assert w.chat.items[i] in w.chat.items;
      assert WasTold(w, w.chat.items[i]);
      if x.id == f.item { assert Tells(e, x.approvalId, f.decision); }
    }
    forall g: Frame | WasSent(w, g) ensures WasSent(v, g) {
      var h :| h in SentIn(w.log) && Awaited(w.chat, g, h);
      forall x | x in v.chat.items && x.id == g.item ensures x.approvalId == h.rpc.approvalId {
        var i :| 0 <= i < |v.chat.items| && v.chat.items[i] == x;
        assert w.chat.items[i] in w.chat.items;
      }
      assert Awaited(v.chat, g, h);
    }
  }

  lemma OneItemPerId(c: Chat, x: Item, y: Item)
    requires WellKept(c) && x in c.items && y in c.items && x.id == y.id
    ensures x == y
  {
    var i :| 0 <= i < |c.items| && c.items[i] == x;
    var k :| 0 <= k < |c.items| && c.items[k] == y;
  }

  /** A message that answers an approval sends the decision before its call awaits the reply. */
  lemma ApproveSends(w: World, approvalId: Option<string>, decision: Option<Decision>, id: nat)
    requires Inv(w) && WellKept(w.chat)
    requires var v := ApproveItem(w, approvalId, decision); id in v.pending && id !in w.pending
    ensures WasSent(ApproveItem(w, approvalId, decision), ApproveItem(w, approvalId, decision).pending[id])
  {
    hide SentIn;
    var v, i := ApproveItem(w, approvalId, decision), FindPending(w.chat.items, approvalId);
    var e := Sent(w.chat.generation, Told(w.chat.sessionId, approvalId, decision.value));
    CallAsks(w, e.rpc);
    assert SentIn(v.log) == SentIn(w.log) + [e];
    assert e in SentIn(v.log);
    forall x | x in w.chat.items && x.id == w.chat.items[i].id ensures x.approvalId == approvalId {
      OneItemPerId(w.chat, w.chat.items[i], x);
    }
    assert ItemKept(w.chat.items[i], w.chat.counter);
    assert Awaited(v.chat, v.pending[id], e);
  }

  lemma StepKeepsSent(w: World, input: Input)
    requires Inv(w) && WellKept(w.chat) && AnswersSent(w)
    ensures AnswersSent(Step(w, input))
  {
    hide Step, Inv, WellKept, SentIn, Requested, Traced, WasSent, WasTold, A.NewAwait;
    var v := Step(w, input);
    StepAsks(w, input);
    AsksGrows(w, v, Requested(w, input));
    A.StepAwaitsOn(w, input);
    if DecidesNow(w, input) {
      DecidingStep(w, input);
      DecidingKeeps(w, v, w.pending[input.id], input.reply);
    } else {
      StepTraced(w, input);
      TracedKeepsTold(w, v);
    }
    forall id | id in v.pending && v.pending[id].ApproveFrame? ensures WasSent(v, v.pending[id]) {
      if id in w.pending && v.pending[id] == w.pending[id] {
        if !DecidesNow(w, input) { TracedKeepsSent(w, v, v.pending[id]); }
      } else {
        NewAnswer(w, input, id);
      }
    }
  }

  lemma NewAnswer(w: World, input: Input, id: nat)
    requires Inv(w) && WellKept(w.chat)
    requires var v := Step(w, input);
             && id in v.pending && v.pending[id].ApproveFrame? && A.NewAwait(w, input, v.pending[id])
             && !(id in w.pending && v.pending[id] == w.pending[id])
    ensures WasSent(Step(w, input), Step(w, input).pending[id])
  {
    hide Inv, WellKept, WasSent, ApproveItem;
    ApproveOnlyAdds(w, input.message.approvalId, input.message.decision);
    ApproveSends(w, input.message.approvalId, input.message.decision, id);
  }

  lemma ApproveOnlyAdds(w: World, approvalId: Option<string>, decision: Option<Decision>)
    requires Inv(w)
    ensures var v := ApproveItem(w, approvalId, decision);
            forall id :: id in w.pending ==> id in v.pending && v.pending[id] == w.pending[id]
  {
  }

  lemma DecidingStep(w: World, input: Input)
    requires DecidesNow(w, input)
    ensures var f, v := w.pending[input.id], Step(w, input);
            v.chat == w.chat.(items := SetStatus(w.chat.items, f.item,
                              if input.reply.body.status == "expired" then Expired else Decided(f.decision)))
  {
  }

  /**
   The agent is told what the user decided: in every reachable state each outstanding answer was sent in its
   generation with that decision and the id of its approval, and each decision that is shown was sent.
   */
  lemma {:induction false} AnswersAreSent(inputs: seq<Input>)
    ensures AnswersSent(Run(INITIAL, inputs))
    decreases |inputs|
  {
    if inputs != [] {
      AnswersAreSent(inputs[..|inputs| - 1]);
      RunKeeps(INITIAL, inputs[..|inputs| - 1]);
      TranscriptWellKept(inputs[..|inputs| - 1]);
      StepKeepsSent(Run(INITIAL, inputs[..|inputs| - 1]), inputs[|inputs| - 1]);
    }
  }

  // ----- And only that -----

  lemma {:induction false} PrescribedSomewhere(inputs: seq<Input>, e: Effect) returns (j: nat)
    requires e in Prescribed(inputs)
    ensures j < |inputs| && Requested(Run(INITIAL, inputs[..j]), inputs[j]) == Some(e)
    decreases |inputs|
  {
    hide Requested, Run;
    var front := inputs[..|inputs| - 1];
    if e in Prescribed(front) {
      j := PrescribedSomewhere(front, e);
      assert front[..j] == inputs[..j];
    } else {
      j := |inputs| - 1;
    }
  }

  /** The input answers a pending approval, and this call is what it tells the agent. */
  ghost predicate AnswersNow(w: World, input: Input, e: Effect) {
    && input.Deliver? && input.message.Approve? && input.message.decision.Some?
    && w.chat.busy && w.chat.sessionId.Some?
        && Answerable(w.chat, input.message.approvalId, input.message.decision.value)
    && e == Sent(w.chat.generation, Told(w.chat.sessionId, input.message.approvalId, input.message.decision.value))
  }

  /** Every answer that a run sends comes from a message of the user about an approval that was pending then. */
  lemma AnswersComeFromTheUser(inputs: seq<Input>, e: Effect) returns (j: nat)
    requires e in SentIn(Run(INITIAL, inputs).log) && e.Sent? && e.rpc.ApprovalRespond?
    ensures j < |inputs| && AnswersNow(Run(INITIAL, inputs[..j]), inputs[j], e)
  {
    RunFollowsProtocol(inputs);
    j := PrescribedSomewhere(inputs, e);
    hide Answerable, Starts, Run;
  }

  /** So a decision that is shown is one that the user made about this approval. */
  lemma DecisionWasMade(inputs: seq<Input>, x: Item) returns (j: nat)
    requires x in Run(INITIAL, inputs).chat.items && x.status.Decided?
    ensures j < |inputs| && inputs[j] == Deliver(Approve(x.approvalId, Some(x.status.decision)))
    ensures Answerable(Run(INITIAL, inputs[..j]).chat, x.approvalId, x.status.decision)
  {
    hide Answerable;
    AnswersAreSent(inputs);
    var w := Run(INITIAL, inputs);
    assert WasTold(w, x);
    var e :| e in SentIn(w.log) && Tells(e, x.approvalId, x.status.decision);
    j := AnswersComeFromTheUser(inputs, e);
    hide Run, SentIn;
  }

  // ----- Tasks are sent as typed -----

  /** What a task must be to be sent. */
  predicate Acceptable(task: Task) {
    && task.instruction != "" && task.instruction[0] != '/' && (task.workflow == "" || task.workflow == "chat")
    && (task.mode == "readonly" || task.mode == "review" || task.mode == "auto")
  }

  /** A message of the run brought the task, trimmed and cut to size. */
  ghost predicate Typed(inputs: seq<Input>, task: Task) {
    exists j :: 0 <= j < |inputs| && Brings(inputs[j], task)
  }

  predicate Brings(input: Input, task: Task) {
    input.Deliver? && input.message.Submit?
    && task == input.message.task.(instruction := Instruction(input.message.task)) && Acceptable(task)
  }

  lemma StartsIsAcceptable(c: Chat, raw: Task)
    requires Starts(c, raw)
    ensures Brings(Deliver(Submit(raw)), raw.(instruction := Instruction(raw)))
  {
  }

  /** Every submit under way works for a task that the run brought. */
  ghost predicate AllTyped(w: World, inputs: seq<Input>) {
    forall id :: id in w.pending && w.pending[id].SubmitFrame? ==> Typed(inputs, w.pending[id].task)
  }

  lemma TypedGrows(inputs: seq<Input>, last: Input, task: Task)
    requires Typed(inputs, task) || Brings(last, task)
    ensures Typed(inputs + [last], task)
  {
    hide Brings;
    if Typed(inputs, task) {
      var j :| 0 <= j < |inputs| && Brings(inputs[j], task);
      assert (inputs + [last])[j] == inputs[j];
    } else {
      assert (inputs + [last])[|inputs|] == last;
    }
  }

  /** A submit under way after a step was under way before, or has just been brought. */
  ghost predicate KeepsTasks(w: World, v: World, input: Input) {
    forall id :: id in v.pending && v.pending[id].SubmitFrame? ==>
      (id in w.pending && w.pending[id].SubmitFrame? && w.pending[id].task == v.pending[id].task)
      || Brings(input, v.pending[id].task)
  }

  lemma ApartKeepsTasks(w: World, v: World, input: Input)
    requires Apart(w, v)
    ensures KeepsTasks(w, v, input)
  {
  }

  lemma TaskKeepsTasks(w: World, raw: Task)
    requires Inv(w)
    ensures KeepsTasks(w, SubmitTask(w, raw), Deliver(Submit(raw)))
  {
    hide SubmitOnce, Instruction, Remember, Brings, Refusal;
    var task := raw.(instruction := Instruction(raw));
    if Starts(w.chat, raw) { StartsIsAcceptable(w.chat, raw); }
    if WellFormedId(task.requestId) && !Known(w.chat.requests, task.requestId) {
      SubmitOnceBusy(w.(nextId := w.nextId + 1), w.nextId, task);
    }
  }

  lemma ReplyKeepsTasks(w: World, id: nat, reply: Reply)
    requires Inv(w) && Enabled(w, id)
    ensures KeepsTasks(w, Step(w, Resume(id, reply)), Resume(id, reply))
  {
    hide SubmitReplied, Brings;
    var u, f := w.(pending := w.pending - {id}), w.pending[id];
    if f.SubmitFrame? {
      if f.gen == w.chat.generation {
        SubmitRepliedOutcome(u, id, f.task, f.point, reply);
      } else {
        StaleReplySettles(u, id, f, reply);
      }
    } else if !f.WaiterFrame? {
      RepliedApart(u, id, f, reply);
    }
  }

  lemma StepKeepsTasks(w: World, input: Input)
    requires Inv(w)
    ensures KeepsTasks(w, Step(w, input), input)
  {
    hide Handle, OnEvent, Disconnected, TimerFired, Replied, Brings, KeepsTasks;
    var v := Step(w, input);
    match input
    case Deliver(m) =>
      if m.Submit? {
        TaskKeepsTasks(w, m.task);
        DeliverTask(w, m.task);
      } else {
        HandleApart(w, m);
        ApartKeepsTasks(w, v, input);
      }
    case HostEvent(e) => EventApart(w, e); ApartKeepsTasks(w, v, input);
    case HostDisconnected(reason) => DisconnectedApart(w, reason); ApartKeepsTasks(w, v, input);
    case TimerFires => TimerKeepsTasks(w);
    case Resume(id, reply) => if Enabled(w, id) { ReplyKeepsTasks(w, id, reply); } else { SameKeepsTasks(w, input); }
  }

  lemma SameKeepsTasks(w: World, input: Input)
    ensures KeepsTasks(w, w, input)
  {
  }

  lemma TimerKeepsTasks(w: World)
    ensures KeepsTasks(w, TimerFired(w), TimerFires)
  {
    assert Apart(w, TimerFired(w));
  }

  lemma {:induction false} SubmitsAreTyped(inputs: seq<Input>)
    ensures AllTyped(Run(INITIAL, inputs), inputs)
    decreases |inputs|
  {
    hide Step, Inv, Typed, Brings;
    if inputs == [] {
      NothingPendingYet();
    } else {
      var front, last := inputs[..|inputs| - 1], inputs[|inputs| - 1];
      var w, v := Run(INITIAL, front), Run(INITIAL, inputs);
      SubmitsAreTyped(front);
      RunKeeps(INITIAL, front);
      StepKeepsTasks(w, last);
      assert inputs == front + [last];
      forall id | id in v.pending && v.pending[id].SubmitFrame? ensures Typed(inputs, v.pending[id].task) {
        TypedGrows(front, last, v.pending[id].task);
      }
    }
  }

  lemma NothingPendingYet()
    ensures INITIAL.pending == map[]
  {
  }

  lemma {:induction false} TypedLonger(inputs: seq<Input>, j: nat, task: Task)
    requires j <= |inputs| && Typed(inputs[..j], task)
    ensures Typed(inputs, task)
  {
    var k :| 0 <= k < j && Brings(inputs[..j][k], task);
    assert inputs[k] == inputs[..j][k];
  }

  /** Every task that a run sends to the agent is one that a message brought, under its id, and acceptable. */
  lemma SentWasTyped(inputs: seq<Input>, e: Effect)
    requires e in SentIn(Run(INITIAL, inputs).log) && e.Sent? && e.rpc.ChatSend?
    ensures exists task :: Typed(inputs, task) && e.rpc.message == task.instruction && e.rpc.key == task.requestId
  {
    hide Acceptable, SentIn;
    RunFollowsProtocol(inputs);
    var j := PrescribedSomewhere(inputs, e);
    var w := Run(INITIAL, inputs[..j]);
    var task := SentTask(w, inputs[j], e);
    if inputs[j].Deliver? {
      assert Typed(inputs, task);
    } else {
      SubmitsAreTyped(inputs[..j]);
      TypedLonger(inputs, j, task);
    }
  }

  lemma SentTask(w: World, input: Input, e: Effect) returns (task: Task)
    requires Requested(w, input) == Some(e) && e.Sent? && e.rpc.ChatSend?
    ensures e.rpc.message == task.instruction && e.rpc.key == task.requestId
    ensures if input.Deliver? then Brings(input, task)
            else input.Resume? && input.id in w.pending && w.pending[input.id].SubmitFrame?
                 && w.pending[input.id].task == task
  {
    hide Starts, Acceptable, Instruction;
    if input.Deliver? {
      task := input.message.task.(instruction := Instruction(input.message.task));
      StartsIsAcceptable(w.chat, input.message.task);
    } else {
      task := w.pending[input.id].task;
    }
  }

  /** The mode of a new session is that of a task, and a mode is changed to that of a task or as the user asked. */
  lemma ModesAreAsked(inputs: seq<Input>, e: Effect) returns (j: nat)
    requires e in SentIn(Run(INITIAL, inputs).log) && e.Sent? && (e.rpc.SessionCreate? || e.rpc.SetMode?)
    ensures j < |inputs| && inputs[j].Deliver?
    ensures if inputs[j].message.Submit? then inputs[j].message.task.mode == e.rpc.mode
            else e.rpc.SetMode? && inputs[j].message == SetModeTo(e.rpc.mode)
  {
    RunFollowsProtocol(inputs);
    j := PrescribedSomewhere(inputs, e);
    hide Answerable, Starts, Run, SentIn, Instruction;
  }

  // ----- The mode of a task -----

  /** The mode of the task that the step sends. */
  function ModeSent(w: World, input: Input): string
    requires Sends(w, input)
  {
    match input
    case Deliver(m) => m.task.mode
    case Resume(id, _) => w.pending[id].task.mode
  }

  /** The mode that the agent has reported is the task's own, when the task is sent. */
  predicate InItsMode(w: World, input: Input)
    requires Sends(w, input)
  {
    match input
    case Deliver(_) => true
    case Resume(id, reply) =>
      match w.pending[id].point
      case AwaitCreate => reply.body.mode == "" || reply.body.mode == w.pending[id].task.mode
      case AwaitModel => w.chat.mode == w.pending[id].task.mode
      case AwaitMode => true
  }

  lemma SendChatMode(w: World, id: nat, task: Task)
    ensures SendChat(w, id, task).chat.mode == w.chat.mode
  {
    hide Evict;
  }

  /**
   A task is sent under its own mode, except exactly when a new session came with another one, at once or
   before the model was asked for.
   */
  lemma SentInItsMode(w: World, input: Input)
    requires Sends(w, input)
    ensures Step(w, input).chat.mode == ModeSent(w, input) <==> InItsMode(w, input)
  {
    hide SendChat, Instruction, Or;
    match input
    case Deliver(m) => DirectMode(w, m.task);
    case Resume(id, reply) =>
      var u, f := w.(pending := w.pending - {id}), w.pending[id];
      assert Step(w, input) == SubmitReplied(u, id, f.gen, f.task, f.point,
                                             reply) by { ReplyOfSubmit(u, id, f, reply); }
      ReplyMode(u, id, f, reply);
  }

  lemma DirectMode(w: World, raw: Task)
    requires Sends(w, Deliver(Submit(raw)))
    ensures SubmitTask(w, raw).chat.mode == raw.mode
  {
    hide SendChat, Instruction;
    var task := raw.(instruction := Instruction(raw));
    SendChatMode(Publish(w.(nextId := w.nextId + 1, chat := w.chat.(busy := true, status := "starting"))), w.nextId,
                 task);
  }

  lemma ReplyMode(w: World, id: nat, f: Frame, reply: Reply)
    requires LeadsToSend(w.chat, f, reply)
    ensures SubmitReplied(w, id, f.gen, f.task, f.point, reply).chat.mode ==
              match f.point
              case AwaitCreate => if reply.body.mode != "" then reply.body.mode else f.task.mode
              case AwaitModel => w.chat.mode
              case AwaitMode => f.task.mode
  {
    hide SendChat;
    var c, b, task := w.chat, reply.body, f.task;
    match f.point
    case AwaitCreate =>
      SendChatMode(w.(chat := c.(sessionId := Some(b.sessionId), mode := Or(b.mode, task.mode), sequence := 0)), id,
                   task);
    case AwaitModel => SendChatMode(w.(chat := c.(model := Or(b.model, Or(b.modelName, c.model)))), id, task);
    case AwaitMode => SendChatMode(w.(chat := c.(mode := Or(b.mode, c.mode))), id, task);
  }

  const CREATED_AUTO := Resolved(NOTHING.(sessionId := "s", mode := "auto"))

  /** A task for review that is sent in a session which the agent opened in another mode. */
  lemma SentInAnotherMode()
    ensures var front := [Deliver(Reconnect)] + [Resume(0, CAPABLE)] + [Deliver(Submit(HELLO))];
            var w := Run(INITIAL, front);
            && Sends(w, Resume(1, CREATED_AUTO)) && w.pending[1].task.mode == "review"
            && Run(INITIAL, front + [Resume(1, CREATED_AUTO)]).chat.mode == "auto"
  {
    hide Step;
    var w1 := Step(INITIAL, Deliver(Reconnect));
    Reconnecting();
    var w2 := Step(w1, Resume(0, CAPABLE));
    Connected(w1);
    var w3 := Step(w2, Deliver(Submit(HELLO)));
    Submitting(w2);
    SendingInAuto(w3);
    RunSnoc(INITIAL, [], Deliver(Reconnect));
    assert [] + [Deliver(Reconnect)] == [Deliver(Reconnect)];
    RunSnoc(INITIAL, [Deliver(Reconnect)], Resume(0, CAPABLE));
    RunSnoc(INITIAL, [Deliver(Reconnect)] + [Resume(0, CAPABLE)], Deliver(Submit(HELLO)));
    RunSnoc(INITIAL, [Deliver(Reconnect)] + [Resume(0, CAPABLE)] + [Deliver(Submit(HELLO))], Resume(1, CREATED_AUTO));
  }

  lemma SendingInAuto(w: World)
    requires w.chat == STARTING && w.pending == map[1 := SubmitFrame(0, HELLO, AwaitCreate)]
    ensures Sends(w, Resume(1, CREATED_AUTO)) && Step(w, Resume(1, CREATED_AUTO)).chat.mode == "auto"
  {
  }
}
