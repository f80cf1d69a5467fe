/**
 Four properties a reader may expect of the chat host and that the code does not have. Each comes with
 a concrete run in which it fails. For the first two, the exact condition under which a step breaks them
 is proved here; for the two about late answers, in `ChatAnswers`.
 */
module ChatExact {
  import opened Wrappers
  import opened Text
  import opened ChatSpec
  import opened ChatInvariants
  import opened HostHandOff

  // ----- One task at a time -----

  /** A submit of the current generation is outstanding. */
  predicate SubmitsNow(w: World, id: nat) {
    id in w.pending && w.pending[id].SubmitFrame? && w.pending[id].gen == w.chat.generation
  }

  ghost predicate HasSubmit(w: World) {
    exists id | id in w.pending :: SubmitsNow(w, id)
  }

  /** Two submits of one generation are outstanding at once. */
  ghost predicate Overlap(w: World) {
    exists a, b | a in w.pending && b in w.pending :: a != b && SubmitsNow(w, a) && SubmitsNow(w, b)
  }

  /** The chat looks idle although a submit is still outstanding: the next one will overlap with it. */
  ghost predicate Exposed(w: World) {
    !w.chat.busy && HasSubmit(w)
  }

  /** A reply that frees the chat although it is not the answer to the running submit. */
  predicate FreesChat(c: Chat, f: Frame, reply: Reply) {
    && f.gen == c.generation
    && match f
       case CancelFrame(_) =>
         reply.Resolved? && var status := Or(reply.body.status, "cancellation_requested");
             status == "closed" || Terminal(status)
       case PollFrame(_, _) => reply.Resolved? && Terminal(Or(reply.body.status, c.status))
       case NewSessionFrame(_) => reply.Rejected?
       case _ => false
  }

  /** A submit that passes every check and suspends. */
  predicate Starts(c: Chat, raw: Task) {
    var task := raw.(instruction := Instruction(raw));
    && WellFormedId(task.requestId) && !Known(c.requests, task.requestId) && Refusal(c, task).None?
    && (c.sessionId.None? || task.mode == c.mode || "session.setMode" in c.methods)
  }

  lemma HandleStaysBusy(w: World, m: Message)
    requires !m.Submit? && w.chat.busy && Handle(w, m).chat.generation == w.chat.generation
    ensures Handle(w, m).chat.busy
  {
    match m
    case SetModeTo(_) =>
    case Approve(_, _) =>
    case _ =>
  }

  lemma RepliedStaysBusy(w: World, id: nat, f: Frame, reply: Reply)
    requires !f.SubmitFrame? && !f.WaiterFrame? && w.chat.busy
    requires Replied(w, id, f, reply).chat.generation == w.chat.generation
    ensures Replied(w, id, f, reply).chat.busy <==> !FreesChat(w.chat, f, reply)
  {
    match f
    case ConnectFrame(_) =>
    case PollFrame(_, _) =>
    case CancelFrame(_) =>
    case NewSessionFrame(_) =>
    case ApproveFrame(_, _, _) =>
    case ConfigureFrame(_) =>
    case _ =>
  }

  lemma ApartSubmits(w: World, v: World)
    requires Bounded(w) && Apart(w, v)
    ensures forall id :: SubmitsNow(v, id) ==> SubmitsNow(w, id)
    ensures v.chat.generation == w.chat.generation ==> forall id :: SubmitsNow(w, id) ==> SubmitsNow(v, id)
    ensures v.chat.generation > w.chat.generation ==> forall id :: !SubmitsNow(v, id)
  {
  }

  lemma SubmitOnceBusy(w: World, id: nat, task: Task)
    requires id !in w.pending
    ensures var v := SubmitOnce(w, id, task);
            if Refusal(w.chat, task).Some? then Ends(w, v, id, task, false) && v.chat.busy == w.chat.busy
            else if w.chat.sessionId.None? || task.mode == w.chat.mode || "session.setMode" in w.chat.methods
            then Waits(w, v, id, task) && v.chat.busy
            else Ends(w, v, id, task, false)
  {
    SubmitOnceOutcome(w, id, task);
  }

  lemma SubmitRepliedBusy(w: World, id: nat, task: Task, point: SubmitPoint, reply: Reply)
    requires id !in w.pending
    ensures var v := SubmitReplied(w, id, w.chat.generation, task, point, reply);
            (v.pending == w.pending || (Waits(w, v, id, task) && v.chat.busy == w.chat.busy))
            && v.chat.generation == w.chat.generation
  {
    hide SendChat, SubmitFailed, SubmitAccepted, Waits, Or;
    SubmitRepliedOutcome(w, id, task, point, reply);
    if reply.Rejected? {
      SubmitFailedEnds(w, w, id, task, true, if point.AwaitSend? then Some(point.userItem) else None, reply.message);
    } else {
      var c, b := w.chat, reply.body;
      match point
      case AwaitCreate =>
        SendChatBusy(w.(chat := c.(sessionId := Some(b.sessionId), mode := Or(b.mode, task.mode), sequence := 0)),
                     id, task);
        SubmitFailedEnds(w, w, id, task, true, None, "The agent did not create a conversation.");
      case AwaitModel => SendChatBusy(w.(chat := c.(model := Or(b.model, Or(b.modelName, c.model)))), id, task);
      case AwaitMode =>
        var v := w.(chat := c.(mode := Or(b.mode, c.mode)));
        SendChatBusy(v, id, task);
        SubmitFailedEnds(v, v, id, task, true, None, "The agent did not accept the selected permissions.");
      case AwaitSend(_) =>
    }
    SubmitReplyGeneration(w, id, task, point, reply);
  }

  lemma SendChatBusy(w: World, id: nat, task: Task)
    ensures SendChat(w, id, task).chat.busy == w.chat.busy
  {
  }

  lemma SubmitReplyGeneration(w: World, id: nat, task: Task, point: SubmitPoint, reply: Reply)
    ensures SubmitReplied(w, id, w.chat.generation, task, point, reply).chat.generation == w.chat.generation
  {
    SubmitRepliedOutcome(w, id, task, point, reply);
    hide SubmitReplied;
  }

  /** The two ways a single step can go wrong, for the state before it. */
  predicate FreedByReply(w: World, input: Input) {
    input.Resume? && Enabled(w, input.id) && FreesChat(w.chat, w.pending[input.id], input.reply)
  }

  predicate StartsTask(w: World, input: Input) {
    input.Deliver? && input.message.Submit? && Starts(w.chat, input.message.task)
  }

  lemma StartedSubmits(w: World, input: Input)
    requires Inv(w) && input.Deliver? && input.message.Submit?
    ensures var v := Step(w, input);
            && v.chat.generation == w.chat.generation && w.nextId !in w.pending
            && (forall id :: id in w.pending ==> id in v.pending && v.pending[id] == w.pending[id])
            && (forall id :: SubmitsNow(v, id) && id !in w.pending ==> id == w.nextId && StartsTask(w, input))
            && (StartsTask(w, input) ==> SubmitsNow(v, w.nextId) && v.chat.busy)
            && (w.chat.busy ==> v.chat.busy)
  {
    hide SubmitOnce;
    var task := input.message.task.(instruction := Instruction(input.message.task));
    if WellFormedId(task.requestId) {
      if Known(w.chat.requests, task.requestId) {
        assert !StartsTask(w, input);
      } else {
        SubmitOnceBusy(w.(nextId := w.nextId + 1), w.nextId, task);
      }
    }
  }

  /** A step that does not concern submits keeps exactly the outstanding ones, or moves the generation on. */
  lemma OtherStepSubmits(w: World, input: Input)
    requires Inv(w)
    requires !(input.Deliver? && input.message.Submit?)
    requires !(input.Resume? && Enabled(w, input.id) && w.pending[input.id].SubmitFrame?)
    ensures var v := Step(w, input);
            if v.chat.generation == w.chat.generation
            then (forall id :: SubmitsNow(v, id) <==> SubmitsNow(w, id))
                 && (w.chat.busy ==> (!v.chat.busy <==> FreedByReply(w, input)))
            else (forall id :: !SubmitsNow(v, id)) && !FreedByReply(w, input)
  {
    hide Handle, OnEvent, Replied, Disconnected, TimerFired;
    var v := Step(w, input);
    match input
    case Deliver(m) =>
      HandleApart(w, m);
      ApartSubmits(w, v);
      if w.chat.busy && v.chat.generation == w.chat.generation { HandleStaysBusy(w, m); }
    case HostEvent(e) => EventApart(w, e); ApartSubmits(w, v); EventStaysBusy(w, e);
    case HostDisconnected(reason) => DisconnectedApart(w, reason); ApartSubmits(w, v);
    case TimerFires => TimerSubmits(w);
    case Resume(id, reply) => if Enabled(w, id) { ResumeSubmits(w, id, reply); }
  }

  lemma EventStaysBusy(w: World, e: Event)
    ensures OnEvent(w, e).chat.busy == w.chat.busy && OnEvent(w, e).chat.generation == w.chat.generation
  {
    EventChangesItems(w.chat.(sequence := if e.sequence.Some? then e.sequence.value else 0), e);
  }

  lemma TimerSubmits(w: World)
    requires Bounded(w)
    ensures var v := TimerFired(w);
            v.chat.generation == w.chat.generation && v.chat.busy == w.chat.busy
            && forall id :: SubmitsNow(v, id) <==> SubmitsNow(w, id)
  {
    assert Apart(w, TimerFired(w));
    ApartSubmits(w, TimerFired(w));
  }

  lemma ResumeSubmits(w: World, id: nat, reply: Reply)
    requires Inv(w) && Enabled(w, id) && !w.pending[id].SubmitFrame?
    ensures var v := Replied(w.(pending := w.pending - {id}), id, w.pending[id], reply);
            if v.chat.generation == w.chat.generation
            then (forall k :: SubmitsNow(v, k) <==> SubmitsNow(w, k))
                 && (w.chat.busy ==> (!v.chat.busy <==> FreesChat(w.chat, w.pending[id], reply)))
            else (forall k :: !SubmitsNow(v, k)) && !FreesChat(w.chat, w.pending[id], reply)
  {
    hide ConnectReplied, PollReplied, ApproveReplied, CancelReplied, NewSessionReplied;
    var f := w.pending[id];
    var u := w.(pending := w.pending - {id});
    var v := Replied(u, id, f, reply);
    assert forall k :: SubmitsNow(u, k) <==> SubmitsNow(w, k);
    RemovalKeeps(w, id);
    if f.WaiterFrame? {
      assert v.pending == u.pending && v.chat == u.chat;
    } else {
      RepliedApart(u, id, f, reply);
      ApartSubmits(u, v);
      if FreesChat(u.chat, f, reply) { FreesSameGeneration(u, id, f, reply); }
      if w.chat.busy && v.chat.generation == w.chat.generation { RepliedStaysBusy(u, id, f, reply); }
    }
  }

  lemma FreesSameGeneration(w: World, id: nat, f: Frame, reply: Reply)
    requires FreesChat(w.chat, f, reply)
    ensures Replied(w, id, f, reply).chat.generation == w.chat.generation
  {
  }

  lemma OwnStepSubmits(w: World, id: nat, reply: Reply)
    requires Inv(w) && id in w.pending && w.pending[id].SubmitFrame?
    ensures var v := Step(w, Resume(id, reply));
            && v.chat.generation == w.chat.generation
            && (forall k :: SubmitsNow(v, k) ==> SubmitsNow(w, k) && (k == id ==> v.chat.busy == w.chat.busy))
  {
    hide SubmitReplied;
    var f := w.pending[id];
    var u := w.(pending := w.pending - {id});
    if f.gen == w.chat.generation {
      SubmitRepliedBusy(u, id, f.task, f.point, reply);
    } else {
      StaleSubmit(u, id, f, reply);
    }
  }

  lemma StaleSubmit(w: World, id: nat, f: Frame, reply: Reply)
    requires f.SubmitFrame? && f.gen != w.chat.generation
    ensures SubmitReplied(w, id, f.gen, f.task, f.point, reply) == Settle(w, id, None)
  {
  }

  /**
   When the chat becomes exposed. From a state with at most one running submit that keeps the chat busy,
   a step leaves the chat idle with the submit still outstanding if and only if it is a terminal answer
   to a cancel or to a poll, or the rejection of a session change, of the current generation, while a
   submit is outstanding.
   */
  lemma ExposedExactly(w: World, input: Input)
    requires Inv(w) && !Overlap(w) && !Exposed(w)
    ensures Exposed(Step(w, input)) <==> HasSubmit(w) && FreedByReply(w, input)
  {
    hide Step, Inv, FreesChat;
    var v := Step(w, input);
    if input.Deliver? && input.message.Submit? {
      StartedSubmits(w, input);
      assert forall id :: SubmitsNow(v, id) && id in w.pending ==> SubmitsNow(w, id);
    } else if input.Resume? && Enabled(w, input.id) && w.pending[input.id].SubmitFrame? {
      OwnStepSubmits(w, input.id, input.reply);
      SubmitFramesNeverFree(w.chat, w.pending[input.id], input.reply);
      if Exposed(v) {
        var id :| id in v.pending && SubmitsNow(v, id);
        assert SubmitsNow(w, id);
        if id != input.id { assert !SubmitsNow(w, input.id); StaleKeepsBusy(w, input.id, input.reply); }
      }
    } else {
      OtherStepSubmits(w, input);
      if HasSubmit(w) {
        var id :| id in w.pending && SubmitsNow(w, id);
        assert w.chat.busy && (v.chat.generation == w.chat.generation ==> SubmitsNow(v, id));
      }
      if Exposed(v) {
        var id :| id in v.pending && SubmitsNow(v, id);
        assert SubmitsNow(w, id);
      }
    }
  }

  lemma SubmitFramesNeverFree(c: Chat, f: Frame, reply: Reply)
    requires f.SubmitFrame?
    ensures !FreesChat(c, f, reply)
  {
  }

  lemma StaleKeepsBusy(w: World, id: nat, reply: Reply)
    requires id in w.pending && w.pending[id].SubmitFrame? && !SubmitsNow(w, id)
    ensures Step(w, Resume(id, reply)).chat == w.chat
  {
  }

  /** Two submits of one generation run at once if and only if a task starts on an exposed chat. */
  lemma OverlapExactly(w: World, input: Input)
    requires Inv(w) && !Overlap(w)
    ensures Overlap(Step(w, input)) <==> Exposed(w) && StartsTask(w, input)
  {
    hide Step, Inv, Starts;
    var v := Step(w, input);
    if input.Deliver? && input.message.Submit? {
      StartedSubmits(w, input);
      if Starts(w.chat, input.message.task) { StartsIdle(w.chat, input.message.task); }
      if Exposed(w) && StartsTask(w, input) {
        var id :| id in w.pending && SubmitsNow(w, id);
        assert SubmitsNow(v, id) && SubmitsNow(v, w.nextId) && id != w.nextId;
      }
      if Overlap(v) {
        var a, b :| a in v.pending && b in v.pending && a != b && SubmitsNow(v, a) && SubmitsNow(v, b);
        assert a in w.pending ==> SubmitsNow(w, a);
        assert b in w.pending ==> SubmitsNow(w, b);
      }
    } else if input.Resume? && Enabled(w, input.id) && w.pending[input.id].SubmitFrame? {
      OwnStepSubmits(w, input.id, input.reply);
      assert forall id :: SubmitsNow(v, id) ==> SubmitsNow(w, id);
    } else {
      OtherStepSubmits(w, input);
      assert forall id :: SubmitsNow(v, id) ==> SubmitsNow(w, id);
    }
  }

  lemma StartsIdle(c: Chat, raw: Task)
    requires Starts(c, raw)
    ensures !c.busy
  {
  }

  /** No reply of the run frees the chat behind a running submit. */
  ghost predicate Undisturbed(inputs: seq<Input>)
    decreases |inputs|
  {
    inputs == [] ||
    var front := inputs[..|inputs| - 1];
    Undisturbed(front)
    && !(HasSubmit(Run(INITIAL, front)) && FreedByReply(Run(INITIAL, front), inputs[|inputs| - 1]))
  }

  /** One task at a time, in every run that the exact condition admits. */
  lemma {:induction false} OneTaskAtATime(inputs: seq<Input>)
    requires Undisturbed(inputs)
    ensures !Overlap(Run(INITIAL, inputs)) && !Exposed(Run(INITIAL, inputs)) && !TwoSends(Run(INITIAL, inputs))
    decreases |inputs|
  {
    hide TwoSends;
    SendsAreSubmits(Run(INITIAL, inputs));
    if inputs != [] {
      var front, last := inputs[..|inputs| - 1], inputs[|inputs| - 1];
      OneTaskAtATime(front);
      RunKeeps(INITIAL, front);
      ExposedExactly(Run(INITIAL, front), last);
      OverlapExactly(Run(INITIAL, front), last);
    }
  }

  // ----- Two sends at once -----

  /** A `chat.send` of the current generation is unanswered. */
  ghost predicate SendOutstanding(w: World) {
    exists id | id in w.pending :: AwaitsJob(w, id)
  }

  ghost predicate TwoSends(w: World) {
    exists a, b | a in w.pending && b in w.pending :: a != b && AwaitsJob(w, a) && AwaitsJob(w, b)
  }

  lemma SendsAreSubmits(w: World)
    ensures TwoSends(w) ==> Overlap(w)
  {
  }

  /** A reply with which a submit gets to its `chat.send`. */
  predicate LeadsToSend(c: Chat, f: Frame, reply: Reply) {
    && f.SubmitFrame? && f.gen == c.generation && reply.Resolved?
    && match f.point
       case AwaitCreate => reply.body.sessionId != "" && "session.modelInfo" !in c.methods
       case AwaitModel => true
       case AwaitMode => Or(reply.body.mode, c.mode) == f.task.mode
       case AwaitSend(_) => false
  }

  /** The step sends a task's message: a new task in its session and mode, or a reply that leads to it. */
  predicate Sends(w: World, input: Input) {
    match input
    case Deliver(m) => m.Submit? && Starts(w.chat, m.task) && w.chat.sessionId.Some? && m.task.mode == w.chat.mode
    case Resume(id, reply) => id in w.pending && LeadsToSend(w.chat, w.pending[id], reply)
    case _ => false
  }

  /** The outstanding sends after a stretch of the call `id`. */
  ghost predicate SendsAre(w: World, v: World, id: nat, sends: bool) {
    v.chat.generation == w.chat.generation && forall k :: AwaitsJob(v, k) <==> AwaitsJob(w, k) || (k == id && sends)
  }

  lemma SendChatSends(w: World, id: nat, task: Task)
    requires id !in w.pending
    ensures SendsAre(w, SendChat(w, id, task), id, true)
  {
  }

  lemma SubmitFailedSends(w: World, id: nat, key: string, started: bool, userItem: Option<nat>, message: string)
    ensures SendsAre(w, SubmitFailed(w, id, key, started, userItem, message), id, false)
  {
  }

  lemma SubmitOnceSends(w: World, id: nat, task: Task)
    requires id !in w.pending
    ensures SendsAre(w, SubmitOnce(w, id, task), id,
                     Refusal(w.chat, task).None? && w.chat.sessionId.Some? && task.mode == w.chat.mode)
  {
    hide SendChat, SubmitFailed;
    var c := w.chat;
    if Refusal(c, task).Some? {
      SubmitFailedSends(w, id, task.requestId, false, None, Refusal(c, task).value);
    } else {
      var v := Publish(w.(chat := c.(busy := true, status := "starting")));
      SendChatSends(v, id, task);
      SubmitFailedSends(v, id, task.requestId, true, None, "Update the CLI to change permissions.");
      assert forall k :: AwaitsJob(v, k) <==> AwaitsJob(w, k);
    }
  }

  lemma SubmitAcceptedSends(w: World, id: nat, key: string, b: Body)
    ensures SendsAre(w, SubmitAccepted(w, id, key, b), id, false)
  {
    SubmitAcceptedConnection(w, id, key, b);
  }

  lemma SubmitRepliedSends(w: World, id: nat, f: Frame, reply: Reply)
    requires id !in w.pending && f.SubmitFrame?
    ensures SendsAre(w, SubmitReplied(w, id, f.gen, f.task, f.point, reply), id, LeadsToSend(w.chat, f, reply))
  {
    hide SendChat, SubmitFailed, SubmitAccepted, SessionCreated, ModeChanged, SendsAre;
    var c, task, point := w.chat, f.task, f.point;
    if f.gen != c.generation {
      SettleSends(w, id);
    } else if reply.Rejected? {
      SubmitFailedSends(w, id, task.requestId, true, if point.AwaitSend? then Some(point.userItem) else None,
                        reply.message);
    } else {
      var b := reply.body;
      match point
      case AwaitCreate => SessionCreatedSends(w, id, task, b);
      case AwaitModel => ModelKnownSends(w, id, task, Or(b.model, Or(b.modelName, c.model)));
      case AwaitMode => ModeChangedSends(w, id, task, b);
      case AwaitSend(item) =>
        SubmitFailedSends(w, id, task.requestId, true, Some(item), "The agent did not start a task.");
        SubmitAcceptedSends(w, id, task.requestId, b);
    }
  }

  lemma SettleSends(w: World, id: nat)
    ensures SendsAre(w, Settle(w, id, None), id, false)
  {
  }

  lemma SessionCreatedSends(w: World, id: nat, task: Task, b: Body)
    requires id !in w.pending
    ensures SendsAre(w, SessionCreated(w, id, task, b), id, b.sessionId != "" && "session.modelInfo" !in w.chat.methods)
  {
    hide SendChat, SubmitFailed;
    var v := w.(chat := w.chat.(sessionId := Some(b.sessionId), mode := Or(b.mode, task.mode), sequence := 0));
    assert forall k :: AwaitsJob(v, k) <==> AwaitsJob(w, k);
    SubmitFailedSends(w, id, task.requestId, true, None, "The agent did not create a conversation.");
    SendChatSends(v, id, task);
  }

  lemma ModelKnownSends(w: World, id: nat, task: Task, model: string)
    requires id !in w.pending
    ensures SendsAre(w, SendChat(w.(chat := w.chat.(model := model)), id, task), id, true)
  {
    hide SendChat;
    var v := w.(chat := w.chat.(model := model));
    assert forall k :: AwaitsJob(v, k) <==> AwaitsJob(w, k);
    SendChatSends(v, id, task);
  }

  lemma ModeChangedSends(w: World, id: nat, task: Task, b: Body)
    requires id !in w.pending
    ensures SendsAre(w, ModeChanged(w, id, task, b), id, Or(b.mode, w.chat.mode) == task.mode)
  {
    hide SendChat, SubmitFailed;
    var v := w.(chat := w.chat.(mode := Or(b.mode, w.chat.mode)));
    assert forall k :: AwaitsJob(v, k) <==> AwaitsJob(w, k);
    SubmitFailedSends(v, id, task.requestId, true, None, "The agent did not accept the selected permissions.");
    SendChatSends(v, id, task);
  }

  lemma ApartSends(w: World, v: World)
    requires Bounded(w) && Apart(w, v)
    ensures forall id :: AwaitsJob(v, id) ==> AwaitsJob(w, id)
  {
  }

  lemma TaskSends(w: World, raw: Task)
    requires Inv(w)
    ensures SendsAre(w, SubmitTask(w, raw), w.nextId, Sends(w, Deliver(Submit(raw))))
  {
    hide SubmitOnce, Remember, Instruction;
    var task := raw.(instruction := Instruction(raw));
    if WellFormedId(task.requestId) && !Known(w.chat.requests, task.requestId) {
      var u := w.(nextId := w.nextId + 1);
      assert forall k :: AwaitsJob(u, k) <==> AwaitsJob(w, k);
      SubmitOnceSends(u, w.nextId, task);
      var v := SubmitOnce(u, w.nextId, task);
      assert forall k :: AwaitsJob(Register(v, Request(task.requestId, task.instruction, w.nextId)), k)
               <==> AwaitsJob(v, k);
    } else if WellFormedId(task.requestId) {
      ResubmitSends(w, task);
    }
  }

  lemma ResubmitSends(w: World, task: Task)
    requires Known(w.chat.requests, task.requestId) && w.nextId !in w.pending
    ensures SendsAre(w, Resubmit(w, task), w.nextId, false)
  {
  }

  lemma ResumeSends(w: World, id: nat, reply: Reply)
    requires Inv(w) && Enabled(w, id)
    ensures var v := Step(w, Resume(id, reply));
            if w.pending[id].SubmitFrame?
            then v.chat.generation == w.chat.generation
                 && forall k :: AwaitsJob(v, k) <==> if k == id then Sends(w, Resume(id, reply)) else AwaitsJob(w, k)
            else forall k :: AwaitsJob(v, k) ==> AwaitsJob(w, k)
  {
    hide Replied, LeadsToSend;
    var f := w.pending[id];
    var u := w.(pending := w.pending - {id});
    assert forall k :: AwaitsJob(u, k) <==> AwaitsJob(w, k) && k != id;
    if f.SubmitFrame? {
      SubmitRepliedSends(u, id, f, reply);
      ReplyOfSubmit(u, id, f, reply);
    } else if f.WaiterFrame? {
      WaiterSends(u, id, f, reply);
    } else {
      RemovalKeeps(w, id);
      RepliedApart(u, id, f, reply);
      ApartSends(u, Replied(u, id, f, reply));
    }
  }

  lemma ReplyOfSubmit(w: World, id: nat, f: Frame, reply: Reply)
    requires f.SubmitFrame?
    ensures Replied(w, id, f, reply) == SubmitReplied(w, id, f.gen, f.task, f.point, reply)
  {
  }

  lemma WaiterSends(w: World, id: nat, f: Frame, reply: Reply)
    requires f.WaiterFrame? && f.call in w.settled
    ensures forall k :: AwaitsJob(Replied(w, id, f, reply), k) <==> AwaitsJob(w, k)
  {
  }

  /** A second `chat.send` goes out in one generation if and only if a step sends while one is unanswered. */
  lemma SecondSendExactly(w: World, input: Input)
    requires Inv(w) && !TwoSends(w)
    ensures TwoSends(Step(w, input)) <==> SendOutstanding(w) && Sends(w, input)
  {
    hide Handle, OnEvent, Disconnected, TimerFired, Replied, Starts, LeadsToSend, AwaitsJob, Apart, TwoSends,
        SendOutstanding, Bounded;
    var v := Step(w, input);
    match input
    case Deliver(m) =>
      if m.Submit? {
        TaskSends(w, m.task);
        DeliverTask(w, m.task);
        OnlyNewSend(w, v, Sends(w, input));
      } else {
        HandleApart(w, m);
        ApartSends(w, v);
        NothingSent(w, v);
      }
    case HostEvent(e) => EventApart(w, e); ApartSends(w, v); NothingSent(w, v);
    case HostDisconnected(reason) => DisconnectedApart(w, reason); ApartSends(w, v); NothingSent(w, v);
    case TimerFires => TimerSends(w); NothingSent(w, v);
    case Resume(id, reply) =>
      if id in w.pending && !w.pending[id].SubmitFrame? { NoSendLeads(w.chat, w.pending[id], reply); }
      if Enabled(w, id) {
        ResumeSends(w, id, reply);
        if w.pending[id].SubmitFrame? { SecondAfterReply(w, v, id, reply); } else { NothingSent(w, v); }
      }
  }

  lemma NothingSent(w: World, v: World)
    requires !TwoSends(w) && forall id :: AwaitsJob(v, id) ==> AwaitsJob(w, id)
    ensures !TwoSends(v)
  {
  }

  lemma DeliverTask(w: World, raw: Task)
    ensures Step(w, Deliver(Submit(raw))) == SubmitTask(w, raw)
  {
  }

  lemma NoSendLeads(c: Chat, f: Frame, reply: Reply)
    requires !f.SubmitFrame?
    ensures !LeadsToSend(c, f, reply)
  {
  }

  lemma TimerSends(w: World)
    requires Inv(w)
    ensures forall k :: AwaitsJob(TimerFired(w), k) ==> AwaitsJob(w, k)
  {
    assert Apart(w, TimerFired(w));
    ApartSends(w, TimerFired(w));
  }

  lemma OnlyNewSend(w: World, v: World, sends: bool)
    requires Inv(w) && SendsAre(w, v, w.nextId, sends) && !TwoSends(w)
    ensures TwoSends(v) <==> SendOutstanding(w) && sends
  {
    assert w.nextId !in w.pending;
    if SendOutstanding(w) && sends {
      var k :| k in w.pending && AwaitsJob(w, k);
      assert AwaitsJob(v, k) && AwaitsJob(v, w.nextId);
    }
  }

  lemma SecondAfterReply(w: World, v: World, id: nat, reply: Reply)
    requires id in w.pending && w.pending[id].SubmitFrame? && !TwoSends(w)
    requires forall k :: AwaitsJob(v, k) <==> if k == id then Sends(w, Resume(id, reply)) else AwaitsJob(w, k)
    ensures TwoSends(v) <==> SendOutstanding(w) && Sends(w, Resume(id, reply))
  {
    if Sends(w, Resume(id, reply)) {
      assert !AwaitsJob(w, id);
      if SendOutstanding(w) {
        var k :| k in w.pending && AwaitsJob(w, k);
        assert AwaitsJob(v, k) && AwaitsJob(v, id);
      }
    }
  }

  // ----- Concrete runs -----

  const HELLO := Task("r1", "hello", "review", "")
  const AGAIN := Task("r2", "again", "review", "")
  const NOTHING := Body("", {}, "", "", "", "", "", "", false)
  const CAPABLE := Resolved(NOTHING.(protocol := "1", methods := REQUIRED_METHODS))
  const CREATED := Resolved(NOTHING.(sessionId := "s"))
  const CANCELLED := Resolved(NOTHING.(status := "cancelled"))

  const CONNECTED := INITIAL_CHAT.(connected := true, methods := REQUIRED_METHODS)

  lemma RunSnoc(w: World, inputs: seq<Input>, input: Input)
    ensures Run(w, inputs + [input]) == Step(Run(w, inputs), input)
  {
    assert (inputs + [input])[..|inputs|] == inputs;
  }

  lemma Reconnecting()
    ensures var v := Step(INITIAL, Deliver(Reconnect));
            && v.chat == INITIAL_CHAT.(connecting := true)
            && v.pending == map[0 := ConnectFrame(0)] && v.nextId == 1
  {
  }

  lemma Connected(w: World)
    requires w.chat == INITIAL_CHAT.(connecting := true) && w.pending == map[0 := ConnectFrame(0)]
    ensures var v := Step(w, Resume(0, CAPABLE));
            v.chat == CONNECTED && v.pending == map[] && v.nextId == w.nextId
  {
    assert w.pending - {0} == map[];
  }

  /** The chat after the first task was accepted for sending, before the session exists. */
  const STARTING := CONNECTED.(busy := true, status := "starting", requests := [Request("r1", "hello", 1)])

  lemma Submitting(w: World)
    requires w.chat == CONNECTED && w.pending == map[] && w.nextId == 1
    ensures var v := Step(w, Deliver(Submit(HELLO)));
            v.chat == STARTING && v.pending == map[1 := SubmitFrame(0, HELLO, AwaitCreate)] && v.nextId == 2
  {
    TrimSpec("hello");
    assert Instruction(HELLO) == "hello";
    assert Remember([], Request("r1", "hello", 1)) == [Request("r1", "hello", 1)];
  }

  /** The chat while the first `chat.send` is unanswered. */
  const SENT := STARTING.(sessionId := Some("s"), counter := 1,
                          items := [Item(1, UserTurn, "hello", Complete, None, false)])

  lemma Sending(w: World)
    requires w.chat == STARTING && w.pending == map[1 := SubmitFrame(0, HELLO, AwaitCreate)]
    ensures var v := Step(w, Resume(1, CREATED));
            v.chat == SENT && v.pending == map[1 := SubmitFrame(0, HELLO, AwaitSend(1))] && v.nextId == w.nextId
  {
    assert (w.pending - {1})[1 := SubmitFrame(0, HELLO, AwaitSend(1))] == map[1 := SubmitFrame(0, HELLO, AwaitSend(1))];
  }

  const TO_SENT := [Deliver(Reconnect)] + [Resume(0, CAPABLE)] + [Deliver(Submit(HELLO))] + [Resume(1, CREATED)]

  lemma SentState()
    ensures var w := Run(INITIAL, TO_SENT);
            w.chat == SENT && w.pending == map[1 := SubmitFrame(0, HELLO, AwaitSend(1))] && w.nextId == 2
  {
    hide Step;
    var w1 := Step(INITIAL, Deliver(Reconnect));
    Reconnecting();
    var w2 := Step(w1, Resume(0, CAPABLE));
    Connected(w1);
    var w3 := Step(w2, Deliver(Submit(HELLO)));
    Submitting(w2);
    Sending(w3);
    RunSnoc(INITIAL, [], Deliver(Reconnect));
    assert [] + [Deliver(Reconnect)] == [Deliver(Reconnect)];
    RunSnoc(INITIAL, [Deliver(Reconnect)], Resume(0, CAPABLE));
    RunSnoc(INITIAL, [Deliver(Reconnect)] + [Resume(0, CAPABLE)], Deliver(Submit(HELLO)));
    RunSnoc(INITIAL, [Deliver(Reconnect)] + [Resume(0, CAPABLE)] + [Deliver(Submit(HELLO))], Resume(1, CREATED));
  }

  /**
   Two sends in one generation: the first `chat.send` is unanswered, a cancel answered `cancelled` frees
   the chat, and the second task sends its own message at once.
   */
  const STOPPED := SENT.(busy := false, status := "cancelled", counter := 2,
                         items := SENT.items + [Item(2, Notice, "Stopped.", Complete, None, false)])

  lemma Stopping(w: World)
    requires w.chat == SENT && w.pending == map[1 := SubmitFrame(0, HELLO, AwaitSend(1))] && w.nextId == 2
    ensures var v := Step(Step(w, Deliver(CancelTask)), Resume(2, CANCELLED));
            v.chat == STOPPED && v.pending == w.pending && v.nextId == 3
  {
    var v := Step(w, Deliver(CancelTask));
    assert v.pending == w.pending[2 := CancelFrame(0)] && v.chat == SENT;
    assert v.pending - {2} == w.pending;
    assert FinishItems(SENT.items) == SENT.items;
  }

  lemma SendingAgain(w: World)
    requires w.chat == STOPPED && 3 !in w.pending && w.nextId == 3
    ensures var v := Step(w, Deliver(Submit(AGAIN)));
            && v.chat == STOPPED.(busy := true, status := "starting", counter := 3, requests := v.chat.requests,
                                  items := STOPPED.items + [Item(3, UserTurn, "again", Complete, None, false)])
            && v.pending == w.pending[3 := SubmitFrame(0, AGAIN, AwaitSend(3))] && v.nextId == 4
  {
    TrimSpec("again");
    assert Instruction(AGAIN) == "again";
    assert Find(STOPPED.requests, "r2") == 1;
  }

  const TWO_SENDS := TO_SENT + [Deliver(CancelTask)] + [Resume(2, CANCELLED)] + [Deliver(Submit(AGAIN))]

  lemma TwoSendsInOneGeneration()
    ensures var w := Run(INITIAL, TWO_SENDS);
            && w.chat.generation == 0
            && w.pending == map[1 := SubmitFrame(0, HELLO, AwaitSend(1)), 3 := SubmitFrame(0, AGAIN, AwaitSend(3))]
    ensures Overlap(Run(INITIAL, TWO_SENDS))
  {
    var w := Run(INITIAL, TO_SENT);
    SentState();
    var v := Step(Step(w, Deliver(CancelTask)), Resume(2, CANCELLED));
    Stopping(w);
    SendingAgain(v);
    RunSnoc(INITIAL, TO_SENT, Deliver(CancelTask));
    RunSnoc(INITIAL, TO_SENT + [Deliver(CancelTask)], Resume(2, CANCELLED));
    RunSnoc(INITIAL, TO_SENT + [Deliver(CancelTask)] + [Resume(2, CANCELLED)], Deliver(Submit(AGAIN)));
    var u := Run(INITIAL, TWO_SENDS);
    assert SubmitsNow(u, 1) && SubmitsNow(u, 3);
  }

  // ----- Connecting is not always released -----

  /** The chat shows "connecting" although no connect of its generation is outstanding. */
  ghost predicate Stuck(w: World) {
    w.chat.connecting && forall id :: id in w.pending ==> w.pending[id] != ConnectFrame(w.chat.generation)
  }

  /** A reachable state of that kind: a new task during the first connect. */
  lemma NewTaskOrphansConnect()
    ensures var w := Run(INITIAL, [Deliver(Reconnect), Deliver(NewTask)]); Stuck(w) && !w.chat.connected
  {
    Reconnecting();
    RunSnoc(INITIAL, [], Deliver(Reconnect));
    RunSnoc(INITIAL, [Deliver(Reconnect)], Deliver(NewTask));
    assert [] + [Deliver(Reconnect)] == [Deliver(Reconnect)];
    assert [Deliver(Reconnect)] + [Deliver(NewTask)] == [Deliver(Reconnect), Deliver(NewTask)];
  }

  lemma HandleKeepsConnecting(w: World, m: Message)
    requires m != NewTask && !m.Submit?
    ensures var v := Handle(w, m);
            v.chat.generation == w.chat.generation
            && (v.chat.connecting == w.chat.connecting
                || (v.chat.connecting && w.nextId in v.pending
                    && v.pending[w.nextId] == ConnectFrame(w.chat.generation)))
  {
    match m
    case Reconnect =>
    case SetModeTo(_) =>
    case Approve(_, _) =>
    case _ =>
  }

  lemma NewTaskKeepsConnecting(w: World)
    requires Idle(w.chat) && (w.chat.connecting ==> !w.chat.connected)
    ensures var v := NewSession(w);
            v.chat.connecting == w.chat.connecting && v.chat.connected == w.chat.connected
            && (w.chat.connecting ==> v.chat.generation > w.chat.generation)
            && (w.chat.connecting ==> v.pending == w.pending)
  {
  }

  lemma RepliedKeepsConnecting(w: World, id: nat, f: Frame, reply: Reply)
    requires f.WaiterFrame? ==> f.call in w.settled
    requires f.gen == w.chat.generation ==> !NeedsConnection(f) && !f.ConnectFrame?
    requires !ConfirmedConfigure(f, reply)
    ensures var v := Replied(w, id, f, reply);
            v.chat.generation == w.chat.generation && v.chat.connecting == w.chat.connecting
  {
  }

  lemma SubmitKeepsConnecting(w: World, raw: Task)
    ensures var v := SubmitTask(w, raw); v.chat.connecting == w.chat.connecting
  {
    var task := raw.(instruction := Instruction(raw));
    hide SubmitOnce;
    if WellFormedId(task.requestId) && !Known(w.chat.requests, task.requestId) {
      SubmitOnceKeepsConnecting(w.(nextId := w.nextId + 1), w.nextId, task);
    }
  }

  /** Equal in what says whether the chat is connected, and to which job. */
  predicate SameConnection(c: Chat, d: Chat) {
    && d.connecting == c.connecting && d.connected == c.connected && d.jobId == c.jobId
    && d.generation == c.generation && d.methods == c.methods
  }

  lemma SubmitFailedSameConnection(w: World, id: nat, key: string, started: bool, userItem: Option<nat>,
                                   message: string)
    ensures SameConnection(w.chat, SubmitFailed(w, id, key, started, userItem, message).chat)
  {
  }

  lemma SendChatSameConnection(w: World, id: nat, task: Task)
    ensures SameConnection(w.chat, SendChat(w, id, task).chat)
  {
  }

  lemma SubmitOnceKeepsConnecting(w: World, id: nat, task: Task)
    ensures SameConnection(w.chat, SubmitOnce(w, id, task).chat)
  {
    hide SubmitFailed, SendChat;
    if Refusal(w.chat, task).Some? {
      SubmitFailedSameConnection(w, id, task.requestId, false, None, Refusal(w.chat, task).value);
    } else {
      var v := Publish(w.(chat := w.chat.(busy := true, status := "starting")));
      SendChatSameConnection(v, id, task);
      SubmitFailedSameConnection(v, id, task.requestId, true, None, "Update the CLI to change permissions.");
    }
  }

  lemma SessionCreatedSameConnection(w: World, id: nat, task: Task, b: Body)
    ensures SameConnection(w.chat, SessionCreated(w, id, task, b).chat)
  {
    hide SubmitFailed, SendChat;
    SubmitFailedSameConnection(w, id, task.requestId, true, None, "The agent did not create a conversation.");
    SendChatSameConnection(w.(chat := w.chat.(sessionId := Some(b.sessionId), mode := Or(b.mode, task.mode),
                                              sequence := 0)), id, task);
  }

  lemma ModeChangedSameConnection(w: World, id: nat, task: Task, b: Body)
    ensures SameConnection(w.chat, ModeChanged(w, id, task, b).chat)
  {
    hide SubmitFailed, SendChat;
    var v := w.(chat := w.chat.(mode := Or(b.mode, w.chat.mode)));
    SubmitFailedSameConnection(v, id, task.requestId, true, None, "The agent did not accept the selected permissions.");
    SendChatSameConnection(v, id, task);
  }

  lemma SubmitAcceptedConnection(w: World, id: nat, key: string, b: Body)
    ensures var d := SubmitAccepted(w, id, key, b).chat;
            SameConnection(w.chat.(jobId := if Terminal(Or(b.status, "running")) then None else Some(b.jobId)), d)
  {
    hide Evict;
  }

  /** What a resumed submit leaves of the connection: everything but the job that it may start. */
  lemma SubmitRepliedConnection(w: World, id: nat, gen: nat, task: Task, point: SubmitPoint, reply: Reply)
    ensures var d := SubmitReplied(w, id, gen, task, point, reply).chat;
            if gen == w.chat.generation && point.AwaitSend? && reply.Resolved? && reply.body.jobId != ""
            then SameConnection(w.chat.(jobId := if Terminal(Or(reply.body.status, "running")) then None
                                        else Some(reply.body.jobId)), d)
            else SameConnection(w.chat, d)
  {
    hide SubmitFailed, SendChat, SubmitAccepted, SessionCreated, ModeChanged, Terminal, Or;
    if gen == w.chat.generation {
      if reply.Rejected? {
        SubmitFailedSameConnection(w, id, task.requestId, true,
                                   if point.AwaitSend? then Some(point.userItem) else None, reply.message);
      } else {
        match point
        case AwaitCreate => SessionCreatedSameConnection(w, id, task, reply.body);
        case AwaitModel =>
          var model := Or(reply.body.model, Or(reply.body.modelName, w.chat.model));
          SendChatSameConnection(w.(chat := w.chat.(model := model)), id, task);
        case AwaitMode => ModeChangedSameConnection(w, id, task, reply.body);
        case AwaitSend(item) =>
          SubmitFailedSameConnection(w, id, task.requestId, true, Some(item), "The agent did not start a task.");
          SubmitAcceptedConnection(w, id, task.requestId, reply.body);
      }
    }
  }

  lemma RepliedNeverConnects(w: World, id: nat, f: Frame, reply: Reply)
    requires f.WaiterFrame? ==> f.call in w.settled
    requires !w.chat.connecting && !ConfirmedConfigure(f, reply)
    ensures !Replied(w, id, f, reply).chat.connecting
  {
    hide SubmitReplied, Evict;
    match f
    case SubmitFrame(gen, task, point) => SubmitRepliedConnection(w, id, gen, task, point, reply);
    case PollFrame(_, _) =>
    case CancelFrame(_) =>
    case NewSessionFrame(_) =>
    case _ =>
  }

  lemma ConfigureReconnects(w: World, id: nat, f: Frame, reply: Reply)
    requires ConfirmedConfigure(f, reply)
    ensures var v := Replied(w, id, f, reply);
            v.pending == w.pending[w.nextId := ConnectFrame(v.chat.generation)]
  {
  }

  lemma ResumeStuck(w: World, id: nat, reply: Reply)
    requires Inv(w) && !Stuck(w) && Enabled(w, id)
    ensures !Stuck(Step(w, Resume(id, reply)))
  {
    hide Replied;
    var f := w.pending[id];
    var u := w.(pending := w.pending - {id});
    var v := Step(w, Resume(id, reply));
    RepliedKeeps(w, id, reply);
    if ConfirmedConfigure(f, reply) {
      ConfigureReconnects(u, id, f, reply);
      assert v.pending[u.nextId] == ConnectFrame(v.chat.generation);
    } else if !w.chat.connecting {
      RepliedNeverConnects(u, id, f, reply);
    } else {
      var k :| k in w.pending && w.pending[k] == ConnectFrame(w.chat.generation);
      if k == id {
        ConnectReleases(u, id, reply);
      } else {
        RepliedKeepsConnecting(u, id, f, reply);
        assert k in u.pending;
        assert v.pending[k] == ConnectFrame(v.chat.generation);
      }
    }
  }

  lemma ConnectReleases(w: World, id: nat, reply: Reply)
    ensures !Replied(w, id, ConnectFrame(w.chat.generation), reply).chat.connecting
  {
  }

  /**
   `connecting` is not always released. A step leaves the flag set with no connect behind it if and only
   if it is a "new task" message while the flag is set.
   */
  lemma StuckExactly(w: World, input: Input)
    requires Inv(w) && !Stuck(w)
    ensures Stuck(Step(w, input)) <==> w.chat.connecting && input == Deliver(NewTask)
    ensures Stuck(Step(w, input)) ==> !Step(w, input).chat.connected
  {
    hide Handle, SubmitTask, NewSession, OnEvent, Disconnected, TimerFired, Replied;
    var v := Step(w, input);
    if w.chat.connecting {
      var k :| k in w.pending && w.pending[k] == ConnectFrame(w.chat.generation);
    }
    match input
    case Deliver(m) => HandleKeeps(w, m); HandleStuck(w, m);
    case HostEvent(e) => EventKeeps(w, e); EventKeepsConnecting(w, e);
    case HostDisconnected(reason) => DisconnectedReleases(w, reason);
    case TimerFires => TimerFiredKeeps(w); TimerKeepsConnecting(w);
    case Resume(id, reply) => if Enabled(w, id) { ResumeStuck(w, id, reply); }
  }

  lemma HandleStuck(w: World, m: Message)
    requires Inv(w) && !Stuck(w)
    ensures Stuck(Handle(w, m)) <==> w.chat.connecting && m == NewTask
    ensures Stuck(Handle(w, m)) ==> !Handle(w, m).chat.connected
  {
    hide SubmitTask, NewSession, Cancel, ApproveItem, ChangeMode, Connect;
    var v := Handle(w, m);
    HandleKeeps(w, m);
    if m == NewTask {
      if w.chat.connecting {
        var k :| k in w.pending && w.pending[k] == ConnectFrame(w.chat.generation);
      }
      NewTaskKeepsConnecting(w);
    } else if m.Submit? {
      SubmitTaskKeeps(w, m.task);
      SubmitKeepsConnecting(w, m.task);
      StartedSubmits(w, Deliver(m));
    } else {
      HandleKeepsConnecting(w, m);
    }
  }

  lemma EventKeepsConnecting(w: World, e: Event)
    ensures OnEvent(w, e).chat.connecting == w.chat.connecting && OnEvent(w, e).chat.generation == w.chat.generation
    ensures OnEvent(w, e).pending == w.pending
  {
    EventChangesItems(w.chat.(sequence := if e.sequence.Some? then e.sequence.value else 0), e);
  }

  lemma TimerKeepsConnecting(w: World)
    ensures TimerFired(w).chat.connecting == w.chat.connecting && TimerFired(w).chat.generation == w.chat.generation
  {
  }

  lemma DisconnectedReleases(w: World, reason: string)
    ensures !Disconnected(w, reason).chat.connecting
  {
  }

  lemma HandleStaysStuck(w: World, m: Message)
    requires Inv(w) && Stuck(w) && !w.chat.connected
    ensures Stuck(Handle(w, m)) && !Handle(w, m).chat.connected
  {
    hide SubmitTask, Add;
    HandleKeeps(w, m);
    if m.Submit? {
      SubmitStaysUnconnected(w, m.task);
      SubmitTaskKeeps(w, m.task);
      StartedSubmits(w, Deliver(m));
    } else if m != NewTask {
      UnconnectedMessage(w, m);
    }
  }

  lemma UnconnectedMessage(w: World, m: Message)
    requires w.chat.connecting && !m.Submit? && m != NewTask
    ensures var v := Handle(w, m);
            SameConnection(w.chat, v.chat)
                && (w.nextId in v.pending && w.nextId !in w.pending ==> !v.pending[w.nextId].ConnectFrame?)
  {
    hide Add, ViewOf, ChangeMode;
    match m
    case SetModeTo(mode) => UnconnectedMode(w, mode);
    case Unsupported => CaughtSameConnection(w, w.chat.generation,
                                             "This action is not available in the JetBrains preview yet.");
    case Approve(_, _) =>
    case _ =>
  }

  lemma CaughtSameConnection(w: World, gen: nat, message: string)
    ensures SameConnection(w.chat, Caught(w, gen, message).chat) && Caught(w, gen, message).pending == w.pending
  {
  }

  lemma UnconnectedMode(w: World, mode: string)
    ensures var v := ChangeMode(w, mode);
            SameConnection(w.chat, v.chat)
                && (w.nextId in v.pending && w.nextId !in w.pending ==> !v.pending[w.nextId].ConnectFrame?)
  {
    hide Caught, ViewOf;
    CaughtSameConnection(w, w.chat.generation, "Update the CLI to change permissions.");
  }

  lemma SubmitStaysUnconnected(w: World, raw: Task)
    ensures var v := SubmitTask(w, raw);
            v.chat.connecting == w.chat.connecting && (v.chat.connected <==> w.chat.connected)
            && (w.nextId in v.pending && w.nextId !in w.pending ==> !v.pending[w.nextId].ConnectFrame?)
  {
    var task := raw.(instruction := Instruction(raw));
    hide SubmitOnce, Instruction;
    if WellFormedId(task.requestId) && !Known(w.chat.requests, task.requestId) {
      SubmitOnceOutcome(w.(nextId := w.nextId + 1), w.nextId, task);
      SubmitOnceKeepsConnecting(w.(nextId := w.nextId + 1), w.nextId, task);
    }
  }

  /** Without a connection, only a stale call or one that needs no connection can resume. */
  lemma ResumeStaysStuck(w: World, id: nat, reply: Reply)
    requires Inv(w) && Stuck(w) && !w.chat.connected && Enabled(w, id) && !ConfirmedConfigure(w.pending[id], reply)
    ensures var v := Step(w, Resume(id, reply)); Stuck(v) && !v.chat.connected
  {
    hide Replied;
    var f := w.pending[id];
    var u := w.(pending := w.pending - {id});
    RepliedKeepsConnecting(u, id, f, reply);
    UnconnectedReply(u, id, f, reply);
  }

  lemma UnconnectedReply(w: World, id: nat, f: Frame, reply: Reply)
    requires f.WaiterFrame? ==> f.call in w.settled
    requires f.gen == w.chat.generation ==> !NeedsConnection(f) && !f.ConnectFrame?
    requires !ConfirmedConfigure(f, reply)
    ensures var v := Replied(w, id, f, reply);
            v.chat.connected == w.chat.connected
            && forall k :: k in v.pending && v.pending[k].ConnectFrame?
                ==> k in w.pending && v.pending[k] == w.pending[k]
  {
  }

  /**
   How long "connecting" stays: without a connection, nothing but a host disconnect or a confirmed CLI
   dialog releases the flag once it is orphaned.
   */
  lemma ReleasedExactly(w: World, input: Input)
    requires Inv(w) && Stuck(w) && !w.chat.connected
    ensures !Stuck(Step(w, input)) <==> Releases(w, input)
    ensures !Releases(w, input) ==> !Step(w, input).chat.connected
  {
    hide Handle, OnEvent, Disconnected, TimerFired, Replied;
    match input
    case Deliver(m) => HandleStaysStuck(w, m);
    case HostEvent(e) => EventKeepsConnecting(w, e); EventKeeps(w, e); EventStaysUnconnected(w, e);
    case HostDisconnected(reason) => DisconnectedReleases(w, reason);
    case TimerFires => TimerStaysStuck(w);
    case Resume(id, reply) =>
      if Enabled(w, id) {
        if ConfirmedConfigure(w.pending[id], reply) {
          ConfigureReconnects(w.(pending := w.pending - {id}), id, w.pending[id], reply);
          var v := Step(w, input);
          assert v.pending[w.nextId] == ConnectFrame(v.chat.generation);
        } else {
          ResumeStaysStuck(w, id, reply);
        }
      }
  }

  /** The inputs that release an orphaned flag. */
  predicate Releases(w: World, input: Input) {
    input.HostDisconnected? || (input.Resume? && Enabled(w, input.id)
                                && ConfirmedConfigure(w.pending[input.id], input.reply))
  }

  lemma EventStaysUnconnected(w: World, e: Event)
    ensures OnEvent(w, e).chat.connected == w.chat.connected
  {
    EventChangesItems(w.chat.(sequence := if e.sequence.Some? then e.sequence.value else 0), e);
  }

  lemma TimerStaysStuck(w: World)
    requires Inv(w) && Stuck(w) && !w.chat.connected
    ensures Stuck(TimerFired(w)) && !TimerFired(w).chat.connected
  {
  }

  ghost predicate NeverReleased(w: World, inputs: seq<Input>)
    decreases |inputs|
  {
    inputs == [] ||
    var front := inputs[..|inputs| - 1];
    NeverReleased(w, front) && !Releases(Run(w, front), inputs[|inputs| - 1])
  }

  /** So the flag stays orphaned over every run without such an input. */
  lemma {:induction false} StaysOrphaned(w: World, inputs: seq<Input>)
    requires Inv(w) && Stuck(w) && !w.chat.connected && NeverReleased(w, inputs)
    ensures Stuck(Run(w, inputs)) && !Run(w, inputs).chat.connected
    decreases |inputs|
  {
    if inputs != [] {
      var front := inputs[..|inputs| - 1];
      StaysOrphaned(w, front);
      RunKeeps(w, front);
      ReleasedExactly(Run(w, front), inputs[|inputs| - 1]);
    }
  }

  // ----- A job is not finished by its own status alone -----

  /** The step ends the current job. */
  predicate EndsJob(w: World, v: World) {
    w.chat.jobId.Some? && v.chat.jobId.None? && v.chat.generation == w.chat.generation
  }

  /**
   The answer to a poll ends the current job if and only if it is a terminal status of the same
   generation; the job it was asked about plays no part.
   */
  lemma PollEndsAnyJob(w: World, id: nat, reply: Reply)
    requires id in w.pending && w.pending[id].PollFrame? && w.chat.jobId.Some?
    ensures EndsJob(w, Step(w, Resume(id, reply))) <==>
              w.pending[id].gen == w.chat.generation && reply.Resolved?
                  && Terminal(Or(reply.body.status, w.chat.status))
  {
    var f := w.pending[id];
    if f.gen == w.chat.generation && reply.Rejected? {
      assert Step(w, Resume(id, reply)).chat.generation == w.chat.generation + 1;
    }
  }

  const JOB1 := Resolved(NOTHING.(jobId := "j1"))
  const JOB2 := Resolved(NOTHING.(jobId := "j2"))
  const COMPLETED := Resolved(NOTHING.(status := "completed"))

  /** The first task runs as job j1. */
  const RUNNING := SENT.(jobId := Some("j1"), accepted := Some("r1"), status := "running", timer := Some(0))

  lemma Polling(w: World)
    requires w.chat == SENT && w.pending == map[1 := SubmitFrame(0, HELLO, AwaitSend(1))] && w.nextId == 2
    ensures var v := Step(Step(w, Resume(1, JOB1)), TimerFires);
            v.chat == RUNNING.(timer := None) && v.pending == map[2 := PollFrame(0, "j1")] && v.nextId == 3
  {
    var v := Step(w, Resume(1, JOB1));
    assert v.chat == RUNNING;
    assert v.pending == map[] && v.nextId == 2;
  }

  /** Job j1 was cancelled while its poll is outstanding. */
  const DROPPED := STOPPED.(accepted := Some("r1"))

  lemma Dropping(w: World)
    requires w.chat == RUNNING.(timer := None) && w.pending == map[2 := PollFrame(0, "j1")] && w.nextId == 3
    ensures var v := Step(Step(w, Deliver(CancelTask)), Resume(3, CANCELLED));
            v.chat == DROPPED && v.pending == w.pending && v.nextId == 4
  {
    var v := Step(w, Deliver(CancelTask));
    assert v.pending == w.pending[3 := CancelFrame(0)] && v.chat == w.chat;
    assert v.pending - {3} == w.pending;
    assert FinishItems(SENT.items) == SENT.items;
  }

  lemma RunningAgain(w: World)
    requires w.chat == DROPPED && w.pending == map[2 := PollFrame(0, "j1")] && w.nextId == 4
    ensures var v := Step(Step(w, Deliver(Submit(AGAIN))), Resume(4, JOB2));
            v.chat.jobId == Some("j2") && v.chat.busy && v.chat.generation == 0 && v.pending == w.pending
  {
    hide Step;
    SubmittingAgain(w);
    AcceptedAgain(w, Step(w, Deliver(Submit(AGAIN))));
  }

  lemma AcceptedAgain(w: World, v: World)
    requires v.chat.busy && v.chat.generation == 0
    requires 4 !in w.pending && v.pending == w.pending[4 := SubmitFrame(0, AGAIN, AwaitSend(3))]
    ensures var u := Step(v, Resume(4, JOB2));
            u.chat.jobId == Some("j2") && u.chat.busy && u.chat.generation == 0 && u.pending == w.pending
  {
    assert v.pending - {4} == w.pending;
  }

  lemma SubmittingAgain(w: World)
    requires w.chat == DROPPED && w.pending == map[2 := PollFrame(0, "j1")] && w.nextId == 4
    ensures var v := Step(w, Deliver(Submit(AGAIN)));
            v.chat.busy && v.chat.generation == 0 && v.pending == w.pending[4 := SubmitFrame(0, AGAIN, AwaitSend(3))]
  {
    hide Evict;
    TrimSpec("again");
    assert Instruction(AGAIN) == "again";
    assert Find(DROPPED.requests, "r2") == 1;
  }

  const TWO_JOBS := TO_SENT + [Resume(1, JOB1)] + [TimerFires] + [Deliver(CancelTask)] + [Resume(3, CANCELLED)]
                    + [Deliver(Submit(AGAIN))] + [Resume(4, JOB2)]

  /** A reachable state in which the answer to a poll for the cancelled j1 ends the running j2. */
  lemma FinishedByAnotherJob()
    ensures var w := Run(INITIAL, TWO_JOBS);
            && w.chat.jobId == Some("j2") && w.pending == map[2 := PollFrame(0, "j1")]
            && EndsJob(w, Step(w, Resume(2, COMPLETED)))
  {
    hide Step;
    var w := Run(INITIAL, TO_SENT);
    SentState();
    Polling(w);
    var w2 := Step(Step(w, Resume(1, JOB1)), TimerFires);
    Dropping(w2);
    var w4 := Step(Step(w2, Deliver(CancelTask)), Resume(3, CANCELLED));
    RunningAgain(w4);
    var a := TO_SENT + [Resume(1, JOB1)];
    RunSnoc(INITIAL, TO_SENT, Resume(1, JOB1));
    RunSnoc(INITIAL, a, TimerFires);
    RunSnoc(INITIAL, a + [TimerFires], Deliver(CancelTask));
    RunSnoc(INITIAL, a + [TimerFires] + [Deliver(CancelTask)], Resume(3, CANCELLED));
    var b := a + [TimerFires] + [Deliver(CancelTask)] + [Resume(3, CANCELLED)];
    RunSnoc(INITIAL, b, Deliver(Submit(AGAIN)));
    RunSnoc(INITIAL, b + [Deliver(Submit(AGAIN))], Resume(4, JOB2));
    PollEndsAnyJob(Run(INITIAL, TWO_JOBS), 2, COMPLETED);
  }

  // ----- An approval can be written twice -----

  const PROMPT := Event("s", "", Some(1), Prompt, false, None, true, Some("a"), "Write a file", "", false, "", "",
                        "", "")
  const ASKED := SENT.(sequence := 1, counter := 2,
                       items := SENT.items + [Item(2, Approval, "Write a file", Pending, Some("a"), false)])

  lemma Asking(w: World)
    requires w.chat == SENT
    ensures var v := Step(w, HostEvent(PROMPT)); v.chat == ASKED && v.pending == w.pending && v.nextId == w.nextId
  {
  }

  lemma Deciding(w: World)
    requires w.chat == ASKED && w.nextId == 2
    ensures var v := Step(Step(w, Deliver(Approve(Some("a"), Some(AllowOnce)))),
                          Deliver(Approve(Some("a"), Some(Deny))));
            v.chat == ASKED && v.pending == w.pending[2 := ApproveFrame(0, 2, AllowOnce)][3 := ApproveFrame(0, 2, Deny)]
  {
    assert FindPending(ASKED.items, Some("a")) == 1;
  }

  const TWO_ANSWERS := TO_SENT + [HostEvent(PROMPT)] + [Deliver(Approve(Some("a"), Some(AllowOnce)))]
                       + [Deliver(Approve(Some("a"), Some(Deny)))] + [Resume(2, Resolved(NOTHING))]

  /** A reachable state in which an approval shown as allowed turns into denied. */
  lemma ApprovalOverwritten()
    ensures var w := Run(INITIAL, TWO_ANSWERS);
            && |w.chat.items| == 2 && w.chat.items[1].status == Decided(AllowOnce)
            && Step(w, Resume(3, Resolved(NOTHING))).chat.items == SetStatus(w.chat.items, 2, Decided(Deny))
  {
    var w := Run(INITIAL, TO_SENT);
    SentState();
    Asking(w);
    var w1 := Step(w, HostEvent(PROMPT));
    Deciding(w1);
    RunSnoc(INITIAL, TO_SENT, HostEvent(PROMPT));
    var a := TO_SENT + [HostEvent(PROMPT)];
    RunSnoc(INITIAL, a, Deliver(Approve(Some("a"), Some(AllowOnce))));
    var b := a + [Deliver(Approve(Some("a"), Some(AllowOnce)))];
    RunSnoc(INITIAL, b, Deliver(Approve(Some("a"), Some(Deny))));
    var w3 := Run(INITIAL, b + [Deliver(Approve(Some("a"), Some(Deny)))]);
    Answering(w3);
    RunSnoc(INITIAL, b + [Deliver(Approve(Some("a"), Some(Deny)))], Resume(2, Resolved(NOTHING)));
  }

  lemma Answering(w: World)
    requires w.chat == ASKED && 2 in w.pending && w.pending[2] == ApproveFrame(0, 2, AllowOnce)
    requires 3 in w.pending && w.pending[3] == ApproveFrame(0, 2, Deny)
    ensures var v := Step(w, Resume(2, Resolved(NOTHING)));
            && |v.chat.items| == 2 && v.chat.items[1].status == Decided(AllowOnce)
            && Step(v, Resume(3, Resolved(NOTHING))).chat.items == SetStatus(v.chat.items, 2, Decided(Deny))
  {
  }
}
