/**
 Answers that come late. An answer to an approval may find the approval settled by something else, and an
 answer to a poll may find another job running. For both: exactly which step leads there, and what every
 run without such a step keeps.
 */
module ChatAnswers {
  import opened Wrappers
  import opened ChatSpec
  import opened ChatInvariants
  import opened ChatTranscript
  import opened HostHandOff
  import opened ChatExact

  // ----- How the outstanding answers change -----

  predicate Awaits(f: Frame) {
    f.ApproveFrame? || f.PollFrame?
  }

  /** One call more or less, under the id `at`, and it awaits no such answer. */
  ghost predicate AddsOther(p: map<nat, Frame>, q: map<nat, Frame>, at: nat) {
    && (forall id :: id in p && id != at ==> id in q && q[id] == p[id])
    && (forall id :: id in q && id != at ==> id in p)
    && (at in p ==> at in q && q[at] == p[at])
    && (at in q && at !in p ==> !Awaits(q[at]))
  }

  lemma ApartAddsOther(w: World, v: World)
    requires Apart(w, v) && w.nextId !in w.pending
    requires w.nextId in v.pending ==> !Awaits(v.pending[w.nextId])
    ensures AddsOther(w.pending, v.pending, w.nextId)
  {
  }

  lemma HandleAddsOther(w: World, m: Message)
    requires Bounded(w) && !m.Approve?
    ensures AddsOther(w.pending, Handle(w, m).pending, w.nextId)
  {
    if m.Submit? {
      SubmitAddsOther(w, m.task);
    } else {
      HandleApart(w, m);
      HandleNewCall(w, m);
      ApartAddsOther(w, Handle(w, m));
    }
  }

  lemma HandleNewCall(w: World, m: Message)
    requires w.nextId !in w.pending && !m.Approve? && !m.Submit?
    ensures w.nextId in Handle(w, m).pending ==> !Awaits(Handle(w, m).pending[w.nextId])
  {
    match m
    case SetModeTo(_) =>
    case NewTask =>
    case _ =>
  }

  lemma SubmitAddsOther(w: World, raw: Task)
    requires Bounded(w)
    ensures AddsOther(w.pending, SubmitTask(w, raw).pending, w.nextId)
  {
    hide SubmitOnce, Instruction;
    var task := raw.(instruction := Instruction(raw));
    if WellFormedId(task.requestId) && !Known(w.chat.requests, task.requestId) {
      SubmitOnceOutcome(w.(nextId := w.nextId + 1), w.nextId, task);
    }
  }

  lemma RepliedAddsOther(w: World, id: nat, f: Frame, reply: Reply)
    requires w.nextId !in w.pending && id !in w.pending && (f.WaiterFrame? ==> f.call in w.settled)
    ensures AddsOther(w.pending, Replied(w, id, f, reply).pending, if f.SubmitFrame? then id else w.nextId)
  {
    if f.SubmitFrame? {
      if f.gen == w.chat.generation { SubmitRepliedOutcome(w, id, f.task, f.point, reply); }
    } else if !f.WaiterFrame? {
      RepliedApart(w, id, f, reply);
      RepliedNewCall(w, id, f, reply);
      ApartAddsOther(w, Replied(w, id, f, reply));
    }
  }

  lemma RepliedNewCall(w: World, id: nat, f: Frame, reply: Reply)
    requires w.nextId !in w.pending && !f.SubmitFrame? && !f.WaiterFrame?
    ensures w.nextId in Replied(w, id, f, reply).pending ==> !Awaits(Replied(w, id, f, reply).pending[w.nextId])
  {
    hide Finish, Add;
    match f
    case PollFrame(_, _) =>
    case CancelFrame(_) =>
    case NewSessionFrame(_) =>
    case ConfigureFrame(_) =>
    case _ =>
  }

  /** A call that the step suspends to await an answer. */
  predicate NewAwait(w: World, input: Input, f: Frame) {
    && f.gen == w.chat.generation
    && if input.TimerFires? then f.PollFrame? && w.chat.jobId == Some(f.job)
       else input.Deliver? && input.message.Approve? && f.ApproveFrame? && IsPending(w.chat.items, f.item)
  }

  /** The call that the input resumes. */
  predicate Resumes(w: World, input: Input, id: nat) {
    input.Resume? && input.id == id && Enabled(w, id)
  }

  /**
   Outstanding answers stay outstanding until they are resumed, and new ones come only from a timer or an
   approval message.
   */
  ghost predicate AwaitsOn(w: World, input: Input, v: World) {
    && w.chat.generation <= v.chat.generation
    && (forall id :: id in w.pending && Awaits(w.pending[id]) && !Resumes(w, input, id)
          ==> id in v.pending && v.pending[id] == w.pending[id])
    && (forall id :: id in v.pending && Awaits(v.pending[id]) ==>
          (id in w.pending && v.pending[id] == w.pending[id] && !Resumes(w, input, id))
              || NewAwait(w, input, v.pending[id]))
  }

  lemma OtherAwaitsOn(w: World, input: Input, v: World, at: nat)
    requires w.chat.generation <= v.chat.generation
    requires var p := if input.Resume? && Enabled(w, input.id) then w.pending - {input.id} else w.pending;
             at !in p && AddsOther(p, v.pending, at)
    ensures AwaitsOn(w, input, v)
  {
  }

  lemma StepAwaitsOn(w: World, input: Input)
    requires Inv(w)
    ensures AwaitsOn(w, input, Step(w, input))
  {
    var v := Step(w, input);
    StepAdvances(w, input);
    hide Handle, OnEvent, Disconnected, TimerFired, Replied, AwaitsOn;
    match input
    case Deliver(m) =>
      if m.Approve? {
        ApproveAwaitsOn(w, m.approvalId, m.decision);
      } else {
        HandleAddsOther(w, m);
        OtherAwaitsOn(w, input, v, w.nextId);
      }
    case HostEvent(e) => EventKeepsConnecting(w, e); OtherAwaitsOn(w, input, v, w.nextId);
    case HostDisconnected(reason) => DisconnectedApart(w, reason); OtherAwaitsOn(w, input, v, w.nextId);
    case TimerFires => TimerAwaitsOn(w);
    case Resume(id, reply) =>
      if Enabled(w, id) {
        RepliedAddsOther(w.(pending := w.pending - {id}), id, w.pending[id], reply);
        OtherAwaitsOn(w, input, v, if w.pending[id].SubmitFrame? then id else w.nextId);
      } else {
        OtherAwaitsOn(w, input, v, w.nextId);
      }
  }

  lemma ApproveAwaitsOn(w: World, approvalId: Option<string>, decision: Option<Decision>)
    requires Bounded(w)
    ensures AwaitsOn(w, Deliver(Approve(approvalId, decision)), ApproveItem(w, approvalId, decision))
  {
    var i := FindPending(w.chat.items, approvalId);
    assert i < |w.chat.items| ==> IsPending(w.chat.items, w.chat.items[i].id);
  }

  lemma TimerAwaitsOn(w: World)
    requires Bounded(w)
    ensures AwaitsOn(w, TimerFires, TimerFired(w))
  {
  }

  // ----- Senders name their own message -----

  /** A submit that awaits the answer to its `chat.send` names a message, never a pending approval. */
  predicate NamesMessage(c: Chat, f: Frame) {
    f.SubmitFrame? && f.point.AwaitSend? ==> f.point.userItem <= c.counter && !IsPending(c.items, f.point.userItem)
  }

  ghost predicate SendersKept(w: World) {
    forall id :: id in w.pending ==> NamesMessage(w.chat, w.pending[id])
  }

  predicate NamedAt(w: World, id: nat) {
    id in w.pending ==> NamesMessage(w.chat, w.pending[id])
  }

  lemma SubmitOnceNames(w: World, id: nat, task: Task)
    requires WellKept(w.chat) && id !in w.pending
    ensures NamedAt(SubmitOnce(w, id, task), id)
  {
    hide SendChat, WellKept, IsPending, Add;
    var c := w.chat;
    if Refusal(c, task).None? {
      var v := Publish(w.(chat := c.(busy := true, status := "starting")));
      SameItemsCarries(c, v.chat);
      CarriedIsKept(c, v.chat);
      SendChatNames(v, id, task);
    }
  }

  lemma SendChatNames(w: World, id: nat, task: Task)
    requires WellKept(w.chat)
    ensures NamedAt(SendChat(w, id, task), id)
  {
    SendChatCarries(w, id, task);
    hide Carries, WellKept, IsPending, Evict;
  }

  lemma SubmitRepliedNames(w: World, id: nat, f: Frame, reply: Reply)
    requires WellKept(w.chat) && id !in w.pending && f.SubmitFrame?
    ensures NamedAt(SubmitReplied(w, id, f.gen, f.task, f.point, reply), id)
  {
    hide SendChat, SubmitFailed, SubmitAccepted, SessionCreated, WellKept, IsPending, Or;
    var c, task := w.chat, f.task;
    if f.gen != c.generation { return; }
    if reply.Rejected? {
      SubmitFailedEnds(w, w, id, task, true, if f.point.AwaitSend? then Some(f.point.userItem) else None,
                       reply.message);
      return;
    }
    var b := reply.body;
    match f.point
    case AwaitCreate => SessionCreatedNames(w, id, task, b);
    case AwaitModel => SameNames(w, w.(chat := c.(model := Or(b.model, Or(b.modelName, c.model)))), id, task);
    case AwaitMode =>
      var v := w.(chat := c.(mode := Or(b.mode, c.mode)));
      SubmitFailedEnds(v, v, id, task, true, None, "The agent did not accept the selected permissions.");
      SameNames(w, v, id, task);
    case AwaitSend(item) =>
      SubmitFailedEnds(w, w, id, task, true, Some(item), "The agent did not start a task.");
      SubmitAcceptedEnds(w, id, task, b);
  }

  lemma SessionCreatedNames(w: World, id: nat, task: Task, b: Body)
    requires WellKept(w.chat) && id !in w.pending
    ensures NamedAt(SessionCreated(w, id, task, b), id)
  {
    hide SendChat, SubmitFailed, WellKept, IsPending, Or;
    var v := w.(chat := w.chat.(sessionId := Some(b.sessionId), mode := Or(b.mode, task.mode), sequence := 0));
    SubmitFailedEnds(w, w, id, task, true, None, "The agent did not create a conversation.");
    SameNames(w, v, id, task);
  }

  lemma SameNames(w: World, v: World, id: nat, task: Task)
    requires WellKept(w.chat) && v.chat.items == w.chat.items && v.chat.counter == w.chat.counter
    ensures NamedAt(SendChat(v, id, task), id)
  {
    SameItemsCarries(w.chat, v.chat);
    CarriedIsKept(w.chat, v.chat);
    SendChatNames(v, id, task);
  }

  /** Nothing becomes pending again. */
  ghost predicate NotRevived(c: Chat, d: Chat) {
    c.counter <= d.counter && forall x: nat :: x <= c.counter && IsPending(d.items, x) ==> IsPending(c.items, x)
  }

  lemma LaterRevivesNothing(c: Chat, d: Chat)
    requires Later(c, d)
    ensures NotRevived(c, d)
  {
    forall x: nat | x <= c.counter && IsPending(d.items, x) ensures IsPending(c.items, x) {
      var j :| 0 <= j < |d.items| && d.items[j].id == x && d.items[j].status.Pending?;
      assert HasSource(c.items, d.items[j]);
    }
  }

  lemma AnswerRevivesNothing(w: World, f: Frame, reply: Reply)
    requires AnswersApproval(w.chat, f, reply)
    ensures NotRevived(w.chat, ApproveReplied(w, f.gen, f.item, f.decision, reply).chat)
  {
    var d := ApproveReplied(w, f.gen, f.item, f.decision, reply).chat;
    forall x | IsPending(d.items, x) ensures IsPending(w.chat.items, x) {
      var j :| 0 <= j < |d.items| && d.items[j].id == x && d.items[j].status.Pending?;
      assert w.chat.items[j].id == x;
    }
  }

  lemma StepRevivesNothing(w: World, input: Input)
    requires WellKept(w.chat)
    ensures NotRevived(w.chat, Step(w, input).chat)
  {
    hide WellKept, Later, Stays, Handle, OnEvent, Disconnected, TimerFired, Replied, NotRevived;
    var c, d := w.chat, Step(w, input).chat;
    match input
    case Deliver(m) => HandleKept(w, m); LaterRevivesNothing(c, d);
    case HostEvent(e) => EventCarries(w, e); LaterRevivesNothing(c, d);
    case HostDisconnected(reason) => DisconnectedKept(w, reason); LaterRevivesNothing(c, d);
    case TimerFires => TimerCarries(w); LaterRevivesNothing(c, d);
    case Resume(id, reply) =>
      if Enabled(w, id) {
        var u, f := w.(pending := w.pending - {id}), w.pending[id];
        if AnswersApproval(c, f, reply) {
          AnsweredIs(u, id, f, reply);
          AnswerRevivesNothing(u, f, reply);
        } else {
          RepliedAffects(u, id, f, reply);
          LaterRevivesNothing(c, d);
        }
      } else {
        SameItemsCarries(c, d);
        LaterRevivesNothing(c, d);
      }
  }

  lemma AnsweredIs(w: World, id: nat, f: Frame, reply: Reply)
    requires f.ApproveFrame?
    ensures Replied(w, id, f, reply) == ApproveReplied(w, f.gen, f.item, f.decision, reply)
  {
  }

  lemma TimerCarries(w: World)
    requires WellKept(w.chat)
    ensures Carries(w.chat, TimerFired(w).chat) && TimerFired(w).chat.generation == w.chat.generation
  {
    SameItemsCarries(w.chat, TimerFired(w).chat);
  }

  /** A frame that was there, or a newly suspended submit that names its message. */
  lemma StepKeepsSenders(w: World, input: Input)
    requires Inv(w) && WellKept(w.chat) && SendersKept(w)
    ensures SendersKept(Step(w, input))
  {
    var v := Step(w, input);
    StepRevivesNothing(w, input);
    hide Handle, OnEvent, Disconnected, TimerFired, Replied, NamesMessage, NotRevived, WellKept, Inv;
    forall id | id in v.pending ensures NamesMessage(v.chat, v.pending[id]) {
      if id in w.pending && v.pending[id] == w.pending[id] {
        StillNames(w.chat, v.chat, w.pending[id]);
      } else {
        NewSenderNames(w, input, id);
      }
    }
  }

  lemma StillNames(c: Chat, d: Chat, f: Frame)
    requires NamesMessage(c, f) && NotRevived(c, d)
    ensures NamesMessage(d, f)
  {
  }

  lemma NewSenderNames(w: World, input: Input, id: nat)
    requires Inv(w) && WellKept(w.chat)
    requires id in Step(w, input).pending && !(id in w.pending && Step(w, input).pending[id] == w.pending[id])
    ensures NamesMessage(Step(w, input).chat, Step(w, input).pending[id])
  {
    hide Handle, OnEvent, Disconnected, TimerFired, Replied, WellKept, SubmitOnce;
    match input
    case Deliver(m) =>
      if m.Submit? {
        HandledIs(w, m);
        TaskNames(w, m.task, id);
      } else {
        HandleApart(w, m);
      }
    case HostEvent(e) => EventApart(w, e);
    case HostDisconnected(reason) => DisconnectedApart(w, reason);
    case TimerFires => TimerAddsPoll(w, id);
    case Resume(at, reply) =>
      var u, f := w.(pending := w.pending - {at}), w.pending[at];
      if f.SubmitFrame? {
        SubmitReplyIs(u, at, f, reply);
        SubmitRepliedNames(u, at, f, reply);
        if f.gen == w.chat.generation { SubmitRepliedOutcome(u, at, f.task, f.point, reply); }
      } else if f.WaiterFrame? {
        WaiterSuspendsNothing(u, at, f, reply);
      } else {
        RepliedApart(u, at, f, reply);
      }
  }

  lemma HandledIs(w: World, m: Message)
    requires m.Submit?
    ensures Handle(w, m) == SubmitTask(w, m.task)
  {
  }

  lemma WaiterSuspendsNothing(w: World, id: nat, f: Frame, reply: Reply)
    requires f.WaiterFrame? && f.call in w.settled
    ensures Replied(w, id, f, reply).pending == w.pending
  {
  }

  lemma SubmitReplyIs(w: World, id: nat, f: Frame, reply: Reply)
    requires f.SubmitFrame?
    ensures Replied(w, id, f, reply) == SubmitReplied(w, id, f.gen, f.task, f.point, reply)
  {
  }

  lemma TimerAddsPoll(w: World, id: nat)
    requires id in TimerFired(w).pending && !(id in w.pending && TimerFired(w).pending[id] == w.pending[id])
    ensures TimerFired(w).pending[id].PollFrame?
  {
  }

  lemma TaskNames(w: World, raw: Task, id: nat)
    requires Bounded(w) && WellKept(w.chat)
    requires id in SubmitTask(w, raw).pending && !(id in w.pending && SubmitTask(w, raw).pending[id] == w.pending[id])
    ensures NamesMessage(SubmitTask(w, raw).chat, SubmitTask(w, raw).pending[id])
  {
    hide SubmitOnce, WellKept, IsPending;
    var task := raw.(instruction := Instruction(raw));
    if WellFormedId(task.requestId) && !Known(w.chat.requests, task.requestId) {
      SubmitOnceOutcome(w.(nextId := w.nextId + 1), w.nextId, task);
      SubmitOnceNames(w.(nextId := w.nextId + 1), w.nextId, task);
    }
  }

  // ----- Approvals -----

  /** An answer to an approval is outstanding in this generation. */
  predicate Asks(w: World, id: nat) {
    id in w.pending && w.pending[id].ApproveFrame? && w.pending[id].gen == w.chat.generation
  }

  /** An outstanding answer will find its approval settled or gone. */
  ghost predicate Late(w: World) {
    exists id :: Asks(w, id) && !IsPending(w.chat.items, w.pending[id].item)
  }

  /** An approval is answered while another answer to it is outstanding. */
  ghost predicate AnsweredTwice(w: World, input: Input) {
    && input.Resume? && Asks(w, input.id) && input.reply.Resolved?
    && exists id :: id != input.id && Asks(w, id) && w.pending[id].item == w.pending[input.id].item
  }

  /** The turn ends while an answer to an approval is outstanding. */
  ghost predicate EndsBeforeAnswer(w: World, input: Input) {
    && input.Resume? && Enabled(w, input.id) && EndsTurn(w.chat, w.pending[input.id], input.reply)
    && exists id :: Asks(w, id)
  }

  /** What the step does to pending items, within a generation. */
  ghost predicate Settles(w: World, input: Input, c: Chat) {
    var ends := input.Resume? && Enabled(w, input.id) && EndsTurn(w.chat, w.pending[input.id], input.reply);
    var answers := input.Resume? && Asks(w, input.id) && input.reply.Resolved?;
    && (ends ==> forall x :: !IsPending(c.items, x))
    && (!ends ==>
          forall x :: IsPending(w.chat.items, x) && !(answers && x == w.pending[input.id].item) ==>
            IsPending(c.items, x))
    && (answers ==> !IsPending(c.items, w.pending[input.id].item))
  }

  lemma StaysPending(c: Chat, d: Chat, but: Option<nat>)
    requires Stays(c, d, but)
    ensures forall x: nat :: IsPending(c.items, x) && Some(x) != but ==> IsPending(d.items, x)
  {
    forall x: nat | IsPending(c.items, x) && Some(x) != but ensures IsPending(d.items, x) {
      var i :| 0 <= i < |c.items| && c.items[i].id == x && c.items[i].status.Pending?;
      var j :| 0 <= j < |d.items| && d.items[j] == c.items[i];
    }
  }

  lemma NothingPending(d: Chat)
    requires forall x :: x in d.items ==> !x.status.Pending?
    ensures forall x :: !IsPending(d.items, x)
  {
    assert forall i :: 0 <= i < |d.items| ==> d.items[i] in d.items;
  }

  lemma StepSettles(w: World, input: Input)
    requires Inv(w) && WellKept(w.chat) && SendersKept(w)
    requires Step(w, input).chat.generation == w.chat.generation
    ensures Settles(w, input, Step(w, input).chat)
  {
    hide WellKept, Later, Stays, Handle, OnEvent, Disconnected, TimerFired, Replied, IsPending, EndsTurn;
    var c, d := w.chat, Step(w, input).chat;
    match input
    case Deliver(m) => HandleKept(w, m); StaysPending(c, d, None);
    case HostEvent(e) => EventCarries(w, e); StaysPending(c, d, None);
    case HostDisconnected(reason) => DisconnectedKept(w, reason);
    case TimerFires => TimerCarries(w); StaysPending(c, d, None);
    case Resume(id, reply) =>
      if Enabled(w, id) {
        var f := w.pending[id];
        RepliedAffects(w.(pending := w.pending - {id}), id, f, reply);
        assert NamesMessage(c, f);
        if EndsTurn(c, f, reply) {
          OnlyOthersEnd(c, f, reply);
          NothingPending(d);
        } else {
          StaysPending(c, d, if AnswersApproval(c, f, reply) then Some(f.item) else None);
        }
      }
  }

  lemma OnlyOthersEnd(c: Chat, f: Frame, reply: Reply)
    requires EndsTurn(c, f, reply)
    ensures !f.ApproveFrame?
  {
  }

  /**
   When an answer comes late. From a state where no outstanding answer is late, a step makes one late if
   and only if it answers an approval that has a second answer outstanding, or ends the turn while an
   answer is outstanding.
   */
  lemma LateExactly(w: World, input: Input)
    requires Inv(w) && WellKept(w.chat) && SendersKept(w) && !Late(w)
    ensures Late(Step(w, input)) <==> AnsweredTwice(w, input) || EndsBeforeAnswer(w, input)
  {
    var v := Step(w, input);
    StepAwaitsOn(w, input);
    hide Step, Inv, WellKept, SendersKept, IsPending, EndsTurn, AwaitsOn, Settles;
    if v.chat.generation == w.chat.generation {
      StepSettles(w, input);
      if Late(v) { LateOnlyIf(w, input, v); }
      if AnsweredTwice(w, input) || EndsBeforeAnswer(w, input) { LateIf(w, input, v); }
    } else {
      SettlingKeepsGeneration(w, input);
      NothingFromLater(w, input);
    }
  }

  lemma LateOnlyIf(w: World, input: Input, v: World)
    requires v == Step(w, input) && v.chat.generation == w.chat.generation
    requires AwaitsOn(w, input, v) && Settles(w, input, v.chat) && !Late(w) && Late(v)
    ensures AnsweredTwice(w, input) || EndsBeforeAnswer(w, input)
  {
    hide Step, IsPending, EndsTurn;
    var id :| Asks(v, id) && !IsPending(v.chat.items, v.pending[id].item);
    if id in w.pending && v.pending[id] == w.pending[id] {
      assert Asks(w, id);
    } else {
      NewAsksPending(w, input, v, id);
    }
  }

  lemma LateIf(w: World, input: Input, v: World)
    requires v.chat.generation == w.chat.generation && AwaitsOn(w, input, v) && Settles(w, input, v.chat)
    requires AnsweredTwice(w, input) || EndsBeforeAnswer(w, input)
    ensures Late(v)
  {
    hide IsPending;
    if AnsweredTwice(w, input) {
      var id :| id != input.id && Asks(w, id) && w.pending[id].item == w.pending[input.id].item;
      assert Asks(v, id);
    } else {
      var id :| Asks(w, id);
      OnlyOthersEnd(w.chat, w.pending[input.id], input.reply);
      assert Asks(v, id) && !IsPending(v.chat.items, v.pending[id].item);
    }
  }

  /** An approval message asks about a pending item and changes none. */
  lemma NewAsksPending(w: World, input: Input, v: World, id: nat)
    requires v == Step(w, input) && AwaitsOn(w, input, v) && Asks(v, id)
            && !(id in w.pending && v.pending[id] == w.pending[id])
    ensures IsPending(v.chat.items, v.pending[id].item)
  {
    assert NewAwait(w, input, v.pending[id]);
    assert v.chat.items == w.chat.items by { ApproveKeepsItems(w, input.message.approvalId, input.message.decision); }
  }

  lemma ApproveKeepsItems(w: World, approvalId: Option<string>, decision: Option<Decision>)
    ensures ApproveItem(w, approvalId, decision).chat == w.chat
  {
  }

  lemma NothingFromLater(w: World, input: Input)
    requires Inv(w) && AwaitsOn(w, input, Step(w, input)) && Step(w, input).chat.generation > w.chat.generation
    ensures forall id :: id in Step(w, input).pending && Awaits(Step(w, input).pending[id]) ==>
                           Step(w, input).pending[id].gen < Step(w, input).chat.generation
  {
    hide Step;
  }

  /** What settles an approval stays in its generation. */
  lemma SettlingKeepsGeneration(w: World, input: Input)
    requires WellKept(w.chat) && Step(w, input).chat.generation != w.chat.generation
    ensures !AnsweredTwice(w, input) && !EndsBeforeAnswer(w, input)
  {
    if input.Resume? && Enabled(w, input.id) {
      var f := w.pending[input.id];
      RepliedAffects(w.(pending := w.pending - {input.id}), input.id, f, input.reply);
      if EndsTurn(w.chat, f, input.reply) {
        EndingKeepsGeneration(w.(pending := w.pending - {input.id}), input.id, f, input.reply);
      }
    }
  }

  lemma EndingKeepsGeneration(w: World, id: nat, f: Frame, reply: Reply)
    requires EndsTurn(w.chat, f, reply)
    ensures Replied(w, id, f, reply).chat.generation == w.chat.generation
  {
  }

  /** A late answer that finds its approval still shown changes its final status, for some reply. */
  lemma LateAnswerRewrites(w: World, id: nat, i: nat) returns (reply: Reply)
    requires Asks(w, id) && i < |w.chat.items| && w.chat.items[i].id == w.pending[id].item
            && !w.chat.items[i].status.Pending?
    ensures var d := Step(w, Resume(id, reply)).chat;
            i < |d.items| && d.items[i].id == w.chat.items[i].id && d.items[i].status != w.chat.items[i].status
  {
    reply := Resolved(NOTHING.(status := if w.chat.items[i].status.Expired? then "" else "expired"));
  }

  /** No step of the run answers an approval twice or ends the turn before an answer. */
  ghost predicate Unhurried(inputs: seq<Input>)
    decreases |inputs|
  {
    inputs == [] ||
    var front, w := inputs[..|inputs| - 1], Run(INITIAL, inputs[..|inputs| - 1]);
    Unhurried(front) && !AnsweredTwice(w, inputs[|inputs| - 1]) && !EndsBeforeAnswer(w, inputs[|inputs| - 1])
  }

  /** What every run keeps of the senders, and every unhurried run of the approvals. */
  lemma {:induction false} NeverLate(inputs: seq<Input>)
    ensures SendersKept(Run(INITIAL, inputs))
    ensures Unhurried(inputs) ==> !Late(Run(INITIAL, inputs))
    decreases |inputs|
  {
    if inputs != [] {
      var front := inputs[..|inputs| - 1];
      var w := Run(INITIAL, front);
      NeverLate(front);
      RunKeeps(INITIAL, front);
      TranscriptWellKept(front);
      StepKeepsSenders(w, inputs[|inputs| - 1]);
      if Unhurried(inputs) { LateExactly(w, inputs[|inputs| - 1]); }
    }
  }

  lemma StepIsLater(w: World, input: Input)
    requires WellKept(w.chat) && !Late(w)
    ensures Later(w.chat, Step(w, input).chat)
  {
    hide WellKept, Later, Stays, Handle, OnEvent, Disconnected, TimerFired, Replied, IsPending;
    var c := w.chat;
    match input
    case Deliver(m) => HandleKept(w, m);
    case HostEvent(e) => EventCarries(w, e);
    case HostDisconnected(reason) => DisconnectedKept(w, reason);
    case TimerFires => TimerCarries(w);
    case Resume(id, reply) =>
      if Enabled(w, id) {
        RepliedAffects(w.(pending := w.pending - {id}), id, w.pending[id], reply);
        if AnswersApproval(c, w.pending[id], reply) { assert Asks(w, id); }
      } else {
        SameItemsCarries(c, c);
      }
  }

  lemma {:induction false} RunIsLater(inputs: seq<Input>, n: nat)
    requires n <= |inputs| && Unhurried(inputs)
    ensures Later(Run(INITIAL, inputs[..n]).chat, Run(INITIAL, inputs).chat)
    decreases |inputs|
  {
    hide Later, WellKept;
    TranscriptWellKept(inputs);
    if n == |inputs| {
      assert inputs[..n] == inputs;
      SameItemsCarries(Run(INITIAL, inputs).chat, Run(INITIAL, inputs).chat);
    } else {
      var front := inputs[..|inputs| - 1];
      assert front[..n] == inputs[..n];
      RunIsLater(front, n);
      TranscriptWellKept(front);
      NeverLate(front);
      StepIsLater(Run(INITIAL, front), inputs[|inputs| - 1]);
      LaterTransitive(Run(INITIAL, inputs[..n]).chat, Run(INITIAL, front).chat, Run(INITIAL, inputs).chat);
    }
  }

  /**
   Approvals are written once, in every run without those two kinds of step: an approval that is settled
   at some point has the same status for as long as it is shown.
   */
  lemma {:induction false} ApprovalsAreWrittenOnce(inputs: seq<Input>, n: nat, i: nat, j: nat)
    requires n <= |inputs| && Unhurried(inputs)
    requires i < |Run(INITIAL, inputs[..n]).chat.items| && j < |Run(INITIAL, inputs).chat.items|
    requires Run(INITIAL, inputs[..n]).chat.items[i].id == Run(INITIAL, inputs).chat.items[j].id
    ensures var a, b := Run(INITIAL, inputs[..n]).chat.items[i], Run(INITIAL, inputs).chat.items[j];
            a.kind.Approval? && !a.status.Pending? ==> b.status == a.status
  {
    RunIsLater(inputs, n);
    TranscriptWellKept(inputs[..n]);
    hide Run, Unhurried;
    SettledIsFinal(Run(INITIAL, inputs[..n]).chat, Run(INITIAL, inputs).chat, i, j);
  }

  lemma SettledIsFinal(c: Chat, d: Chat, i: nat, j: nat)
    requires WellKept(c) && Later(c, d) && i < |c.items| && j < |d.items| && c.items[i].id == d.items[j].id
    ensures c.items[i].kind.Approval? && !c.items[i].status.Pending? ==> d.items[j].status == c.items[i].status
  {
    assert ItemKept(c.items[i], c.counter);
    assert HasSource(c.items, d.items[j]);
    var k :| 0 <= k < |c.items| && Continues(c.items[k], d.items[j]);
    assert i < k ==> InOrder(c.items[i], c.items[k]);
    assert k < i ==> InOrder(c.items[k], c.items[i]);
  }

  // ----- Jobs -----

  /** A poll is outstanding in this generation. */
  predicate Polls(w: World, id: nat) {
    id in w.pending && w.pending[id].PollFrame? && w.pending[id].gen == w.chat.generation
  }

  /** An outstanding poll asks about a job that is not the current one. */
  ghost predicate Foreign(w: World) {
    w.chat.jobId.Some? && exists id :: Polls(w, id) && w.pending[id].job != w.chat.jobId.value
  }

  /** `chat.send` is answered with a job that is not over. */
  predicate StartsJob(w: World, input: Input) {
    && input.Resume? && SubmitsNow(w, input.id) && w.pending[input.id].point.AwaitSend?
    && input.reply.Resolved? && input.reply.body.jobId != "" && !Terminal(Or(input.reply.body.status, "running"))
  }

  /** A job starts while a poll for another one is outstanding. */
  ghost predicate StartsUnderPoll(w: World, input: Input) {
    StartsJob(w, input) && exists id :: Polls(w, id) && w.pending[id].job != input.reply.body.jobId
  }

  lemma SubmitTaskJob(w: World, raw: Task)
    ensures SubmitTask(w, raw).chat.jobId == w.chat.jobId
  {
    hide SubmitOnce, Instruction;
    SubmitOnceKeepsConnecting(w.(nextId := w.nextId + 1), w.nextId, raw.(instruction := Instruction(raw)));
  }

  lemma ChangeModeJob(w: World, mode: string)
    ensures ChangeMode(w, mode).chat.jobId == w.chat.jobId
  {
    hide Caught, ViewOf;
    CaughtSameConnection(w, w.chat.generation, "Update the CLI to change permissions.");
  }

  lemma ApproveJob(w: World, approvalId: Option<string>, decision: Option<Decision>)
    ensures ApproveItem(w, approvalId, decision).chat == w.chat
  {
    hide FindPending;
  }

  lemma HandleJob(w: World, m: Message)
    ensures Handle(w, m).chat.generation == w.chat.generation ==> Handle(w, m).chat.jobId == w.chat.jobId
  {
    hide SubmitTask, ChangeMode, ApproveItem, Evict, ViewOf;
    match m
    case Submit(raw) => SubmitTaskJob(w, raw);
    case SetModeTo(mode) => ChangeModeJob(w, mode);
    case Approve(approvalId, decision) => ApproveJob(w, approvalId, decision);
    case _ =>
  }

  lemma PollJob(w: World, f: Frame, reply: Reply)
    requires f.PollFrame?
    ensures var d := PollReplied(w, f.gen, reply).chat; d.jobId == w.chat.jobId || d.jobId.None?
  {
    hide Evict, ViewOf, Terminal, FinishItems;
  }

  lemma RepliedJob(w: World, id: nat, f: Frame, reply: Reply)
    requires !f.SubmitFrame? && (f.WaiterFrame? ==> f.call in w.settled)
    ensures var d := Replied(w, id, f, reply).chat; d.jobId == w.chat.jobId || d.jobId.None?
  {
    hide Evict, ViewOf, Terminal, FinishItems, PollReplied;
    match f
    case PollFrame(_, _) => PollJob(w, f, reply);
    case CancelFrame(_) =>
    case NewSessionFrame(_) =>
    case ConfigureFrame(_) =>
    case _ =>
  }

  /** The current job changes only when one starts, or when it ends. */
  lemma StepJob(w: World, input: Input)
    ensures var d := Step(w, input).chat;
            d.generation == w.chat.generation ==>
              if StartsJob(w, input) then d.jobId == Some(input.reply.body.jobId)
                  else d.jobId == w.chat.jobId || d.jobId.None?
  {
    hide Handle, OnEvent, Replied;
    match input
    case Deliver(m) => HandleJob(w, m);
    case HostEvent(e) => EventJob(w, e);
    case HostDisconnected(reason) =>
    case TimerFires =>
    case Resume(id, reply) =>
      if Enabled(w, id) {
        var u, f := w.(pending := w.pending - {id}), w.pending[id];
        if f.SubmitFrame? {
          SubmitReplyIs(u, id, f, reply);
          SubmitRepliedConnection(u, id, f.gen, f.task, f.point, reply);
        } else {
          RepliedJob(u, id, f, reply);
        }
      }
  }

  lemma EventJob(w: World, e: Event)
    ensures OnEvent(w, e).chat.jobId == w.chat.jobId
  {
    EventChangesItems(w.chat.(sequence := if e.sequence.Some? then e.sequence.value else 0), e);
  }

  lemma StartKeepsGeneration(w: World, input: Input)
    requires Inv(w) && StartsJob(w, input)
    ensures Step(w, input).chat.generation == w.chat.generation
  {
    OwnStepSubmits(w, input.id, input.reply);
  }

  /**
   When a poll turns foreign: exactly when a job starts under an outstanding poll for another one.
   */
  lemma ForeignExactly(w: World, input: Input)
    requires Inv(w) && !Foreign(w)
    ensures Foreign(Step(w, input)) <==> StartsUnderPoll(w, input)
  {
    var v := Step(w, input);
    StepAwaitsOn(w, input);
    StepJob(w, input);
    if StartsJob(w, input) { StartKeepsGeneration(w, input); }
    if v.chat.generation != w.chat.generation { NothingFromLater(w, input); }
    hide Step, Inv, Terminal;
    if Foreign(v) {
      var id :| Polls(v, id) && v.pending[id].job != v.chat.jobId.value;
      assert id in w.pending && v.pending[id] == w.pending[id] ==> Polls(w, id);
    }
    if StartsUnderPoll(w, input) {
      var id :| Polls(w, id) && w.pending[id].job != input.reply.body.jobId;
      assert Polls(v, id);
    }
  }

  /** No job of the run starts under a poll for another one. */
  ghost predicate OnePoll(inputs: seq<Input>)
    decreases |inputs|
  {
    inputs == [] ||
    var front := inputs[..|inputs| - 1];
    OnePoll(front) && !StartsUnderPoll(Run(INITIAL, front), inputs[|inputs| - 1])
  }

  lemma {:induction false} NeverForeign(inputs: seq<Input>)
    requires OnePoll(inputs)
    ensures !Foreign(Run(INITIAL, inputs))
    decreases |inputs|
  {
    if inputs != [] {
      var front := inputs[..|inputs| - 1];
      NeverForeign(front);
      RunKeeps(INITIAL, front);
      ForeignExactly(Run(INITIAL, front), inputs[|inputs| - 1]);
    }
  }

  /**
   In every run in which no job starts under a poll for another one, a poll ends a job only through that
   job's own terminal answer.
   */
  lemma {:induction false} PollsEndTheirOwnJob(inputs: seq<Input>, id: nat, reply: Reply)
    requires OnePoll(inputs) && id in Run(INITIAL, inputs).pending && Run(INITIAL, inputs).pending[id].PollFrame?
    ensures var w := Run(INITIAL, inputs);
            EndsJob(w, Step(w, Resume(id, reply))) <==>
              && w.pending[id].gen == w.chat.generation && w.chat.jobId == Some(w.pending[id].job)
              && reply.Resolved? && Terminal(Or(reply.body.status, w.chat.status))
  {
    NeverForeign(inputs);
    hide Run, OnePoll;
    var w := Run(INITIAL, inputs);
    if w.chat.jobId.Some? {
      PollEndsAnyJob(w, id, reply);
      hide Step;
      if w.pending[id].gen == w.chat.generation { assert Polls(w, id); }
    }
  }
}
