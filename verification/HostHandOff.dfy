/**
 The host's half of the hand-off: while the idempotency entry of a request id survives, all the
 `task.submit` messages that carry the id cause at most one `chat.send` and get one answer.
 */
module HostHandOff {
  import opened Wrappers
  import opened ChatSpec
  import opened ChatInvariants

  predicate Quiet(e: Effect) {
    !(e.Sent? && e.rpc.ChatSend?) && !(e.Emitted? && e.message.TaskResult?)
  }

  predicate SendOf(e: Effect, key: string) {
    e.Sent? && e.rpc.ChatSend? && e.rpc.key == key
  }

  predicate ResultOf(e: Effect, key: string) {
    e.Emitted? && e.message.TaskResult? && e.message.requestId == key
  }

  ghost predicate QuietBetween(log: seq<Effect>, from: nat, to: nat) {
    forall i :: from <= i < to && i < |log| ==> Quiet(log[i])
  }

  // ----- Steps that concern no request -----

  /**
   `v` follows `w` without touching a request: nothing about one is sent or answered, no promise
   settles, the entries and the accepted id stay unless the generation moved on and cleared them, and
   a newly suspended call is neither a submit nor a waiter.
   */
  ghost predicate Apart(w: World, v: World) {
    && w.log <= v.log && QuietBetween(v.log, |w.log|, |v.log|)
    && v.settled == w.settled
    && ((v.chat.generation == w.chat.generation && v.chat.requests == w.chat.requests
         && v.chat.accepted == w.chat.accepted)
        || (v.chat.generation > w.chat.generation && v.chat.requests == [] && v.chat.accepted.None?))
    && (v.pending == w.pending
        || (w.nextId in v.pending && v.pending == w.pending[w.nextId := v.pending[w.nextId]]
            && !v.pending[w.nextId].SubmitFrame? && !v.pending[w.nextId].WaiterFrame?))
  }

  lemma ConnectApart(w: World)
    ensures Apart(w, Connect(w))
  {
  }

  lemma DisconnectedApart(w: World, reason: string)
    ensures Apart(w, Disconnected(w, reason)) && Disconnected(w, reason).nextId == w.nextId
    ensures Disconnected(w, reason).pending == w.pending
    ensures Disconnected(w, reason).chat.generation == w.chat.generation + 1
  {
  }

  lemma CaughtApart(w: World, gen: nat, message: string)
    ensures Apart(w, Caught(w, gen, message))
  {
  }

  lemma PollApart(w: World, gen: nat, reply: Reply)
    ensures Apart(w, PollReplied(w, gen, reply))
  {
    if gen == w.chat.generation && reply.Rejected? {
      DisconnectedApart(w, Or(reply.message, "The local agent stopped responding."));
    }
  }

  lemma CancelApart(w: World, gen: nat, reply: Reply)
    ensures Apart(w, CancelReplied(w, gen, reply))
  {
    hide ViewOf, Evict, FinishItems, Terminal;
  }

  lemma NewSessionApart(w: World)
    ensures Apart(w, NewSession(w))
  {
    hide ViewOf;
  }

  lemma NewSessionRepliedApart(w: World, gen: nat, reply: Reply)
    ensures Apart(w, NewSessionReplied(w, gen, reply))
  {
  }

  lemma ConfigureApart(w: World, gen: nat, reply: Reply)
    ensures Apart(w, Replied(w, 0, ConfigureFrame(gen), reply))
  {
    if reply.Rejected? {
      CaughtApart(w, gen, reply.message);
    } else if reply.body.confirmed {
      DisconnectedApart(w, "");
      ConnectApart(Disconnected(w, ""));
    }
  }

  lemma EventApart(w: World, e: Event)
    ensures Apart(w, OnEvent(w, e))
  {
    if Relevant(w.chat, e) && Newer(w.chat.sequence, e) {
      EventChangesItems(w.chat.(sequence := e.sequence.value), e);
    }
  }

  lemma ChangeModeApart(w: World, mode: string)
    ensures Apart(w, ChangeMode(w, mode))
  {
    CaughtApart(w, w.chat.generation, "Update the CLI to change permissions.");
  }

  lemma HandleApart(w: World, m: Message)
    requires !m.Submit?
    ensures Apart(w, Handle(w, m))
  {
    hide ChangeMode, NewSession, Connect, Caught, ViewOf;
    match m
    case Malformed =>
    case Ready =>
    case CancelTask =>
    case Approve(_, _) =>
    case SetModeTo(mode) => ChangeModeApart(w, mode);
    case NewTask => NewSessionApart(w);
    case Reconnect => ConnectApart(w);
    case LocateCli =>
    case Native =>
    case Unsupported => CaughtApart(w, w.chat.generation, "This action is not available in the JetBrains preview yet.");
  }

  lemma RepliedApart(w: World, id: nat, frame: Frame, reply: Reply)
    requires !frame.SubmitFrame? && !frame.WaiterFrame?
    ensures Apart(w, Replied(w, id, frame, reply))
  {
    match frame
    case ConnectFrame(gen) =>
    case PollFrame(gen, _) => PollApart(w, gen, reply);
    case ApproveFrame(gen, item, decision) =>
    case CancelFrame(gen) => CancelApart(w, gen, reply);
    case NewSessionFrame(gen) => NewSessionRepliedApart(w, gen, reply);
    case ModeFrame(gen) => if reply.Rejected? { CaughtApart(w, gen, reply.message); }
    case ConfigureFrame(gen) => ConfigureApart(w, gen, reply);
    case NativeFrame(gen) => if reply.Rejected? { CaughtApart(w, gen, reply.message); }
    case CatchFrame(gen, message) => CaughtApart(w, gen, message);
  }

  // ----- One stretch of a submitOnce call -----

  ghost predicate SameBook(w: World, v: World) {
    w.log <= v.log && v.chat.generation == w.chat.generation && v.chat.requests == w.chat.requests
  }

  /** The call suspended again; it sent the message exactly when it now awaits the answer to `chat.send`. */
  ghost predicate Waits(w: World, v: World, id: nat, task: Task) {
    && SameBook(w, v) && v.chat.accepted == w.chat.accepted && v.settled == w.settled
    && id in v.pending && v.pending == w.pending[id := v.pending[id]]
    && v.pending[id].SubmitFrame? && v.pending[id].gen == w.chat.generation && v.pending[id].task == task
    && if v.pending[id].point.AwaitSend?
       then |w.log| < |v.log| && QuietBetween(v.log, |w.log|, |v.log| - 1) && SendOf(v.log[|v.log| - 1], task.requestId)
            && v.log[|v.log| - 1].rpc.message == task.instruction && v.log[|v.log| - 1].gen == w.chat.generation
       else QuietBetween(v.log, |w.log|, |v.log|)
  }

  /** The call returned `started`, after answering the sidebar once. */
  ghost predicate Ends(w: World, v: World, id: nat, task: Task, started: bool) {
    && SameBook(w, v) && v.pending == w.pending && v.settled == w.settled[id := Some(started)]
    && v.chat.accepted == (if started then Some(task.requestId) else w.chat.accepted)
    && |w.log| + 2 <= |v.log| && QuietBetween(v.log, |w.log|, |v.log| - 2) && Quiet(v.log[|v.log| - 1])
    && v.log[|v.log| - 2] == Emitted(w.chat.generation, TaskResult(task.requestId, Some(started)))
  }

  lemma SendChatWaits(w: World, u: World, id: nat, task: Task)
    requires SameBook(w, u) && u.chat.accepted == w.chat.accepted && u.settled == w.settled && u.pending == w.pending
    requires QuietBetween(u.log, |w.log|, |u.log|)
    ensures Waits(w, SendChat(u, id, task), id, task)
  {
  }

  lemma SubmitFailedEnds(w: World, u: World, id: nat, task: Task, started: bool, userItem: Option<nat>, message: string)
    requires SameBook(w, u) && u.chat.accepted == w.chat.accepted && u.settled == w.settled && u.pending == w.pending
    requires QuietBetween(u.log, |w.log|, |u.log|)
    ensures Ends(w, SubmitFailed(u, id, task.requestId, started, userItem, message), id, task, false)
  {
  }

  lemma SubmitAcceptedEnds(w: World, id: nat, task: Task, b: Body)
    ensures Ends(w, SubmitAccepted(w, id, task.requestId, b), id, task, true)
  {
  }

  lemma SubmitOnceOutcome(w: World, id: nat, task: Task)
    ensures var v := SubmitOnce(w, id, task); Waits(w, v, id, task) || Ends(w, v, id, task, false)
  {
    var c := w.chat;
    if Refusal(c, task).Some? {
      SubmitFailedEnds(w, w, id, task, false, None, Refusal(c, task).value);
    } else {
      var u := Publish(w.(chat := c.(busy := true, status := "starting")));
      if c.sessionId.None? {
      } else if task.mode == c.mode {
        SendChatWaits(w, u, id, task);
      } else if "session.setMode" !in c.methods {
        SubmitFailedEnds(w, u, id, task, true, None, "Update the CLI to change permissions.");
      }
    }
  }

  lemma SessionCreatedOutcome(w: World, id: nat, task: Task, b: Body)
    ensures var v := SessionCreated(w, id, task, b); Waits(w, v, id, task) || Ends(w, v, id, task, false)
  {
    if b.sessionId == "" {
      SubmitFailedEnds(w, w, id, task, true, None, "The agent did not create a conversation.");
    } else if "session.modelInfo" !in w.chat.methods {
      SendChatWaits(w, w.(chat := w.chat.(sessionId := Some(b.sessionId), mode := Or(b.mode, task.mode),
                                          sequence := 0)), id, task);
    }
  }

  lemma ModeChangedOutcome(w: World, id: nat, task: Task, b: Body)
    ensures var v := ModeChanged(w, id, task, b); Waits(w, v, id, task) || Ends(w, v, id, task, false)
  {
    var u := w.(chat := w.chat.(mode := Or(b.mode, w.chat.mode)));
    if u.chat.mode != task.mode {
      SubmitFailedEnds(w, u, id, task, true, None, "The agent did not accept the selected permissions.");
    } else {
      SendChatWaits(w, u, id, task);
    }
  }

  /** A current submit that resumes ends without a second send if it had sent, and cannot succeed before it has. */
  lemma SubmitRepliedOutcome(w: World, id: nat, task: Task, point: SubmitPoint, reply: Reply)
    ensures var v := SubmitReplied(w, id, w.chat.generation, task, point, reply);
            if point.AwaitSend? then Ends(w, v, id, task, false) || Ends(w, v, id, task, true)
            else Waits(w, v, id, task) || Ends(w, v, id, task, false)
  {
    if reply.Rejected? {
      SubmitFailedEnds(w, w, id, task, true, if point.AwaitSend? then Some(point.userItem) else None, reply.message);
      return;
    }
    var b := reply.body;
    match point
    case AwaitCreate => SessionCreatedOutcome(w, id, task, b);
    case AwaitModel => SendChatWaits(w, w.(chat := w.chat.(model := Or(b.model, Or(b.modelName, w.chat.model)))), id,
                                     task);
    case AwaitMode => ModeChangedOutcome(w, id, task, b);
    case AwaitSend(item) =>
      if b.jobId == "" {
        SubmitFailedEnds(w, w, id, task, true, Some(item), "The agent did not start a task.");
      } else {
        SubmitAcceptedEnds(w, id, task, b);
      }
  }

  // ----- The life of one request id -----

  /** An outstanding call that works for, or waits on, the request id. */
  predicate About(f: Frame, key: string) {
    (f.SubmitFrame? && f.task.requestId == key) || (f.WaiterFrame? && f.key == key)
  }

  predicate Mentions(e: Effect, key: string) {
    SendOf(e, key) || ResultOf(e, key)
  }

  /** The id was never seen. */
  ghost predicate Untouched(w: World, key: string) {
    && (forall id :: id in w.pending ==> !About(w.pending[id], key))
    && (forall i :: 0 <= i < |w.log| ==> !Mentions(w.log[i], key))
  }

  function Entry(w: World, key: string): Request
    requires Known(w.chat.requests, key)
  {
    w.chat.requests[Find(w.chat.requests, key)]
  }

  ghost predicate OneSend(log: seq<Effect>, key: string, instruction: string) {
    && (forall i :: 0 <= i < |log| && SendOf(log[i], key) ==> log[i].rpc.message == instruction)
    && (forall i, j :: 0 <= i < |log| && 0 <= j < |log| && SendOf(log[i], key) && SendOf(log[j], key) ==> i == j)
  }

  ghost predicate NoSend(log: seq<Effect>, key: string) {
    forall i :: 0 <= i < |log| ==> !SendOf(log[i], key)
  }

  ghost predicate HasSend(log: seq<Effect>, key: string) {
    exists i :: 0 <= i < |log| && SendOf(log[i], key)
  }

  ghost predicate Answers(log: seq<Effect>, key: string, result: Option<bool>) {
    forall i :: 0 <= i < |log| && ResultOf(log[i], key) ==> log[i].message.started == result
  }

  /** One call serves the id, and what was sent and answered follows that call. */
  ghost predicate ServedBy(w: World, call: nat, key: string, instruction: string) {
    && (forall id :: id in w.pending && About(w.pending[id], key) ==>
          if w.pending[id].SubmitFrame?
          then id == call && w.pending[id].gen == w.chat.generation && w.pending[id].task.instruction == instruction
          else w.pending[id].call == call)
    && OneSend(w.log, key, instruction)
    && if call in w.pending
       then About(w.pending[call], key) && w.pending[call].SubmitFrame?
            && (forall i :: 0 <= i < |w.log| ==> !ResultOf(w.log[i], key))
            && (if w.pending[call].point.AwaitSend? then HasSend(w.log, key) else NoSend(w.log, key))
       else call in w.settled && w.settled[call].Some? && Answers(w.log, key, w.settled[call])
            && (w.settled[call] == Some(true) ==> HasSend(w.log, key))
  }

  ghost predicate Served(w: World, key: string, instruction: string)
    requires Known(w.chat.requests, key)
  {
    Entry(w, key).instruction == instruction && ServedBy(w, Entry(w, key).call, key, instruction)
  }

  ghost predicate Tracked(w: World, key: string, instruction: string) {
    if Known(w.chat.requests, key) then Served(w, key, instruction) else Untouched(w, key)
  }

  lemma ApartKeeps(w: World, v: World, key: string, instruction: string)
    requires Bounded(w) && Booked(w, key, instruction) && Apart(w, v)
    requires Known(w.chat.requests, key) ==> Known(v.chat.requests, key)
    ensures Booked(v, key, instruction)
  {
    assert forall i :: 0 <= i < |v.log| ==> if i < |w.log| then v.log[i] == w.log[i] else Quiet(v.log[i]);
  }

  // ----- The idempotency map -----

  ghost predicate DistinctKeys(requests: seq<Request>) {
    forall i, j :: 0 <= i < j < |requests| ==> requests[i].key != requests[j].key
  }

  lemma RememberOther(requests: seq<Request>, request: Request, key: string)
    requires DistinctKeys(requests) && !Known(requests, request.key)
    ensures DistinctKeys(Remember(requests, request))
    ensures Known(Remember(requests, request), request.key)
            && Remember(requests, request)[Find(Remember(requests, request), request.key)] == request
    ensures key != request.key && Known(Remember(requests, request), key) ==>
              Known(requests, key) && Remember(requests, request)[Find(Remember(requests, request), key)] ==
                  requests[Find(requests, key)]
  {
    var all := requests + [request];
    assert forall i :: 0 <= i < |requests| ==> requests[i].key != request.key;
    var kept := Remember(requests, request);
    assert kept[|kept| - 1] == request;
    var i := Find(kept, request.key);
    if key != request.key && Known(kept, key) {
      var k := Find(kept, key);
      var shift := |all| - |kept|;
      assert kept[k] == all[k + shift] && k + shift < |requests|;
      var j := Find(requests, key);
      assert requests[k + shift].key == key;
    }
  }

  // ----- One call at a time -----

  /** A stretch of another request's call leaves this id alone. */
  lemma OtherCallKeeps(w: World, v: World, id: nat, task: Task, key: string, instruction: string)
    requires Bounded(w) && Tracked(w, key, instruction) && task.requestId != key
    requires id !in w.pending && id !in w.settled
    requires Waits(w, v, id, task) || Ends(w, v, id, task, false) || Ends(w, v, id, task, true)
    ensures Tracked(v, key, instruction)
  {
    assert forall i :: 0 <= i < |v.log| ==> if i < |w.log| then v.log[i] == w.log[i] else !Mentions(v.log[i], key);
  }

  /** What is known about an id whose call `id` is running, that is, taken out of the outstanding calls. */
  ghost predicate Running(w: World, id: nat, sent: bool, key: string, instruction: string) {
    && id !in w.pending
    && (forall k :: k in w.pending && About(w.pending[k], key) ==> w.pending[k].WaiterFrame? && w.pending[k].call == id)
    && OneSend(w.log, key, instruction)
    && (forall i :: 0 <= i < |w.log| ==> !ResultOf(w.log[i], key))
    && (if sent then HasSend(w.log, key) else NoSend(w.log, key))
  }

  /** A stretch of the id's own call: the promise of at most one send is kept. */
  lemma OwnCallKeeps(w: World, v: World, id: nat, sent: bool, task: Task, instruction: string)
    requires Running(w, id, sent, task.requestId, instruction) && task.instruction == instruction
    requires if sent then Ends(w, v, id, task, false) || Ends(w, v, id, task, true)
             else Waits(w, v, id, task) || Ends(w, v, id, task, false)
    ensures ServedBy(v, id, task.requestId, instruction)
  {
    var key := task.requestId;
    assert forall i :: 0 <= i < |w.log| ==> v.log[i] == w.log[i];
    if Waits(w, v, id, task) {
      if v.pending[id].point.AwaitSend? {
        assert SendOf(v.log[|v.log| - 1], key);
      }
    } else {
      if sent {
        var i :| 0 <= i < |w.log| && SendOf(w.log[i], key);
        assert SendOf(v.log[i], key);
      }
    }
  }

  // ----- Steps -----

  /** The map holds no id twice, and the id in question is tracked. */
  ghost predicate Booked(w: World, key: string, instruction: string) {
    DistinctKeys(w.chat.requests) && Tracked(w, key, instruction)
  }

  lemma RegisterKeepsBook(w: World, request: Request, key: string, instruction: string)
    requires DistinctKeys(w.chat.requests) && !Known(w.chat.requests, request.key)
    requires Known(w.chat.requests, key) ==> Known(Register(w, request).chat.requests, key)
    requires if request.key == key
            then request.instruction == instruction && ServedBy(w, request.call, key, instruction)
             else Tracked(w, key, instruction)
    ensures Booked(Register(w, request), key, instruction)
  {
    RememberOther(w.chat.requests, request, key);
  }

  lemma StartedKeepsBook(w: World, u: World, v: World, x: World, task: Task, key: string, instruction: string)
    requires Inv(w) && Booked(w, key, instruction) && !Known(w.chat.requests, task.requestId)
    requires u == w.(nextId := w.nextId + 1)
    requires x == Register(v, Request(task.requestId, task.instruction, w.nextId))
    requires Waits(u, v, w.nextId, task) || Ends(u, v, w.nextId, task, false)
    requires task.requestId == key ==> task.instruction == instruction
    requires Known(w.chat.requests, key) ==> Known(x.chat.requests, key)
    ensures Booked(x, key, instruction)
  {
    if task.requestId == key {
      OwnCallKeeps(u, v, w.nextId, false, task, instruction);
    } else {
      assert Tracked(u, key, instruction);
      OtherCallKeeps(u, v, w.nextId, task, key, instruction);
    }
    RegisterKeepsBook(v, Request(task.requestId, task.instruction, w.nextId), key, instruction);
  }

  lemma FirstSubmitKeepsBook(w: World, task: Task, key: string, instruction: string)
    requires Inv(w) && Booked(w, key, instruction) && !Known(w.chat.requests, task.requestId)
    requires task.requestId == key ==> task.instruction == instruction
    requires Known(w.chat.requests, key) ==> Known(FirstSubmit(w, task).chat.requests, key)
    ensures Booked(FirstSubmit(w, task), key, instruction)
  {
    hide SubmitOnce;
    var u := w.(nextId := w.nextId + 1);
    SubmitOnceOutcome(u, w.nextId, task);
    StartedKeepsBook(w, u, SubmitOnce(u, w.nextId, task), FirstSubmit(w, task), task, key, instruction);
  }

  lemma ResubmitKeepsBook(w: World, task: Task, key: string, instruction: string)
    requires Inv(w) && Booked(w, key, instruction) && Known(w.chat.requests, task.requestId)
    requires task.requestId == key ==> task.instruction == instruction
    ensures Booked(Resubmit(w, task), key, instruction)
  {
    var previous := Entry(w, task.requestId);
    if previous.instruction != task.instruction {
      var v := Emit(w, TaskResult(task.requestId, Some(false)));
      assert forall i :: 0 <= i < |v.log| ==> if i < |w.log| then v.log[i] == w.log[i] else !Mentions(v.log[i], key);
    } else {
      var v := Suspend(w, WaiterFrame(w.chat.generation, task.requestId, previous.call));
      assert v.chat == w.chat && v.log == w.log;
      if Known(w.chat.requests, key) {
        assert ServedBy(v, Entry(w, key).call, key, instruction);
      }
    }
  }

  lemma WaiterKeepsBook(w: World, gen: nat, waited: string, call: nat, key: string, instruction: string)
    requires Booked(w, key, instruction) && call in w.settled && call !in w.pending
    requires waited == key ==> Known(w.chat.requests, key) && Entry(w, key).call == call
    ensures Booked(WaiterReplied(w, gen, waited, w.settled[call]), key, instruction)
  {
    var v := WaiterReplied(w, gen, waited, w.settled[call]);
    assert forall i :: 0 <= i < |w.log| ==> v.log[i] == w.log[i];
    if Known(w.chat.requests, key) && HasSend(w.log, key) {
      var i :| 0 <= i < |w.log| && SendOf(w.log[i], key);
      assert SendOf(v.log[i], key);
    }
  }

  lemma OtherReplyKeepsBook(w: World, id: nat, f: Frame, reply: Reply, key: string, instruction: string)
    requires f.SubmitFrame? && f.task.requestId != key && id !in w.pending && id !in w.settled
    requires Bounded(w) && Booked(w, key, instruction)
    ensures Booked(SubmitReplied(w, id, f.gen, f.task, f.point, reply), key, instruction)
  {
    hide SubmitReplied;
    var v := SubmitReplied(w, id, f.gen, f.task, f.point, reply);
    if f.gen != w.chat.generation {
      StaleReplySettles(w, id, f, reply);
    } else {
      SubmitRepliedOutcome(w, id, f.task, f.point, reply);
      OtherCallKeeps(w, v, id, f.task, key, instruction);
    }
  }

  lemma StaleReplySettles(w: World, id: nat, f: Frame, reply: Reply)
    requires f.SubmitFrame? && f.gen != w.chat.generation
    ensures SubmitReplied(w, id, f.gen, f.task, f.point, reply) == Settle(w, id, None)
  {
  }

  lemma SubmitRepliedKeepsBook(w: World, id: nat, reply: Reply, key: string, instruction: string)
    requires Inv(w) && Booked(w, key, instruction) && id in w.pending && w.pending[id].SubmitFrame?
    ensures var f := w.pending[id];
            Booked(SubmitReplied(w.(pending := w.pending - {id}), id, f.gen, f.task, f.point, reply), key, instruction)
  {
    var f := w.pending[id];
    var u := w.(pending := w.pending - {id});
    var v := SubmitReplied(u, id, f.gen, f.task, f.point, reply);
    assert forall k :: k in u.pending ==> k in w.pending && u.pending[k] == w.pending[k];
    assert forall k :: k in w.pending && k != id ==> k in u.pending;
    if f.task.requestId != key {
      OtherReplyKeepsBook(u, id, f, reply, key, instruction);
    } else {
      assert Entry(w, key).call == id && f.gen == w.chat.generation;
      SubmitRepliedOutcome(u, id, f.task, f.point, reply);
      OwnCallKeeps(u, v, id, f.point.AwaitSend?, f.task, instruction);
    }
  }

  // ----- The theorem -----

  /** Every `task.submit` with this id that the step delivers carries this instruction. */
  predicate Agrees(input: Input, key: string, instruction: string) {
    (input.Deliver? && input.message.Submit? && input.message.task.requestId == key)
    ==> Instruction(input.message.task) == instruction
  }

  lemma StepKeepsBook(w: World, input: Input, key: string, instruction: string)
    requires Inv(w) && Booked(w, key, instruction) && Agrees(input, key, instruction)
    requires Known(w.chat.requests, key) ==> Known(Step(w, input).chat.requests, key)
    ensures Booked(Step(w, input), key, instruction)
  {
    var v := Step(w, input);
    match input
    case Deliver(m) =>
      if m.Submit? {
        SubmitTaskKeepsBook(w, m.task, key, instruction);
      } else {
        HandleApart(w, m);
        ApartKeeps(w, v, key, instruction);
      }
    case HostEvent(e) => EventApart(w, e); ApartKeeps(w, v, key, instruction);
    case HostDisconnected(reason) => DisconnectedApart(w, reason); ApartKeeps(w, v, key, instruction);
    case TimerFires => ApartKeeps(w, v, key, instruction);
    case Resume(id, reply) => if Enabled(w, id) { ResumeKeepsBook(w, id, reply, key, instruction); }
  }

  lemma SubmitTaskKeepsBook(w: World, raw: Task, key: string, instruction: string)
    requires Inv(w) && Booked(w, key, instruction)
    requires raw.requestId == key ==> Instruction(raw) == instruction
    requires Known(w.chat.requests, key) ==> Known(SubmitTask(w, raw).chat.requests, key)
    ensures Booked(SubmitTask(w, raw), key, instruction)
  {
    var task := raw.(instruction := Instruction(raw));
    if WellFormedId(task.requestId) {
      if Known(w.chat.requests, task.requestId) {
        ResubmitKeepsBook(w, task, key, instruction);
      } else {
        FirstSubmitKeepsBook(w, task, key, instruction);
      }
    }
  }

  lemma ResumeKeepsBook(w: World, id: nat, reply: Reply, key: string, instruction: string)
    requires Inv(w) && Booked(w, key, instruction) && Enabled(w, id)
    requires Known(w.chat.requests, key) ==>
               Known(Replied(w.(pending := w.pending - {id}), id, w.pending[id], reply).chat.requests, key)
    ensures Booked(Replied(w.(pending := w.pending - {id}), id, w.pending[id], reply), key, instruction)
  {
    var f := w.pending[id];
    if f.SubmitFrame? {
      SubmitRepliedKeepsBook(w, id, reply, key, instruction);
      return;
    }
    var u := w.(pending := w.pending - {id});
    assert forall k :: k in u.pending ==> k in w.pending && u.pending[k] == w.pending[k];
    assert forall k :: k in w.pending && k != id ==> k in u.pending;
    assert Booked(u, key, instruction);
    if f.WaiterFrame? {
      WaiterKeepsBook(u, f.gen, f.key, f.call, key, instruction);
    } else {
      RemovalKeeps(w, id);
      RepliedApart(u, id, f, reply);
      ApartKeeps(u, Replied(u, id, f, reply), key, instruction);
    }
  }

  /** The id's entry, once made, is neither evicted by 128 newer ids nor cleared with the session. */
  ghost predicate Survives(inputs: seq<Input>, key: string)
    decreases |inputs|
  {
    inputs == [] ||
    var front := inputs[..|inputs| - 1];
    Survives(front, key)
    && (Known(Run(INITIAL, front).chat.requests, key) ==> Known(Run(INITIAL, inputs).chat.requests, key))
  }

  // ----- When an entry survives -----

  /** The step makes a new entry: the first submit with a well-formed id that has none. */
  predicate Makes(requests: seq<Request>, input: Input) {
    && input.Deliver? && input.message.Submit?
    && WellFormedId(input.message.task.requestId) && !Known(requests, input.message.task.requestId)
  }

  /** The ids that got their entry once `key` had its own. */
  ghost function NewerIds(inputs: seq<Input>, key: string): set<string>
    decreases |inputs|
  {
    if inputs == [] then {}
    else
      var front, last := inputs[..|inputs| - 1], inputs[|inputs| - 1];
      var requests := Run(INITIAL, front).chat.requests;
      NewerIds(front, key) + if Known(requests, key) && Makes(requests, last) then {last.message.task.requestId} else {}
  }

  /** No disconnect and no new session once the id has its entry. */
  ghost predicate Steady(inputs: seq<Input>, key: string)
    decreases |inputs|
  {
    inputs == [] ||
    var front := inputs[..|inputs| - 1];
    && Steady(front, key)
    && (Known(Run(INITIAL, front).chat.requests, key)
        ==> Run(INITIAL, inputs).chat.generation == Run(INITIAL, front).chat.generation)
  }

  /** The map after a step: with one more entry, as it was, or empty in a new generation. */
  ghost predicate Enters(w: World, v: World, input: Input) {
    if Makes(w.chat.requests, input)
    then v.chat.generation == w.chat.generation && exists request: Request ::
           request.key == input.message.task.requestId && v.chat.requests == Remember(w.chat.requests, request)
    else SameEntries(w, v)
  }

  ghost predicate SameEntries(w: World, v: World) {
    if v.chat.generation == w.chat.generation then v.chat.requests == w.chat.requests else v.chat.requests == []
  }

  lemma StepEnters(w: World, input: Input)
    requires Inv(w)
    ensures Enters(w, Step(w, input), input)
  {
    hide Handle, OnEvent, Disconnected, TimerFired, Replied, Remember;
    match input
    case Deliver(m) => if m.Submit? { TaskEnters(w, m); } else { HandleApart(w, m); }
    case HostEvent(e) => EventApart(w, e);
    case HostDisconnected(reason) => DisconnectedApart(w, reason);
    case TimerFires => TimerEnters(w);
    case Resume(id, reply) =>
      if Enabled(w, id) { ReplyEnters(w.(pending := w.pending - {id}), id, w.pending[id], reply); }
  }

  lemma TimerEnters(w: World)
    ensures SameEntries(w, TimerFired(w))
  {
  }

  lemma TaskEnters(w: World, m: Message)
    requires m.Submit?
    ensures Enters(w, Handle(w, m), Deliver(m))
  {
    hide SubmitOnce, Remember, Instruction;
    var task := m.task.(instruction := Instruction(m.task));
    if Makes(w.chat.requests, Deliver(m)) {
      var u := SubmitOnce(w.(nextId := w.nextId + 1), w.nextId, task);
      SubmitOnceOutcome(w.(nextId := w.nextId + 1), w.nextId, task);
      var request := Request(task.requestId, task.instruction, w.nextId);
      assert Handle(w, m) == Register(u, request);
    }
  }

  lemma ReplyEnters(w: World, id: nat, f: Frame, reply: Reply)
    requires f.WaiterFrame? ==> f.call in w.settled
    ensures SameEntries(w, Replied(w, id, f, reply))
  {
    hide SubmitReplied;
    if f.SubmitFrame? {
      if f.gen == w.chat.generation {
        SubmitRepliedOutcome(w, id, f.task, f.point, reply);
      } else {
        StaleReplySettles(w, id, f, reply);
      }
    } else if !f.WaiterFrame? {
      RepliedApart(w, id, f, reply);
    }
  }

  /** No id has two entries, and there are at most 128. */
  ghost predicate Tidy(requests: seq<Request>) {
    DistinctKeys(requests) && |requests| <= REQUEST_LIMIT
  }

  /** The entries behind the id's own are exactly those of the newer ids. */
  ghost predicate Behind(requests: seq<Request>, key: string, newer: set<string>) {
    && Known(requests, key) && |newer| == |requests| - 1 - Find(requests, key)
    && forall k :: k in newer ==> Find(requests, key) < Find(requests, k) < |requests|
  }

  lemma FindIs(requests: seq<Request>, key: string, i: nat)
    requires DistinctKeys(requests) && i < |requests| && requests[i].key == key
    ensures Find(requests, key) == i && Known(requests, key)
  {
  }

  /** The map after one more entry was made: the rest in its order, without the oldest if it was full. */
  lemma RememberTidy(requests: seq<Request>, request: Request)
    requires Tidy(requests) && !Known(requests, request.key)
    ensures var kept := Remember(requests, request);
            var shift := if |requests| == REQUEST_LIMIT then 1 else 0;
            && Tidy(kept) && |kept| == |requests| + 1 - shift && kept[|kept| - 1] == request
            && Find(kept, request.key) == |kept| - 1
            && forall i :: 0 <= i < |kept| - 1 ==> kept[i] == requests[i + shift]
  {
    var kept := Remember(requests, request);
    assert forall i :: 0 <= i < |requests| ==> requests[i].key != request.key;
    FindIs(kept, request.key, |kept| - 1);
  }

  lemma FirstIsGone(requests: seq<Request>, kept: seq<Request>, request: Request, key: string)
    requires Tidy(requests) && requests != [] && requests[0].key == key && request.key != key
    requires kept == requests[1..] + [request]
    ensures !Known(kept, key)
  {
    assert forall i :: 0 <= i < |kept| ==> kept[i].key != key;
  }

  /** Where an entry stands after one more was made. */
  lemma RememberFinds(requests: seq<Request>, request: Request, key: string)
    requires Tidy(requests) && !Known(requests, request.key) && Known(requests, key)
    ensures var kept := Remember(requests, request);
            var shift := if |requests| == REQUEST_LIMIT then 1 else 0;
            if Find(requests, key) < shift then !Known(kept, key) else Find(kept, key) == Find(requests, key) - shift
  {
    hide Find, DistinctKeys;
    var kept, i := Remember(requests, request), Find(requests, key);
    RememberTidy(requests, request);
    if |requests| < REQUEST_LIMIT {
      FindIs(kept, key, i);
    } else if i > 0 {
      FindIs(kept, key, i - 1);
    } else {
      FirstIsGone(requests, kept, request, key);
    }
  }

  /** One more entry: the id's own goes exactly if it is the 128th behind it. */
  lemma RememberBehind(requests: seq<Request>, request: Request, key: string, newer: set<string>)
    requires Tidy(requests) && Behind(requests, key, newer) && !Known(requests, request.key)
    ensures |newer + {request.key}| == |newer| + 1
    ensures var kept := Remember(requests, request);
            && (Known(kept, key) <==> |newer + {request.key}| < REQUEST_LIMIT)
            && (Known(kept, key) ==> Behind(kept, key, newer + {request.key}))
  {
    hide Remember, Find, DistinctKeys;
    assert request.key !in newer;
    RememberTidy(requests, request);
    RememberFinds(requests, request, key);
    forall k | k in newer ensures Known(requests, k) { }
    if Known(Remember(requests, request), key) {
      forall k | k in newer
        ensures Find(Remember(requests, request), key) < Find(Remember(requests, request), k) < |requests|
      {
        RememberFinds(requests, request, k);
      }
    }
  }

  lemma EntersTidy(w: World, v: World, input: Input)
    requires Enters(w, v, input) && Tidy(w.chat.requests)
    ensures Tidy(v.chat.requests)
  {
    hide Remember;
    if Makes(w.chat.requests, input) {
      var request: Request :|
        request.key == input.message.task.requestId && v.chat.requests == Remember(w.chat.requests, request);
      RememberTidy(w.chat.requests, request);
    }
  }

  lemma {:induction false} RunTidy(inputs: seq<Input>)
    ensures Tidy(Run(INITIAL, inputs).chat.requests)
    decreases |inputs|
  {
    if inputs != [] {
      var front, last := inputs[..|inputs| - 1], inputs[|inputs| - 1];
      RunTidy(front);
      RunKeeps(INITIAL, front);
      StepEnters(Run(INITIAL, front), last);
      EntersTidy(Run(INITIAL, front), Run(INITIAL, inputs), last);
    }
  }

  /** One step of that, for an id that has its entry. */
  lemma EnteredBehind(w: World, v: World, input: Input, key: string, newer: set<string>)
    requires Enters(w, v, input) && Tidy(w.chat.requests) && Behind(w.chat.requests, key, newer)
    ensures var more := newer + if Makes(w.chat.requests, input) then {input.message.task.requestId} else {};
            && (Known(v.chat.requests, key) <==> v.chat.generation == w.chat.generation && |more| < REQUEST_LIMIT)
            && (Known(v.chat.requests, key) ==> Behind(v.chat.requests, key, more))
  {
    hide Remember;
    if Makes(w.chat.requests, input) {
      var request: Request :|
        request.key == input.message.task.requestId && v.chat.requests == Remember(w.chat.requests, request);
      RememberBehind(w.chat.requests, request, key, newer);
    } else {
      assert newer + {} == newer;
    }
  }

  lemma {:induction false} SurvivorBehind(inputs: seq<Input>, key: string)
    requires Survives(inputs, key)
    ensures var requests := Run(INITIAL, inputs).chat.requests;
            if Known(requests, key) then Behind(requests, key, NewerIds(inputs, key)) else NewerIds(inputs, key) == {}
    ensures Steady(inputs, key) && |NewerIds(inputs, key)| < REQUEST_LIMIT
    decreases |inputs|
  {
    hide Behind, Makes, Enters;
    if inputs != [] {
      var front, last := inputs[..|inputs| - 1], inputs[|inputs| - 1];
      var w := Run(INITIAL, front);
      SurvivorBehind(front, key);
      RunKeeps(INITIAL, front);
      RunTidy(front);
      StepEnters(w, last);
      if Known(w.chat.requests, key) {
        EnteredBehind(w, Run(INITIAL, inputs), last, key, NewerIds(front, key));
      } else {
        NewlyBehind(w, Run(INITIAL, inputs), last, key);
      }
    }
  }

  /** An id that had no entry has none, or the last one. */
  lemma NewlyBehind(w: World, v: World, input: Input, key: string)
    requires Enters(w, v, input) && Tidy(w.chat.requests) && !Known(w.chat.requests, key)
    ensures Known(v.chat.requests, key) ==> Behind(v.chat.requests, key, {})
  {
    hide Remember;
    if Makes(w.chat.requests, input) {
      var request: Request :|
        request.key == input.message.task.requestId && v.chat.requests == Remember(w.chat.requests, request);
      RememberOther(w.chat.requests, request, key);
      RememberTidy(w.chat.requests, request);
    }
  }

  /**
   An id's entry survives a run if and only if fewer than 128 ids get their entries after it, and neither a
   disconnect nor a new session follows it.
   */
  lemma {:induction false} SurvivesExactly(inputs: seq<Input>, key: string)
    ensures Survives(inputs, key) <==> Steady(inputs, key) && |NewerIds(inputs, key)| < REQUEST_LIMIT
    decreases |inputs|
  {
    hide Behind, Makes, Enters;
    if Survives(inputs, key) {
      SurvivorBehind(inputs, key);
    } else if inputs != [] {
      var front, last := inputs[..|inputs| - 1], inputs[|inputs| - 1];
      var w := Run(INITIAL, front);
      SurvivesExactly(front, key);
      SubsetIsSmaller(NewerIds(front, key), NewerIds(inputs, key));
      if Survives(front, key) {
        SurvivorBehind(front, key);
        RunKeeps(INITIAL, front);
        RunTidy(front);
        StepEnters(w, last);
        EnteredBehind(w, Run(INITIAL, inputs), last, key, NewerIds(front, key));
      }
    }
  }

  lemma {:induction false} SubsetIsSmaller(a: set<string>, b: set<string>)
    requires a <= b
    ensures |a| <= |b|
  {
    assert b == a + (b - a);
  }

  lemma {:induction false} RunKeepsBook(inputs: seq<Input>, key: string, instruction: string)
    requires forall i :: 0 <= i < |inputs| ==> Agrees(inputs[i], key, instruction)
    requires Survives(inputs, key)
    ensures Booked(Run(INITIAL, inputs), key, instruction)
    decreases |inputs|
  {
    if inputs != [] {
      var front := inputs[..|inputs| - 1];
      RunKeepsBook(front, key, instruction);
      RunKeeps(INITIAL, front);
      StepKeepsBook(Run(INITIAL, front), inputs[|inputs| - 1], key, instruction);
    }
  }

  /**
   At most once: over every interleaving in which the id's entry survives, all submits with the id
   cause at most one `chat.send`, it carries their instruction, every answer given for the id is the
   same, and a positive one implies that the message was sent.
   */
  lemma {:induction false} HostHandsOffOnce(inputs: seq<Input>, key: string, instruction: string)
    requires forall i :: 0 <= i < |inputs| ==> Agrees(inputs[i], key, instruction)
    requires Survives(inputs, key)
    ensures var log := Run(INITIAL, inputs).log;
            && OneSend(log, key, instruction)
            && (forall i, j :: 0 <= i < |log| && 0 <= j < |log| && ResultOf(log[i], key) && ResultOf(log[j], key)
                  ==> log[i].message.started == log[j].message.started)
            && (forall i :: 0 <= i < |log| && ResultOf(log[i], key) && log[i].message.started == Some(true)
                  ==> HasSend(log, key))
  {
    RunKeepsBook(inputs, key, instruction);
  }

  // ----- The accepted id -----

  ghost predicate SentNow(w: World, key: string) {
    exists i :: 0 <= i < |w.log| && SendOf(w.log[i], key) && w.log[i].gen == w.chat.generation
  }

  /** In this generation the id was sent to the agent and answered with `started: true`. */
  ghost predicate Accepted(w: World, key: string) {
    SentNow(w, key) && Emitted(w.chat.generation, TaskResult(key, Some(true))) in w.log
  }

  /** A submit of the current generation that has sent its message. */
  predicate AwaitsJob(w: World, id: nat) {
    id in w.pending && w.pending[id].SubmitFrame? && w.pending[id].point.AwaitSend?
        && w.pending[id].gen == w.chat.generation
  }

  ghost predicate AcceptedIsReal(w: World) {
    && (w.chat.accepted.Some? ==> Accepted(w, w.chat.accepted.value))
    && (forall id | id in w.pending :: AwaitsJob(w, id) ==> SentNow(w, w.pending[id].task.requestId))
  }

  lemma LogGrows(w: World, v: World, key: string)
    requires w.log <= v.log && v.chat.generation == w.chat.generation
    ensures SentNow(w, key) ==> SentNow(v, key)
    ensures Accepted(w, key) ==> Accepted(v, key)
  {
    if SentNow(w, key) {
      var i :| 0 <= i < |w.log| && SendOf(w.log[i], key) && w.log[i].gen == w.chat.generation;
      assert v.log[i] == w.log[i];
    }
    assert forall e :: e in w.log ==> e in v.log by {
      assert v.log == w.log + v.log[|w.log|..];
    }
  }

  lemma ApartKeepsAccepted(w: World, v: World)
    requires Bounded(w) && AcceptedIsReal(w) && Apart(w, v)
    ensures AcceptedIsReal(v)
  {
    if v.chat.generation == w.chat.generation {
      if w.chat.accepted.Some? { LogGrows(w, v, w.chat.accepted.value); }
      forall id | id in v.pending && AwaitsJob(v, id) ensures SentNow(v, v.pending[id].task.requestId) {
        assert AwaitsJob(w, id) && v.pending[id] == w.pending[id];
        LogGrows(w, v, v.pending[id].task.requestId);
      }
    }
  }

  lemma CallKeepsAccepted(w: World, v: World, id: nat, task: Task)
    requires AcceptedIsReal(w) && id !in w.pending
    requires Waits(w, v, id, task) || Ends(w, v, id, task, false)
            || (Ends(w, v, id, task, true) && SentNow(w, task.requestId))
    ensures AcceptedIsReal(v)
  {
    var key := task.requestId;
    if w.chat.accepted.Some? { LogGrows(w, v, w.chat.accepted.value); }
    LogGrows(w, v, key);
    if v.chat.accepted == Some(key) && Ends(w, v, id, task, true) {
      assert v.log[|v.log| - 2] in v.log;
    }
    forall k | k in v.pending && AwaitsJob(v, k) ensures SentNow(v, v.pending[k].task.requestId) {
      if k == id {
        assert SendOf(v.log[|v.log| - 1], key);
      } else {
        assert AwaitsJob(w, k) && v.pending[k] == w.pending[k];
        LogGrows(w, v, v.pending[k].task.requestId);
      }
    }
  }

  lemma StartedKeepsAccepted(w: World, u: World, v: World, x: World, task: Task, request: Request)
    requires Bounded(w) && AcceptedIsReal(w)
    requires u == w.(nextId := w.nextId + 1) && x == Register(v, request)
    requires Waits(u, v, w.nextId, task) || Ends(u, v, w.nextId, task, false)
    ensures AcceptedIsReal(x)
  {
    LogGrowsAll(w, u);
    assert forall k :: AwaitsJob(u, k) == AwaitsJob(w, k);
    CallKeepsAccepted(u, v, w.nextId, task);
    RegisterKeepsAccepted(v, request);
  }

  lemma FirstSubmitKeepsAccepted(w: World, task: Task)
    requires Bounded(w) && AcceptedIsReal(w)
    ensures AcceptedIsReal(FirstSubmit(w, task))
  {
    hide SubmitOnce;
    var u := w.(nextId := w.nextId + 1);
    SubmitOnceOutcome(u, w.nextId, task);
    StartedKeepsAccepted(w, u, SubmitOnce(u, w.nextId, task), FirstSubmit(w, task), task,
                         Request(task.requestId, task.instruction, w.nextId));
  }

  lemma SubmitKeepsAccepted(w: World, raw: Task)
    requires Inv(w) && AcceptedIsReal(w)
    ensures AcceptedIsReal(SubmitTask(w, raw))
  {
    var task := raw.(instruction := Instruction(raw));
    if WellFormedId(task.requestId) {
      if Known(w.chat.requests, task.requestId) {
        ResubmitKeepsAccepted(w, task);
      } else {
        FirstSubmitKeepsAccepted(w, task);
      }
    }
  }

  lemma RegisterKeepsAccepted(w: World, request: Request)
    requires AcceptedIsReal(w)
    ensures AcceptedIsReal(Register(w, request))
  {
    LogGrowsAll(w, Register(w, request));
    assert forall k :: AwaitsJob(Register(w, request), k) == AwaitsJob(w, k);
  }

  lemma ResubmitKeepsAccepted(w: World, task: Task)
    requires Inv(w) && AcceptedIsReal(w) && Known(w.chat.requests, task.requestId)
    ensures AcceptedIsReal(Resubmit(w, task))
  {
    var v := Resubmit(w, task);
    var previous := Entry(w, task.requestId);
    assert v == Emit(w, TaskResult(task.requestId, Some(false)))
        || v == Suspend(w, WaiterFrame(w.chat.generation, task.requestId, previous.call));
    if w.chat.accepted.Some? { LogGrows(w, v, w.chat.accepted.value); }
    forall k | k in v.pending && AwaitsJob(v, k) ensures SentNow(v, v.pending[k].task.requestId) {
      assert AwaitsJob(w, k) && v.pending[k] == w.pending[k];
      LogGrows(w, v, v.pending[k].task.requestId);
    }
  }

  lemma ResumeKeepsAccepted(w: World, id: nat, reply: Reply)
    requires Inv(w) && AcceptedIsReal(w) && Enabled(w, id)
    ensures AcceptedIsReal(Replied(w.(pending := w.pending - {id}), id, w.pending[id], reply))
  {
    var f := w.pending[id];
    var u := w.(pending := w.pending - {id});
    LogGrowsAll(w, u);
    forall k | k in u.pending && AwaitsJob(u, k) ensures SentNow(u, u.pending[k].task.requestId) {
      assert AwaitsJob(w, k) && u.pending[k] == w.pending[k];
    }
    assert AcceptedIsReal(u);
    RemovalKeeps(w, id);
    if f.WaiterFrame? {
      WaiterKeepsAccepted(u, f.gen, f.key, f.call);
    } else if !f.SubmitFrame? {
      RepliedApart(u, id, f, reply);
      ApartKeepsAccepted(u, Replied(u, id, f, reply));
    } else if f.gen == w.chat.generation {
      if f.point.AwaitSend? { assert AwaitsJob(w, id); }
      SubmitRepliedOutcome(u, id, f.task, f.point, reply);
      CallKeepsAccepted(u, SubmitReplied(u, id, f.gen, f.task, f.point, reply), id, f.task);
    } else {
      LogGrowsAll(u, Settle(u, id, None));
      assert forall k :: AwaitsJob(Settle(u, id, None), k) == AwaitsJob(u, k);
    }
  }

  lemma LogGrowsAll(w: World, v: World)
    requires w.log <= v.log && v.chat.generation == w.chat.generation
    ensures forall key :: SentNow(w, key) ==> SentNow(v, key)
    ensures forall key :: Accepted(w, key) ==> Accepted(v, key)
  {
    forall key ensures (SentNow(w, key) ==> SentNow(v, key)) && (Accepted(w, key) ==> Accepted(v, key)) {
      LogGrows(w, v, key);
    }
  }

  lemma WaiterKeepsAccepted(w: World, gen: nat, key: string, call: nat)
    requires AcceptedIsReal(w) && call in w.settled
    ensures AcceptedIsReal(WaiterReplied(w, gen, key, w.settled[call]))
  {
    var v := WaiterReplied(w, gen, key, w.settled[call]);
    LogGrowsAll(w, v);
    assert forall k :: AwaitsJob(v, k) == AwaitsJob(w, k);
  }

  lemma StepKeepsAccepted(w: World, input: Input)
    requires Inv(w) && AcceptedIsReal(w)
    ensures AcceptedIsReal(Step(w, input))
  {
    match input
    case Deliver(m) =>
      if m.Submit? {
        SubmitKeepsAccepted(w, m.task);
      } else {
        HandleApart(w, m);
        ApartKeepsAccepted(w, Handle(w, m));
      }
    case HostEvent(e) => EventApart(w, e); ApartKeepsAccepted(w, OnEvent(w, e));
    case HostDisconnected(reason) => DisconnectedApart(w, reason); ApartKeepsAccepted(w, Disconnected(w, reason));
    case TimerFires => ApartKeepsAccepted(w, TimerFired(w));
    case Resume(id, reply) => if Enabled(w, id) { ResumeKeepsAccepted(w, id, reply); }
  }

  /**
   In every reachable state the published accepted id names a request that was sent to the agent and
   answered with a started job in the current generation.
   */
  lemma {:induction false} AcceptedIsAlwaysReal(inputs: seq<Input>)
    ensures var w := Run(INITIAL, inputs); w.chat.accepted.Some? ==> Accepted(w, w.chat.accepted.value)
    ensures AcceptedIsReal(Run(INITIAL, inputs))
    decreases |inputs|
  {
    if inputs != [] {
      var front := inputs[..|inputs| - 1];
      AcceptedIsAlwaysReal(front);
      RunKeeps(INITIAL, front);
      StepKeepsAccepted(Run(INITIAL, front), inputs[|inputs| - 1]);
    }
  }
}
