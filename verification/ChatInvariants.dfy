/** What every interleaving keeps: the inductive invariants of the chat host and the theorems they give. */
module ChatInvariants {
  import opened Wrappers
  import opened ChatSpec

  // ----- Vocabulary -----

  predicate Working(f: Frame) {
    f.SubmitFrame? || f.NewSessionFrame?
  }

  predicate NeedsConnection(f: Frame) {
    Working(f) || f.PollFrame? || f.ApproveFrame? || f.CancelFrame? || f.ModeFrame?
  }

  /** Some outstanding call of the current generation is a running submit or a session change. */
  ghost predicate HasWorker(w: World) {
    exists id :: id in w.pending && Working(w.pending[id]) && w.pending[id].gen == w.chat.generation
  }

  ghost predicate HasPoll(w: World) {
    exists id :: id in w.pending && w.pending[id].PollFrame? && w.pending[id].gen == w.chat.generation
  }

  predicate Armed(c: Chat) {
    c.jobId.Some? && c.timer == Some(c.generation)
  }

  // ----- The invariant -----

  /** Ids are fresh, and nothing was captured from a later generation. */
  ghost predicate Bounded(w: World) {
    && (forall id :: id in w.pending ==> id < w.nextId && id !in w.settled && w.pending[id].gen <= w.chat.generation)
    && (forall id :: id in w.settled ==> id < w.nextId)
    && (w.chat.timer.Some? ==> w.chat.timer.value <= w.chat.generation)
  }

  /** Something will move a busy chat on. */
  ghost predicate Driven(w: World) {
    w.chat.busy ==> HasWorker(w) || (w.chat.jobId.Some? && (HasPoll(w) || Armed(w.chat)))
  }

  /** A chat without a connection has nothing running. */
  predicate Idle(c: Chat) {
    !c.connected ==> c.sessionId.None? && c.jobId.None? && !c.busy
  }

  /** Calls of the current generation agree with the connection flags, and only one of them is a connect. */
  ghost predicate Owned(w: World) {
    && (forall id :: id in w.pending && w.pending[id].gen == w.chat.generation ==>
          && (NeedsConnection(w.pending[id]) ==> w.chat.connected)
          && (w.pending[id].ConnectFrame? ==> w.chat.connecting && !w.chat.connected))
    && (forall a, b | a in w.pending && b in w.pending ::
          w.pending[a] == w.pending[b] == ConnectFrame(w.chat.generation) ==> a == b)
  }

  /** The invariant without its progress part: what survives removing any outstanding call. */
  ghost predicate Loose(w: World) {
    Bounded(w) && Idle(w.chat) && Owned(w)
  }

  ghost predicate Inv(w: World) {
    Loose(w) && Driven(w)
  }

  // ----- How a step may change the set of outstanding calls -----

  /** At most one new call was suspended, under the next free id. */
  ghost predicate Grew(w: World, v: World) {
    && w.chat.generation <= v.chat.generation && w.nextId <= v.nextId
    && (v.pending == w.pending || (w.nextId in v.pending && v.pending == w.pending[w.nextId := v.pending[w.nextId]]))
  }

  /** The call either ended or suspended again under its own id and generation. */
  ghost predicate Resumed(w: World, v: World, id: nat, gen: nat) {
    && v.chat.generation == w.chat.generation && v.nextId == w.nextId
    && (v.pending == w.pending
        || (gen == w.chat.generation && id in v.pending && v.pending[id].gen == gen
            && v.pending == w.pending[id := v.pending[id]]))
  }

  // ----- Steps that touch no control field -----

  /** Equal in everything the invariant reads. */
  ghost predicate SameControl(w: World, v: World) {
    && w.pending == v.pending && w.nextId == v.nextId && w.settled == v.settled
    && w.chat.connected == v.chat.connected && w.chat.connecting == v.chat.connecting
    && w.chat.busy == v.chat.busy && w.chat.generation == v.chat.generation
    && w.chat.sessionId == v.chat.sessionId && w.chat.jobId == v.chat.jobId && w.chat.timer == v.chat.timer
  }

  lemma QuietKeeps(w: World, v: World)
    requires SameControl(w, v)
    ensures Loose(w) ==> Loose(v)
    ensures Driven(w) ==> Driven(v)
    ensures Grew(w, v)
  {
  }

  lemma SuspendKeeps(w: World, f: Frame)
    requires Loose(w)
    requires f.gen <= w.chat.generation
    requires f.gen == w.chat.generation ==> (NeedsConnection(f) ==> w.chat.connected) && !f.ConnectFrame?
    ensures Loose(Suspend(w, f)) && Grew(w, Suspend(w, f))
    ensures Driven(w) ==> Driven(Suspend(w, f))
    ensures f.gen == w.chat.generation && Working(f) ==> HasWorker(Suspend(w, f))
    ensures f.gen == w.chat.generation && f.PollFrame? ==> HasPoll(Suspend(w, f))
  {
    var v := Suspend(w, f);
    assert v.pending[w.nextId] == f;
    assert forall id :: id in w.pending ==> v.pending[id] == w.pending[id];
  }

  lemma RemovalKeeps(w: World, id: nat)
    requires Inv(w) && id in w.pending
    ensures Loose(w.(pending := w.pending - {id}))
    ensures !((Working(w.pending[id]) || w.pending[id].PollFrame?) && w.pending[id].gen == w.chat.generation)
            ==> Driven(w.(pending := w.pending - {id}))
  {
    var v := w.(pending := w.pending - {id});
    assert forall k :: k in v.pending ==> k in w.pending && v.pending[k] == w.pending[k];
    assert forall k :: k in w.pending && k != id ==> k in v.pending;
  }

  /** A state that is not busy and agrees with its connection flag needs nothing to drive it. */
  lemma NewGeneration(w: World, v: World)
    requires Bounded(w) && v.pending == w.pending && v.nextId == w.nextId && v.settled == w.settled
    requires v.chat.generation == w.chat.generation + 1
    requires v.chat.timer.Some? ==> v.chat.timer == w.chat.timer
    requires !v.chat.busy && v.chat.sessionId.None? && v.chat.jobId.None?
    ensures Inv(v)
  {
  }

  lemma DisconnectedKeeps(w: World, reason: string)
    requires Bounded(w)
    ensures Inv(Disconnected(w, reason)) && Grew(w, Disconnected(w, reason))
  {
    NewGeneration(w, Disconnected(w, reason));
  }

  lemma SessionClearedKeeps(w: World)
    requires Bounded(w)
    ensures Inv(SessionCleared(w)) && Grew(w, SessionCleared(w))
  {
    NewGeneration(w, SessionCleared(w));
  }

  lemma ConnectKeeps(w: World)
    requires Inv(w)
    ensures Inv(Connect(w)) && Grew(w, Connect(w))
  {
    var v := Connect(w);
    assert forall id :: id in w.pending ==> v.pending[id] == w.pending[id];
  }

  lemma SubmitWaitsKeeps(w: World, id: nat, task: Task, point: SubmitPoint)
    requires Loose(w) && w.chat.connected && id !in w.pending && id !in w.settled && id < w.nextId
    ensures Inv(SubmitWaits(w, id, task, point)) && Resumed(w, SubmitWaits(w, id, task, point), id, w.chat.generation)
  {
    var v := SubmitWaits(w, id, task, point);
    assert v.pending[id].SubmitFrame?;
    assert forall k :: k in w.pending ==> v.pending[k] == w.pending[k];
  }

  lemma SettleKeeps(w: World, v: World, id: nat, result: Option<bool>)
    requires Loose(w) && id !in w.pending && id < w.nextId
    requires SameControl(w.(settled := w.settled[id := result]), v)
    ensures Loose(v) && (Driven(w) ==> Driven(v))
  {
  }

  lemma SendChatKeeps(w: World, id: nat, task: Task)
    requires Loose(w) && w.chat.connected && id !in w.pending && id !in w.settled && id < w.nextId
    ensures Inv(SendChat(w, id, task)) && Resumed(w, SendChat(w, id, task), id, w.chat.generation)
  {
    var v := w.(chat := Add(w.chat, UserTurn, task.instruction));
    QuietKeeps(w, v);
    var u := Call(v, ChatSend(v.chat.sessionId, task.instruction, task.requestId));
    QuietKeeps(v, u);
    SubmitWaitsKeeps(u, id, task, AwaitSend(v.chat.counter));
  }

  lemma SubmitFailedKeeps(w: World, id: nat, key: string, started: bool, userItem: Option<nat>, message: string)
    requires Loose(w) && id !in w.pending && id < w.nextId
    requires started || Driven(w)
    ensures Inv(SubmitFailed(w, id, key, started, userItem, message))
            && Resumed(w, SubmitFailed(w, id, key, started, userItem, message), id, w.chat.generation)
  {
    var v := if started then w.(chat := w.chat.(busy := false)) else w;
    assert Loose(v) && Driven(v);
    SettleKeeps(v, SubmitFailed(w, id, key, started, userItem, message), id, Some(false));
  }

  lemma SubmitOnceKeeps(w: World, id: nat, task: Task)
    requires Inv(w) && id !in w.pending && id !in w.settled && id < w.nextId
    ensures Inv(SubmitOnce(w, id, task)) && Resumed(w, SubmitOnce(w, id, task), id, w.chat.generation)
  {
    var c := w.chat;
    if Refusal(c, task).Some? {
      SubmitFailedKeeps(w, id, task.requestId, false, None, Refusal(c, task).value);
    } else {
      var v := Publish(w.(chat := c.(busy := true, status := "starting")));
      assert Loose(v);
      if c.sessionId.None? {
        QuietKeeps(v, Call(v, SessionCreate(task.mode)));
        SubmitWaitsKeeps(Call(v, SessionCreate(task.mode)), id, task, AwaitCreate);
      } else if task.mode == c.mode {
        SendChatKeeps(v, id, task);
      } else if "session.setMode" !in c.methods {
        SubmitFailedKeeps(v, id, task.requestId, true, None, "Update the CLI to change permissions.");
      } else {
        QuietKeeps(v, Call(v, SetMode(c.sessionId, task.mode)));
        SubmitWaitsKeeps(Call(v, SetMode(c.sessionId, task.mode)), id, task, AwaitMode);
      }
    }
  }

  lemma RegisterKeeps(w: World, request: Request)
    requires Inv(w)
    ensures Inv(Register(w, request)) && SameControl(w, Register(w, request))
  {
    QuietKeeps(w, Register(w, request));
  }

  lemma ResubmitKeeps(w: World, task: Task)
    requires Inv(w) && Known(w.chat.requests, task.requestId)
    ensures Inv(Resubmit(w, task)) && Grew(w, Resubmit(w, task))
  {
    var previous := w.chat.requests[Find(w.chat.requests, task.requestId)];
    QuietKeeps(w, Emit(w, TaskResult(task.requestId, Some(false))));
    SuspendKeeps(w, WaiterFrame(w.chat.generation, task.requestId, previous.call));
  }

  lemma StartedKeeps(w: World, v: World, x: World, request: Request)
    requires Inv(v) && x == Register(v, request)
    requires Resumed(w.(nextId := w.nextId + 1), v, w.nextId, w.chat.generation)
    ensures Inv(x) && Grew(w, x)
  {
    RegisterKeeps(v, request);
  }

  lemma FirstSubmitKeeps(w: World, task: Task)
    requires Inv(w)
    ensures Inv(FirstSubmit(w, task)) && Grew(w, FirstSubmit(w, task))
  {
    hide SubmitOnce;
    var v := w.(nextId := w.nextId + 1);
    assert Loose(v) && Driven(v);
    SubmitOnceKeeps(v, w.nextId, task);
    StartedKeeps(w, SubmitOnce(v, w.nextId, task), FirstSubmit(w, task),
                 Request(task.requestId, task.instruction, w.nextId));
  }

  lemma SubmitTaskKeeps(w: World, raw: Task)
    requires Inv(w)
    ensures Inv(SubmitTask(w, raw)) && Grew(w, SubmitTask(w, raw))
  {
    var task := raw.(instruction := Instruction(raw));
    if WellFormedId(task.requestId) {
      if Known(w.chat.requests, task.requestId) {
        ResubmitKeeps(w, task);
      } else {
        FirstSubmitKeeps(w, task);
      }
    }
  }

  lemma SubmitAcceptedKeeps(w: World, id: nat, key: string, b: Body)
    requires Loose(w) && w.chat.connected && id !in w.pending && id < w.nextId
    ensures Inv(SubmitAccepted(w, id, key, b)) && Resumed(w, SubmitAccepted(w, id, key, b), id, w.chat.generation)
  {
    var c := w.chat.(jobId := Some(b.jobId), accepted := Some(key), status := Or(b.status, "running"));
    var v := w.(chat := if Terminal(c.status) then Finish(c, c.status) else SchedulePoll(c));
    assert Loose(v) && Driven(v);
    SettleKeeps(v, SubmitAccepted(w, id, key, b), id, Some(true));
  }

  lemma SessionCreatedKeeps(w: World, id: nat, task: Task, b: Body)
    requires Loose(w) && w.chat.connected && id !in w.pending && id !in w.settled && id < w.nextId
    ensures var v := SessionCreated(w, id, task, b); Inv(v) && Resumed(w, v, id, w.chat.generation)
  {
    if b.sessionId == "" {
      SubmitFailedKeeps(w, id, task.requestId, true, None, "The agent did not create a conversation.");
    } else {
      var v := w.(chat := w.chat.(sessionId := Some(b.sessionId), mode := Or(b.mode, task.mode), sequence := 0));
      assert Loose(v);
      if "session.modelInfo" in v.chat.methods {
        QuietKeeps(v, Call(v, ModelInfo(v.chat.sessionId)));
        SubmitWaitsKeeps(Call(v, ModelInfo(v.chat.sessionId)), id, task, AwaitModel);
      } else {
        SendChatKeeps(v, id, task);
      }
    }
  }

  lemma ModeChangedKeeps(w: World, id: nat, task: Task, b: Body)
    requires Loose(w) && w.chat.connected && id !in w.pending && id !in w.settled && id < w.nextId
    ensures var v := ModeChanged(w, id, task, b); Inv(v) && Resumed(w, v, id, w.chat.generation)
  {
    var v := w.(chat := w.chat.(mode := Or(b.mode, w.chat.mode)));
    QuietKeeps(w, v);
    if v.chat.mode != task.mode {
      SubmitFailedKeeps(v, id, task.requestId, true, None, "The agent did not accept the selected permissions.");
    } else {
      SendChatKeeps(v, id, task);
    }
  }

  lemma SubmitRepliedKeeps(w: World, id: nat, gen: nat, task: Task, point: SubmitPoint, reply: Reply)
    requires Loose(w) && id !in w.pending && id !in w.settled && id < w.nextId
    requires if gen == w.chat.generation then w.chat.connected else Driven(w)
    ensures var v := SubmitReplied(w, id, gen, task, point, reply); Inv(v) && Resumed(w, v, id, gen)
  {
    if gen != w.chat.generation {
      SettleKeeps(w, Settle(w, id, None), id, None);
      return;
    }
    if reply.Rejected? {
      SubmitFailedKeeps(w, id, task.requestId, true, if point.AwaitSend? then Some(point.userItem) else None,
                        reply.message);
      return;
    }
    var b := reply.body;
    match point
    case AwaitCreate => SessionCreatedKeeps(w, id, task, b);
    case AwaitModel =>
      var v := w.(chat := w.chat.(model := Or(b.model, Or(b.modelName, w.chat.model))));
      QuietKeeps(w, v);
      SendChatKeeps(v, id, task);
    case AwaitMode => ModeChangedKeeps(w, id, task, b);
    case AwaitSend(item) =>
      if b.jobId == "" {
        SubmitFailedKeeps(w, id, task.requestId, true, Some(item), "The agent did not start a task.");
      } else {
        SubmitAcceptedKeeps(w, id, task.requestId, b);
      }
  }

  lemma ConnectRepliedKeeps(w: World, gen: nat, reply: Reply)
    requires Inv(w)
    requires gen == w.chat.generation ==>
               !w.chat.connected && forall id :: id in w.pending ==> w.pending[id] != ConnectFrame(gen)
    ensures Inv(ConnectReplied(w, gen, reply)) && Grew(w, ConnectReplied(w, gen, reply))
  {
  }

  lemma PollRepliedKeeps(w: World, gen: nat, reply: Reply)
    requires Loose(w)
    requires gen == w.chat.generation ==> w.chat.connected
    requires gen == w.chat.generation && w.chat.busy ==> w.chat.jobId.Some? || HasWorker(w)
    requires gen != w.chat.generation ==> Driven(w)
    ensures Inv(PollReplied(w, gen, reply)) && Grew(w, PollReplied(w, gen, reply))
  {
    if gen == w.chat.generation && reply.Rejected? {
      DisconnectedKeeps(w, Or(reply.message, "The local agent stopped responding."));
    }
  }

  /** Going idle keeps the invariant: nothing has to drive a chat that is not busy. */
  lemma IdleKeeps(w: World, v: World)
    requires Loose(w) && v.pending == w.pending && v.nextId == w.nextId && v.settled == w.settled
    requires v.chat.generation == w.chat.generation && v.chat.connected == w.chat.connected
    requires v.chat.connecting == w.chat.connecting && v.chat.timer.None?
    requires !v.chat.busy && v.chat.jobId.None? && (v.chat.sessionId.Some? ==> v.chat.sessionId == w.chat.sessionId)
    ensures Inv(v)
  {
  }

  lemma CancelRepliedKeeps(w: World, gen: nat, reply: Reply)
    requires Inv(w) && gen <= w.chat.generation
    ensures Inv(CancelReplied(w, gen, reply)) && Grew(w, CancelReplied(w, gen, reply))
  {
    if reply.Rejected? {
      SuspendKeeps(w, CatchFrame(gen, reply.message));
    } else if gen == w.chat.generation {
      var status := Or(reply.body.status, "cancellation_requested");
      if status == "closed" || Terminal(status) {
        IdleKeeps(w, CancelReplied(w, gen, reply));
      } else {
        QuietKeeps(w, CancelReplied(w, gen, reply));
      }
    }
  }

  lemma NewSessionRepliedKeeps(w: World, gen: nat, reply: Reply)
    requires Loose(w) && gen <= w.chat.generation
    requires gen != w.chat.generation ==> Driven(w)
    ensures Inv(NewSessionReplied(w, gen, reply)) && Grew(w, NewSessionReplied(w, gen, reply))
  {
    if reply.Rejected? {
      var v := if gen == w.chat.generation then w.(chat := w.chat.(busy := false)) else w;
      assert Loose(v) && Driven(v);
      SuspendKeeps(v, CatchFrame(gen, reply.message));
    } else if gen == w.chat.generation {
      SessionClearedKeeps(w);
    }
  }

  // ----- Every step, every run -----

  lemma CancelKeeps(w: World)
    requires Inv(w)
    ensures Inv(Cancel(w)) && Grew(w, Cancel(w))
  {
    var c := w.chat;
    if c.busy {
      QuietKeeps(w, Call(w, SessionCancel(c.sessionId)));
      SuspendKeeps(Call(w, SessionCancel(c.sessionId)), CancelFrame(c.generation));
    }
  }

  lemma ApproveKeeps(w: World, approvalId: Option<string>, decision: Option<Decision>)
    requires Inv(w)
    ensures Inv(ApproveItem(w, approvalId, decision)) && Grew(w, ApproveItem(w, approvalId, decision))
  {
    var c := w.chat;
    var i := FindPending(c.items, approvalId);
    if i < |c.items| && c.busy && decision.Some? {
      var d := decision.value;
      var v := Call(w, ApprovalRespond(c.sessionId, approvalId, d != Deny, d == AllowForSession));
      QuietKeeps(w, v);
      SuspendKeeps(v, ApproveFrame(c.generation, c.items[i].id, decision.value));
    }
  }

  lemma ChangeModeKeeps(w: World, mode: string)
    requires Inv(w)
    ensures Inv(ChangeMode(w, mode)) && Grew(w, ChangeMode(w, mode))
  {
    var c := w.chat;
    if c.sessionId.Some? && "session.setMode" in c.methods {
      QuietKeeps(w, Call(w, SetMode(c.sessionId, mode)));
      SuspendKeeps(Call(w, SetMode(c.sessionId, mode)), ModeFrame(c.generation));
    } else {
      QuietKeeps(w, ChangeMode(w, mode));
    }
  }

  lemma NewSessionKeeps(w: World)
    requires Inv(w)
    ensures Inv(NewSession(w)) && Grew(w, NewSession(w))
  {
    var c := w.chat;
    if c.busy {
      SuspendKeeps(w, CatchFrame(c.generation, "Stop the current task before starting a new one."));
    } else {
      var v := Publish(w.(chat := c.(busy := true)));
      if c.sessionId.None? {
        SessionClearedKeeps(v);
      } else {
        assert Loose(v);
        QuietKeeps(v, Call(v, SessionCancel(c.sessionId)));
        SuspendKeeps(Call(v, SessionCancel(c.sessionId)), NewSessionFrame(c.generation));
      }
    }
  }

  lemma HandleKeeps(w: World, m: Message)
    requires Inv(w)
    ensures Inv(Handle(w, m)) && Grew(w, Handle(w, m))
  {
    hide SubmitTask, Cancel, ApproveItem, ChangeMode, NewSession, Connect;
    var c := w.chat;
    match m
    case Malformed =>
    case Ready => QuietKeeps(w, Publish(w));
    case Submit(task) => SubmitTaskKeeps(w, task);
    case CancelTask => CancelKeeps(w);
    case Approve(approvalId, decision) => ApproveKeeps(w, approvalId, decision);
    case SetModeTo(mode) => ChangeModeKeeps(w, mode);
    case NewTask => NewSessionKeeps(w);
    case Reconnect => ConnectKeeps(w);
    case LocateCli =>
      QuietKeeps(w, Call(w, NativeAction));
      SuspendKeeps(Call(w, NativeAction), ConfigureFrame(c.generation));
    case Native =>
      QuietKeeps(w, Call(w, NativeAction));
      SuspendKeeps(Call(w, NativeAction), NativeFrame(c.generation));
    case Unsupported => QuietKeeps(w, Handle(w, m));
  }

  lemma ApproveRepliedKeeps(w: World, gen: nat, item: nat, decision: Decision, reply: Reply)
    requires Inv(w) && gen <= w.chat.generation
    ensures var v := ApproveReplied(w, gen, item, decision, reply); Inv(v) && Grew(w, v)
  {
    if reply.Rejected? {
      SuspendKeeps(w, CatchFrame(gen, reply.message));
    } else {
      QuietKeeps(w, ApproveReplied(w, gen, item, decision, reply));
    }
  }

  lemma CaughtKeeps(w: World, gen: nat, message: string)
    requires Inv(w)
    ensures Inv(Caught(w, gen, message)) && Grew(w, Caught(w, gen, message))
  {
    QuietKeeps(w, Caught(w, gen, message));
  }

  lemma ConfigureRepliedKeeps(w: World, gen: nat, reply: Reply)
    requires Inv(w)
    ensures var v := Replied(w, 0, ConfigureFrame(gen), reply); Inv(v) && Grew(w, v)
  {
    if reply.Rejected? {
      CaughtKeeps(w, gen, reply.message);
    } else if reply.body.confirmed {
      DisconnectedKeeps(w, "");
      ConnectKeeps(Disconnected(w, ""));
    }
  }

  /** The calls whose reply can only add a note or change the mode. */
  lemma NoteKeeps(w: World, frame: Frame, reply: Reply)
    requires Inv(w)
    requires frame.ModeFrame? || frame.NativeFrame? || frame.CatchFrame?
    ensures var v := Replied(w, 0, frame, reply); Inv(v) && Grew(w, v)
  {
    if frame.CatchFrame? {
      CaughtKeeps(w, frame.gen, frame.error);
    } else if reply.Rejected? {
      CaughtKeeps(w, frame.gen, reply.message);
    } else if frame.ModeFrame? {
      QuietKeeps(w, Replied(w, 0, frame, reply));
    }
  }

  lemma RepliedKeeps(w: World, id: nat, reply: Reply)
    requires Inv(w) && Enabled(w, id)
    ensures var v := w.(pending := w.pending - {id});
            var u := Replied(v, id, w.pending[id], reply);
            Inv(u) && (Grew(v, u) || Resumed(v, u, id, w.pending[id].gen))
  {
    var frame := w.pending[id];
    var v := w.(pending := w.pending - {id});
    RemovalKeeps(w, id);
    match frame
    case ConnectFrame(gen) => ConnectRepliedKeeps(v, gen, reply);
    case SubmitFrame(gen, task, point) => SubmitRepliedKeeps(v, id, gen, task, point, reply);
    case WaiterFrame(gen, key, call) => QuietKeeps(v, WaiterReplied(v, gen, key, v.settled[call]));
    case PollFrame(gen, _) =>
      assert HasWorker(w) ==> HasWorker(v) by {
        assert forall k :: k in w.pending && k != id ==> k in v.pending && v.pending[k] == w.pending[k];
      }
      PollRepliedKeeps(v, gen, reply);
    case ApproveFrame(gen, item, decision) => ApproveRepliedKeeps(v, gen, item, decision, reply);
    case CancelFrame(gen) => CancelRepliedKeeps(v, gen, reply);
    case NewSessionFrame(gen) => NewSessionRepliedKeeps(v, gen, reply);
    case ConfigureFrame(gen) => ConfigureRepliedKeeps(v, gen, reply);
    case _ => NoteKeeps(v, frame, reply);
  }

  lemma TimerFiredKeeps(w: World)
    requires Inv(w)
    ensures Inv(TimerFired(w)) && Grew(w, TimerFired(w))
  {
    var c := w.chat;
    if c.timer.Some? {
      var v := w.(chat := c.(timer := None));
      assert Loose(v);
      if Armed(c) && c.busy {
        QuietKeeps(v, Call(v, JobStatus(c.jobId.value)));
        SuspendKeeps(Call(v, JobStatus(c.jobId.value)), PollFrame(c.generation, c.jobId.value));
      }
    }
  }

  /** Agent events change the transcript and the sequence number, never who is running. */
  lemma EventChangesItems(c: Chat, e: Event)
    ensures ApplyEvent(c, e) == c.(items := ApplyEvent(c, e).items, counter := ApplyEvent(c, e).counter)
  {
    match e.kind
    case MessageDelta =>
    case MessageEnd =>
    case Prompt =>
    case ErrorRaised =>
    case ToolStarted =>
    case OtherEvent =>
  }

  lemma EventKeeps(w: World, e: Event)
    requires Inv(w)
    ensures Inv(OnEvent(w, e)) && Grew(w, OnEvent(w, e))
  {
    if Relevant(w.chat, e) && Newer(w.chat.sequence, e) {
      EventChangesItems(w.chat.(sequence := e.sequence.value), e);
    }
    QuietKeeps(w, OnEvent(w, e));
  }

  lemma StepKeeps(w: World, input: Input)
    requires Inv(w)
    ensures Inv(Step(w, input))
  {
    match input
    case Deliver(m) => HandleKeeps(w, m);
    case Resume(id, reply) => if Enabled(w, id) { RepliedKeeps(w, id, reply); }
    case HostEvent(e) => EventKeeps(w, e);
    case HostDisconnected(reason) => DisconnectedKeeps(w, reason);
    case TimerFires => TimerFiredKeeps(w);
  }

  lemma {:induction false} RunKeeps(w: World, inputs: seq<Input>)
    requires Inv(w)
    ensures Inv(Run(w, inputs))
    decreases |inputs|
  {
    if inputs != [] {
      RunKeeps(w, inputs[..|inputs| - 1]);
      StepKeeps(Run(w, inputs[..|inputs| - 1]), inputs[|inputs| - 1]);
    }
  }

  /**
   No stuck busy: after any interleaving of messages, replies, events and timer fires, a busy chat has
   a running submit, session change or poll of its own generation outstanding, or an armed poll timer
   for a known job.
   */
  lemma {:induction false} NoStuckBusy(inputs: seq<Input>)
    ensures var w := Run(INITIAL, inputs);
            w.chat.busy ==> HasWorker(w) || HasPoll(w) || Armed(w.chat)
  {
    RunKeeps(INITIAL, inputs);
  }

  /**
   Disconnected means idle, and connecting is exclusive: without a connection there is no session, no
   job and no work, and at most one connect of the current generation is outstanding.
   */
  lemma {:induction false} DisconnectedIsIdle(inputs: seq<Input>)
    ensures var w := Run(INITIAL, inputs);
            && (!w.chat.connected ==> w.chat.sessionId.None? && w.chat.jobId.None? && !w.chat.busy)
            && (forall a, b | a in w.pending && b in w.pending ::
                  w.pending[a] == w.pending[b] == ConnectFrame(w.chat.generation) ==> a == b)
            && (forall id | id in w.pending ::
                  w.pending[id] == ConnectFrame(w.chat.generation) ==> w.chat.connecting && !w.chat.connected)
  {
    RunKeeps(INITIAL, inputs);
  }

  // ----- Generations -----

  /** What one step may do to the generation and to the calls that stay suspended. */
  ghost predicate Advances(w: World, v: World) {
    && w.chat.generation <= v.chat.generation && w.nextId <= v.nextId
    && (forall id :: id in v.pending && id < w.nextId ==> id in w.pending)
    && (forall id :: id in w.pending && id in v.pending ==> v.pending[id].gen == w.pending[id].gen)
    && (forall id :: id in w.pending && id in v.pending && w.pending[id].gen != w.chat.generation
          ==> v.pending[id] == w.pending[id])
  }

  lemma GrewAdvances(w: World, v: World)
    requires Bounded(w) && Grew(w, v)
    ensures Advances(w, v)
  {
  }

  lemma StepAdvances(w: World, input: Input)
    requires Inv(w)
    ensures Advances(w, Step(w, input))
  {
    var u := Step(w, input);
    match input
    case Deliver(m) => HandleKeeps(w, m); GrewAdvances(w, u);
    case Resume(id, reply) =>
      if Enabled(w, id) {
        var v := w.(pending := w.pending - {id});
        RepliedKeeps(w, id, reply);
        if Grew(v, u) { GrewAdvances(v, u); }
      }
    case HostEvent(e) => EventKeeps(w, e); GrewAdvances(w, u);
    case HostDisconnected(reason) => DisconnectedKeeps(w, reason); GrewAdvances(w, u);
    case TimerFires => TimerFiredKeeps(w); GrewAdvances(w, u);
  }

  /**
   Generation isolation over whole runs. The generation never decreases; an async call keeps the
   generation it captured; and once that generation has passed, the call stays exactly as it is
   until it resumes.
   */
  lemma {:induction false} GenerationsAdvance(w: World, inputs: seq<Input>)
    requires Inv(w)
    ensures Advances(w, Run(w, inputs))
    decreases |inputs|
  {
    if inputs != [] {
      var before := Run(w, inputs[..|inputs| - 1]);
      GenerationsAdvance(w, inputs[..|inputs| - 1]);
      RunKeeps(w, inputs[..|inputs| - 1]);
      StepAdvances(before, inputs[|inputs| - 1]);
    }
  }

  /** A confirmed native "choose CLI" dialog: the one reply that acts whatever generation it captured. */
  predicate ConfirmedConfigure(f: Frame, reply: Reply) {
    f.ConfigureFrame? && reply.Resolved? && reply.body.confirmed
  }

  /**
   A call whose generation has passed is silent: resuming it changes no field of the chat and sends
   nothing, with the confirmed native dialog as the exact exception.
   */
  lemma StaleIsSilent(w: World, id: nat, reply: Reply)
    requires Enabled(w, id) && w.pending[id].gen != w.chat.generation
    ensures var v := Step(w, Resume(id, reply));
            v.chat == w.chat && v.log == w.log <==> !ConfirmedConfigure(w.pending[id], reply)
  {
    if ConfirmedConfigure(w.pending[id], reply) {
      assert Step(w, Resume(id, reply)).chat.generation == w.chat.generation + 1;
    }
  }

  // ----- After dispose -----

  ghost predicate AllStale(w: World) {
    w.chat.timer.None? && forall id :: id in w.pending ==> w.pending[id].gen != w.chat.generation
  }

  /**
   `dispose()` makes every outstanding call stale and disarms the timer. So a call that resumes after it is
   silent if and only if it is no confirmed native dialog: that one still disconnects and reconnects.
   */
  lemma {:induction false} DisposeMakesStale(inputs: seq<Input>, id: nat, reply: Reply)
    ensures var w := Disposed(Run(INITIAL, inputs));
            && AllStale(w) && Step(w, TimerFires) == w
            && (Enabled(w, id) ==> var v := Step(w, Resume(id, reply));
                                   v.chat == w.chat && v.log == w.log <==> !ConfirmedConfigure(w.pending[id], reply))
  {
    hide Replied;
    RunKeeps(INITIAL, inputs);
    var w := Disposed(Run(INITIAL, inputs));
    if Enabled(w, id) { StaleIsSilent(w, id, reply); }
  }

  /** A reply that is no confirmed dialog, or the timer. */
  ghost predicate Mute(w: World, input: Input) {
    match input
    case Resume(id, reply) => Enabled(w, id) ==> !ConfirmedConfigure(w.pending[id], reply)
    case TimerFires => true
    case _ => false
  }

  ghost predicate AllMute(w: World, inputs: seq<Input>)
    decreases |inputs|
  {
    inputs == [] ||
    var front := inputs[..|inputs| - 1];
    AllMute(w, front) && Mute(Run(w, front), inputs[|inputs| - 1])
  }

  lemma MuteStep(w: World, input: Input)
    requires AllStale(w) && Mute(w, input)
    ensures var v := Step(w, input); AllStale(v) && v.chat == w.chat && v.log == w.log
  {
    if input.Resume? && Enabled(w, input.id) { StaleIsSilent(w, input.id, input.reply); }
  }

  /**
   However many of the outstanding calls resume after `dispose()`, without a confirmed dialog nothing
   changes or is sent.
   */
  lemma {:induction false} DisposedStaysSilent(w: World, inputs: seq<Input>)
    requires AllStale(w) && AllMute(w, inputs)
    ensures var v := Run(w, inputs); AllStale(v) && v.chat == w.chat && v.log == w.log
    decreases |inputs|
  {
    if inputs != [] {
      DisposedStaysSilent(w, inputs[..|inputs| - 1]);
      MuteStep(Run(w, inputs[..|inputs| - 1]), inputs[|inputs| - 1]);
    }
  }
}
