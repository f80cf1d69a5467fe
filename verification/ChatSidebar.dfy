/**
 What the sidebar is shown. It redraws itself from the last state that was published, so every change has to
 be published sooner or later: in every reachable state the last one shows the chat as it is, unless a submit
 or the report of an error is still under way.
 */
module ChatSidebar {
  import opened Wrappers
  import opened ChatSpec
  import opened ChatInvariants
  import opened HostHandOff
  import opened ChatExact

  /** The last state that was published. */
  function LastView(log: seq<Effect>): Option<View>
    decreases |log|
  {
    if log == [] then None
    else
      var last := log[|log| - 1];
      if last.Emitted? && last.message.StateChanged? then Some(last.message.view) else LastView(log[..|log| - 1])
  }

  /** The view shows the chat. */
  predicate Pictures(v: View, c: Chat) {
    && (v.ready <==> c.connected && !c.connecting) && (v.progress <==> c.connecting) && (v.running <==> c.busy)
    && v.detail == c.error && v.mode == c.mode && v.model == c.model && v.sessionId == c.sessionId
    && v.status == c.status && v.items == c.items && v.accepted == c.accepted
  }

  /** A submit or the report of an error of the current generation, which will publish when it is done. */
  ghost predicate UnderWay(w: World) {
    exists id :: id in w.pending && w.pending[id].gen == w.chat.generation
                 && (w.pending[id].SubmitFrame? || w.pending[id].CatchFrame?)
  }

  ghost predicate Fresh(w: World) {
    LastView(w.log) == Some(ViewOf(w.chat))
  }

  /** Nothing that can be seen has changed, nothing was published, and no call is gone. */
  ghost predicate Still(w: World, v: World) {
    && LastView(v.log) == LastView(w.log) && ViewOf(v.chat) == ViewOf(w.chat)
    && v.chat.generation == w.chat.generation
    && forall id :: id in w.pending ==> id in v.pending && v.pending[id] == w.pending[id]
  }

  /** What a stretch may do: leave all as it is, publish what it has done, or have a call under way that will. */
  ghost predicate Shows(w: World, v: World) {
    Still(w, v) || Fresh(v) || UnderWay(v)
  }

  lemma ViewPictures(c: Chat)
    ensures Pictures(ViewOf(c), c)
  {
  }

  lemma LastSnoc(log: seq<Effect>, e: Effect)
    ensures LastView(log + [e]) ==
              if e.Emitted? && e.message.StateChanged? then Some(e.message.view) else LastView(log)
  {
    assert (log + [e])[..|log|] == log;
  }

  lemma PublishShows(w: World)
    ensures Fresh(Publish(w))
  {
    LastSnoc(w.log, Emitted(w.chat.generation, StateChanged(ViewOf(w.chat))));
  }

  lemma EmitStill(w: World, key: string, result: Option<bool>)
    ensures LastView(Emit(w, TaskResult(key, result)).log) == LastView(w.log)
  {
    LastSnoc(w.log, Emitted(w.chat.generation, TaskResult(key, result)));
  }

  lemma CallStill(w: World, rpc: Rpc)
    ensures LastView(Call(w, rpc).log) == LastView(w.log)
  {
    LastSnoc(w.log, Sent(w.chat.generation, rpc));
  }

  lemma WaitsUnderWay(w: World, v: World, id: nat, task: Task)
    requires Waits(w, v, id, task)
    ensures UnderWay(v)
  {
  }

  lemma AnsweredShows(w: World, id: nat, key: string, started: bool)
    ensures Fresh(Answered(w, id, key, started))
  {
    hide LastView, ViewOf;
    PublishShows(Emit(w, TaskResult(key, Some(started))));
  }

  lemma SubmitFailedShows(w: World, id: nat, key: string, started: bool, userItem: Option<nat>, message: string)
    ensures Fresh(SubmitFailed(w, id, key, started, userItem, message))
  {
    hide LastView, ViewOf, Add, Answered;
    var c := if userItem.Some? then w.chat.(items := Drop(w.chat.items, userItem.value)) else w.chat;
    var c1 := if started then c.(busy := false, status := "failed") else c;
    AnsweredShows(w.(chat := Add(c1, ErrorNote, Or(message, "The task could not start."))), id, key, false);
  }

  lemma SubmitOnceShows(w: World, id: nat, task: Task)
    ensures var v := SubmitOnce(w, id, task); Fresh(v) || Waits(w, v, id, task)
  {
    hide LastView, SubmitFailed, SendChat, Waits;
    SubmitOnceOutcome(w, id, task);
    hide Ends;
    if Refusal(w.chat, task).Some? {
      SubmitFailedShows(w, id, task.requestId, false, None, Refusal(w.chat, task).value);
    } else {
      var v := Publish(w.(chat := w.chat.(busy := true, status := "starting")));
      SubmitFailedShows(v, id, task.requestId, true, None, "Update the CLI to change permissions.");
      if w.chat.sessionId.None? || task.mode == w.chat.mode || "session.setMode" in w.chat.methods {
        StartedWaits(w, id, task);
      }
    }
  }

  lemma StartedWaits(w: World, id: nat, task: Task)
    requires Refusal(w.chat, task).None?
    requires w.chat.sessionId.None? || task.mode == w.chat.mode || "session.setMode" in w.chat.methods
    ensures Waits(w, SubmitOnce(w, id, task), id, task)
  {
    var u := Publish(w.(chat := w.chat.(busy := true, status := "starting")));
    if w.chat.sessionId.Some? && task.mode == w.chat.mode { SendChatWaits(w, u, id, task); }
  }

  lemma SubmitTaskShows(w: World, raw: Task)
    requires w.nextId !in w.pending
    ensures Shows(w, SubmitTask(w, raw))
  {
    hide LastView, SubmitOnce, Instruction, Remember, Waits;
    var task := raw.(instruction := Instruction(raw));
    if WellFormedId(task.requestId) {
      if Known(w.chat.requests, task.requestId) {
        EmitStill(w, task.requestId, Some(false));
      } else {
        var u := w.(nextId := w.nextId + 1);
        var v := SubmitOnce(u, w.nextId, task);
        var r := Request(task.requestId, task.instruction, w.nextId);
        SubmitOnceShows(u, w.nextId, task);
        if Waits(u, v, w.nextId, task) { WaitsUnderWay(u, v, w.nextId, task); }
        RegisterShows(v, r);
      }
    }
  }

  lemma RegisterShows(w: World, request: Request)
    ensures Fresh(w) ==> Fresh(Register(w, request))
    ensures UnderWay(w) ==> UnderWay(Register(w, request))
  {
    hide LastView, Remember;
  }

  lemma SubmitRepliedShows(w: World, id: nat, f: Frame, reply: Reply)
    requires f.SubmitFrame? && id !in w.pending
    ensures var v := SubmitReplied(w, id, f.gen, f.task, f.point, reply);
            if f.gen == w.chat.generation then Fresh(v) || UnderWay(v) else Still(w, v)
  {
    hide LastView, SendChat, SubmitFailed, SubmitAccepted, SessionCreated;
    var c, task, point := w.chat, f.task, f.point;
    if f.gen != c.generation { return; }
    if reply.Rejected? {
      SubmitFailedShows(w, id, task.requestId, true, if point.AwaitSend? then Some(point.userItem) else None,
                        reply.message);
      return;
    }
    var b := reply.body;
    match point
    case AwaitCreate => SessionCreatedShows(w, id, task, b);
    case AwaitModel => SendChatUnderWay(w.(chat := c.(model := Or(b.model, Or(b.modelName, c.model)))), id, task);
    case AwaitMode =>
      var v := w.(chat := c.(mode := Or(b.mode, c.mode)));
      SubmitFailedShows(v, id, task.requestId, true, None, "The agent did not accept the selected permissions.");
      SendChatUnderWay(v, id, task);
    case AwaitSend(item) =>
      SubmitFailedShows(w, id, task.requestId, true, Some(item), "The agent did not start a task.");
      SubmitAcceptedShows(w, id, task.requestId, b);
  }

  lemma SessionCreatedShows(w: World, id: nat, task: Task, b: Body)
    ensures var v := SessionCreated(w, id, task, b); Fresh(v) || UnderWay(v)
  {
    hide LastView, SendChat, SubmitFailed;
    var v := w.(chat := w.chat.(sessionId := Some(b.sessionId), mode := Or(b.mode, task.mode), sequence := 0));
    SubmitFailedShows(w, id, task.requestId, true, None, "The agent did not create a conversation.");
    SendChatUnderWay(v, id, task);
    if b.sessionId != "" && "session.modelInfo" in w.chat.methods {
      var u := SessionCreated(w, id, task, b);
      assert u.pending[id].SubmitFrame?;
    }
  }

  lemma SendChatUnderWay(w: World, id: nat, task: Task)
    ensures UnderWay(SendChat(w, id, task))
  {
    var v := SendChat(w, id, task);
    assert v.pending[id].SubmitFrame?;
  }

  lemma SubmitAcceptedShows(w: World, id: nat, key: string, b: Body)
    ensures Fresh(SubmitAccepted(w, id, key, b))
  {
    hide LastView, Finish, Answered;
    var c := w.chat.(jobId := Some(b.jobId), accepted := Some(key), status := Or(b.status, "running"));
    AnsweredShows(w.(chat := if Terminal(c.status) then Finish(c, c.status) else SchedulePoll(c)), id, key, true);
  }

  lemma DisconnectedShows(w: World, reason: string)
    ensures Fresh(Disconnected(w, reason))
  {
    hide LastView, Finish, ViewOf;
    var c := w.chat.(generation := w.chat.generation + 1, timer := None, connected := false,
                     connecting := false, requests := [], accepted := None, error := reason);
    PublishShows(w.(chat := Finish(c, "interrupted").(sessionId := None)));
  }

  lemma ConnectShows(w: World)
    requires w.nextId !in w.pending
    ensures Connect(w) == w || Fresh(Connect(w))
  {
    hide LastView;
    var v := w.(chat := w.chat.(connecting := true, error := ""));
    PublishShows(v);
    CallStill(Publish(v), Initialize);
  }

  lemma PollRepliedShows(w: World, gen: nat, reply: Reply)
    ensures Shows(w, PollReplied(w, gen, reply))
  {
    hide LastView, Finish, Disconnected;
    match reply
    case Rejected(message) => DisconnectedShows(w, Or(message, "The local agent stopped responding."));
    case Resolved(b) =>
      var status := Or(b.status, w.chat.status);
      var c := w.chat.(status := status);
      PublishShows(w.(chat := if Terminal(status) then Finish(c, status) else c));
  }

  lemma CancelRepliedShows(w: World, gen: nat, reply: Reply)
    requires w.nextId !in w.pending
    ensures Shows(w, CancelReplied(w, gen, reply))
  {
    hide LastView, Finish, ViewOf;
    if reply.Resolved? {
      var status := Or(reply.body.status, "cancellation_requested");
      var c := w.chat.(status := status);
      PublishShows(w.(chat := if status == "closed" then Finish(c.(sessionId := None), "cancelled")
                              else if Terminal(status) then Finish(c, status) else c));
    }
  }

  lemma SessionClearedShows(w: World)
    ensures Fresh(SessionCleared(w))
  {
    hide LastView, ViewOf;
    var c := w.chat;
    PublishShows(w.(chat := c.(generation := c.generation + 1, busy := false, sessionId := None, jobId := None,
                               items := [], requests := [], accepted := None, status := "idle")));
  }

  /** A call that waits to report an error. */
  lemma CatchUnderWay(w: World, gen: nat, message: string)
    requires w.nextId !in w.pending
    ensures var v := Suspend(w, CatchFrame(gen, message));
            if gen == w.chat.generation then UnderWay(v) else Still(w, v)
  {
    hide LastView;
    assert Suspend(w, CatchFrame(gen, message)).pending[w.nextId] == CatchFrame(gen, message);
  }

  lemma NewSessionShows(w: World)
    requires w.nextId !in w.pending
    ensures Shows(w, NewSession(w))
  {
    hide LastView, SessionCleared;
    var u := w.(chat := w.chat.(busy := true));
    CatchUnderWay(w, w.chat.generation, "Stop the current task before starting a new one.");
    PublishShows(u);
    SessionClearedShows(Publish(u));
    CallStill(Publish(u), SessionCancel(w.chat.sessionId));
  }

  lemma NewSessionRepliedShows(w: World, gen: nat, reply: Reply)
    requires w.nextId !in w.pending
    ensures Shows(w, NewSessionReplied(w, gen, reply))
  {
    hide LastView, SessionCleared, Still, UnderWay, Fresh;
    SessionClearedShows(w);
    StillItself(w);
    if reply.Rejected? {
      CatchUnderWay(if gen == w.chat.generation then w.(chat := w.chat.(busy := false)) else w, gen, reply.message);
    }
  }

  lemma StillItself(w: World)
    ensures Still(w, w)
  {
  }

  lemma CaughtShows(w: World, gen: nat, message: string)
    ensures if gen == w.chat.generation then Fresh(Caught(w, gen, message)) else Caught(w, gen, message) == w
  {
    hide LastView, ViewOf, Add;
    PublishShows(w.(chat := Add(w.chat, ErrorNote, Or(message, "The action could not complete."))));
  }

  lemma ChangeModeShows(w: World, mode: string)
    requires w.nextId !in w.pending
    ensures Shows(w, ChangeMode(w, mode))
  {
    hide LastView, Caught;
    PublishShows(w.(chat := w.chat.(mode := mode)));
    CaughtShows(w, w.chat.generation, "Update the CLI to change permissions.");
    CallStill(w, SetMode(w.chat.sessionId, mode));
  }

  /** A call that is made without a visible change. */
  lemma CallAndWait(w: World, rpc: Rpc, frame: Frame)
    requires w.nextId !in w.pending
    ensures Still(w, Suspend(Call(w, rpc), frame))
  {
    hide LastView;
    CallStill(w, rpc);
  }

  lemma ApproveShows(w: World, approvalId: Option<string>, decision: Option<Decision>)
    requires w.nextId !in w.pending
    ensures Still(w, ApproveItem(w, approvalId, decision))
  {
    hide LastView, ViewOf;
    var i := FindPending(w.chat.items, approvalId);
    if decision.Some? && i < |w.chat.items| {
      CallStill(w, ApprovalRespond(w.chat.sessionId, approvalId, decision.value != Deny,
                                   decision.value == AllowForSession));
    }
  }

  lemma HandleShows(w: World, m: Message)
    requires w.nextId !in w.pending
    ensures Shows(w, Handle(w, m))
  {
    hide LastView, ViewOf, SubmitTask, ApproveItem, ChangeMode, NewSession, Connect, Caught, Still, UnderWay, Fresh;
    StillItself(w);
    match m
    case Malformed =>
    case Ready => PublishShows(w);
    case Submit(raw) => SubmitTaskShows(w, raw);
    case CancelTask => CallAndWait(w, SessionCancel(w.chat.sessionId), CancelFrame(w.chat.generation));
    case Approve(approvalId, decision) => ApproveShows(w, approvalId, decision);
    case SetModeTo(mode) => ChangeModeShows(w, mode);
    case NewTask => NewSessionShows(w);
    case Reconnect => ConnectShows(w);
    case LocateCli => CallAndWait(w, NativeAction, ConfigureFrame(w.chat.generation));
    case Native => CallAndWait(w, NativeAction, NativeFrame(w.chat.generation));
    case Unsupported => CaughtShows(w, w.chat.generation, "This action is not available in the JetBrains preview yet.");
  }

  lemma EventShows(w: World, e: Event)
    ensures Shows(w, OnEvent(w, e))
  {
    hide LastView, ApplyEvent, Unseen, Relevant;
    if Relevant(w.chat, e) && Newer(w.chat.sequence, e) {
      PublishShows(w.(chat := ApplyEvent(w.chat.(sequence := e.sequence.value), e)));
    }
  }

  lemma TimerShows(w: World)
    requires w.nextId !in w.pending
    ensures Still(w, TimerFired(w))
  {
    hide LastView;
    if w.chat.timer.Some? && w.chat.jobId.Some? {
      CallStill(w.(chat := w.chat.(timer := None)), JobStatus(w.chat.jobId.value));
    }
  }

  lemma ConnectRepliedShows(w: World, gen: nat, reply: Reply)
    ensures Shows(w, ConnectReplied(w, gen, reply))
  {
    hide LastView, ViewOf;
    if gen == w.chat.generation {
      var c := match reply
        case Rejected(message) =>
          w.chat.(connected := false, error := Or(message, "Could not connect to the local agent."))
        case Resolved(b) =>
          if b.protocol != "1" || !(REQUIRED_METHODS <= b.methods)
          then w.chat.(methods := b.methods, connected := false, error := INCOMPATIBLE)
          else w.chat.(methods := b.methods, connected := true);
      PublishShows(w.(chat := c.(connecting := false)));
    }
  }

  lemma ApproveRepliedShows(w: World, gen: nat, item: nat, decision: Decision, reply: Reply)
    requires w.nextId !in w.pending
    ensures Shows(w, ApproveReplied(w, gen, item, decision, reply))
  {
    hide LastView, ViewOf;
    match reply
    case Rejected(message) => CatchUnderWay(w, gen, message);
    case Resolved(b) =>
      PublishShows(w.(chat := w.chat.(items := SetStatus(w.chat.items, item, if b.status == "expired" then Expired
                                                                             else Decided(decision)))));
  }

  lemma ConfigureShows(w: World, id: nat, f: Frame, reply: Reply)
    requires f.ConfigureFrame? && w.nextId !in w.pending
    ensures Shows(w, Replied(w, id, f, reply))
  {
    hide LastView, ViewOf, Connect, Disconnected, Caught;
    if reply.Rejected? {
      CaughtShows(w, f.gen, reply.message);
    } else if reply.body.confirmed {
      DisconnectedShows(w, "");
      DisconnectedApart(w, "");
      ConnectShows(Disconnected(w, ""));
    }
  }

  lemma ModeRepliedShows(w: World, id: nat, f: Frame, reply: Reply)
    requires f.ModeFrame?
    ensures Shows(w, Replied(w, id, f, reply))
  {
    hide LastView, ViewOf, Caught;
    match reply
    case Rejected(message) => CaughtShows(w, f.gen, message);
    case Resolved(b) => PublishShows(w.(chat := w.chat.(mode := Or(b.mode, w.chat.mode))));
  }

  lemma RepliedShows(w: World, id: nat, f: Frame, reply: Reply)
    requires w.nextId !in w.pending && id !in w.pending && (f.WaiterFrame? ==> f.call in w.settled)
    ensures Shows(w, Replied(w, id, f, reply))
    ensures f.CatchFrame? && f.gen == w.chat.generation ==> Fresh(Replied(w, id, f, reply))
    ensures f.SubmitFrame? && f.gen == w.chat.generation ==>
              var v := Replied(w, id, f, reply); Fresh(v) || UnderWay(v)
  {
    hide LastView, ViewOf, SubmitReplied, PollReplied, ApproveReplied, CancelReplied, NewSessionReplied,
        ConnectReplied, Caught, UnderWay, Fresh;
    match f
    case ConnectFrame(gen) => ConnectRepliedShows(w, gen, reply);
    case SubmitFrame(gen, task, point) => SubmitRepliedShows(w, id, f, reply);
    case WaiterFrame(gen, key, call) => EmitStill(w, key, w.settled[call]);
    case PollFrame(gen, _) => PollRepliedShows(w, gen, reply);
    case ApproveFrame(gen, item, decision) => ApproveRepliedShows(w, gen, item, decision, reply);
    case CancelFrame(gen) => CancelRepliedShows(w, gen, reply);
    case NewSessionFrame(gen) => NewSessionRepliedShows(w, gen, reply);
    case ModeFrame(gen) => ModeRepliedShows(w, id, f, reply);
    case ConfigureFrame(gen) => ConfigureShows(w, id, f, reply);
    case NativeFrame(gen) => if reply.Rejected? { CaughtShows(w, gen, reply.message); }
    case CatchFrame(gen, message) => CaughtShows(w, gen, message);
  }

  // ----- Every run -----

  /** The sidebar shows the chat, or will. */
  ghost predicate Shown(w: World) {
    Fresh(w) || UnderWay(w) || (LastView(w.log).None? && ViewOf(w.chat) == ViewOf(INITIAL_CHAT))
  }

  lemma ShowsKeeps(w: World, v: World)
    requires Shown(w) && Shows(w, v)
    ensures Shown(v)
  {
    hide LastView, ViewOf;
  }

  /** A call that ends leaves the others, and if it was to publish, it has. */
  lemma ResumeKeepsShown(w: World, id: nat, reply: Reply)
    requires Inv(w) && Shown(w) && Enabled(w, id)
    ensures Shown(Step(w, Resume(id, reply)))
  {
    hide LastView, ViewOf, Replied, Inv;
    var u, f := w.(pending := w.pending - {id}), w.pending[id];
    InvIds(w);
    RepliedShows(u, id, f, reply);
    if !(f.gen == w.chat.generation && (f.SubmitFrame? || f.CatchFrame?)) {
      if UnderWay(w) {
        var k :| k in w.pending && w.pending[k].gen == w.chat.generation
                 && (w.pending[k].SubmitFrame? || w.pending[k].CatchFrame?);
        assert k in u.pending && u.pending[k] == w.pending[k];
      }
      ShowsKeeps(u, Step(w, Resume(id, reply)));
    }
  }

  lemma InvIds(w: World)
    requires Inv(w)
    ensures w.nextId !in w.pending
  {
  }

  lemma StepKeepsShown(w: World, input: Input)
    requires Inv(w) && Shown(w)
    ensures Shown(Step(w, input))
  {
    hide Handle, OnEvent, Disconnected, TimerFired, Replied, Inv, LastView, ViewOf, Shown, Shows, Still, Fresh;
    var v := Step(w, input);
    InvIds(w);
    match input
    case Deliver(m) => HandleShows(w, m); ShowsKeeps(w, v);
    case HostEvent(e) => EventShows(w, e); ShowsKeeps(w, v);
    case HostDisconnected(reason) => DisconnectedShows(w, reason); FreshIsShown(v);
    case TimerFires => TimerShows(w); StillKeeps(w, v);
    case Resume(id, reply) => if Enabled(w, id) { ResumeKeepsShown(w, id, reply); }
  }

  lemma FreshIsShown(w: World)
    requires Fresh(w)
    ensures Shown(w)
  {
  }

  lemma StillKeeps(w: World, v: World)
    requires Shown(w) && Still(w, v)
    ensures Shown(v)
  {
    ShowsKeeps(w, v);
  }

  /**
   The sidebar is current: in every reachable state the last state published shows the chat as it is, and
   before the first one the chat is as it began, unless a submit or the report of an error is under way.
   */
  lemma {:induction false} SidebarIsCurrent(inputs: seq<Input>)
    ensures var w := Run(INITIAL, inputs);
            UnderWay(w) || Pictures(match LastView(w.log) case Some(v) => v case None => ViewOf(INITIAL_CHAT), w.chat)
    ensures Shown(Run(INITIAL, inputs))
    decreases |inputs|
  {
    hide Step, LastView;
    var w := Run(INITIAL, inputs);
    if inputs == [] {
      NothingPublishedYet();
    } else {
      SidebarIsCurrent(inputs[..|inputs| - 1]);
      RunKeeps(INITIAL, inputs[..|inputs| - 1]);
      StepKeepsShown(Run(INITIAL, inputs[..|inputs| - 1]), inputs[|inputs| - 1]);
    }
    ViewPictures(w.chat);
  }

  lemma NothingPublishedYet()
    ensures LastView(INITIAL.log).None?
  {
  }
}
