/**
 The chat host as the object it is: a class whose methods assign its fields between awaits. Each method
 is one synchronous stretch of the source, and its contract says that it carries the state to exactly
 the state the transition system gives. The fields below `timer` stand for what the JavaScript runtime
 holds for the object: its suspended calls, its settled promises and the messages it has sent.
 */
module PortableChat {
  import opened Wrappers
  import opened Text
  import S = ChatSpec

  lemma ChildIsUnseen(c: S.Chat, e: S.Event)
    ensures e.child ==> S.Unseen(c, e)
  {
  }

  class PortableChat {
    var mode: string
    var items: seq<S.Item>
    var sessionId: Option<string>
    var jobId: Option<string>
    var status: string
    var connected: bool
    var connecting: bool
    var busy: bool
    var generation: nat
    var sequence: int
    var counter: nat
    var methods: set<string>
    var accepted: Option<string>
    var error: string
    var model: string
    var requests: seq<S.Request>
    var timer: Option<nat>

    var outstanding: map<nat, S.Frame>
    var nextId: nat
    var settled: map<nat, Option<bool>>
    var log: seq<S.Effect>

    function Fields(): S.Chat
      reads this
    {
      S.Chat(mode, items, sessionId, jobId, status, connected, connecting, busy, generation, sequence, counter,
             methods, accepted, error, model, requests, timer)
    }

    function Value(): S.World
      reads this
    {
      S.World(Fields(), outstanding, nextId, settled, log)
    }

    constructor ()
      ensures Value() == S.INITIAL
    {
      mode, items, sessionId, jobId, status := "review", [], None, None, "idle";
      connected, connecting, busy, generation, sequence, counter := false, false, false, 0, 0, 0;
      methods, accepted, error, model, requests, timer := {}, None, "", "CLI configuration", [], None;
      outstanding, nextId, settled, log := map[], 0, map[], [];
    }

    // ----- Effects -----

    method Emit(message: S.Outgoing)
      modifies this`log
      ensures Value() == S.Emit(old(Value()), message)
    {
      log := log + [S.Emitted(generation, message)];
    }

    method Publish()
      modifies this`log
      ensures Value() == S.Publish(old(Value()))
    {
      Emit(S.StateChanged(S.View(connected && !connecting, connecting, error, mode, model, sessionId, status, busy,
                                 items, accepted)));
    }

    /** Issues an RPC; the suspended call is recorded separately. */
    method Rpc(rpc: S.Rpc)
      modifies this`log
      ensures Value() == S.Call(old(Value()), rpc)
    {
      log := log + [S.Sent(generation, rpc)];
    }

    method Await(frame: S.Frame)
      modifies this`outstanding, this`nextId
      ensures Value() == S.Suspend(old(Value()), frame)
    {
      outstanding := outstanding[nextId := frame];
      nextId := nextId + 1;
    }

    // ----- Transcript -----

    method Add(kind: S.Kind, content: string, itemStatus: S.ItemStatus, approvalId: Option<string>, allow: bool)
      returns (item: S.Item)
      modifies this`items, this`counter
      ensures Fields() == S.Add(old(Fields()), kind, content, itemStatus, approvalId, allow)
      ensures item == S.Item(counter, kind, Clip(content, S.TEXT_LIMIT), itemStatus, approvalId, allow)
    {
      counter := counter + 1;
      item := S.Item(counter, kind, Clip(content, S.TEXT_LIMIT), itemStatus, approvalId, allow);
      items := items + [item];
      Evict();
    }

    /** Never evicts an unresolved approval; stops showing old settled items first. */
    method Evict()
      modifies this`items
      ensures items == S.Evict(old(items))
    {
      while |items| > S.ITEM_LIMIT
        invariant S.Evict(items) == S.Evict(old(items))
        decreases |items|
      {
        var index := S.FirstSettled(items);
        if index == |items| { break; }
        items := items[..index] + items[index + 1..];
      }
    }

    method Note(kind: S.Kind, content: string)
      modifies this`items, this`counter
      ensures Fields() == S.Add(old(Fields()), kind, content)
    {
      var _ := Add(kind, content, S.Complete, None, false);
    }

    method Finish(newStatus: string)
      modifies this`status, this`busy, this`jobId, this`timer, this`items, this`counter
      ensures Fields() == S.Finish(old(Fields()), newStatus)
    {
      hide S.Add, S.Evict;
      status, busy, jobId, timer := newStatus, false, None, None;
      SettleItems();
      if newStatus == "cancelled" {
        Note(S.Notice, "Stopped.");
      }
    }

    /** Ends the streams and expires the pending approvals. */
    method SettleItems()
      modifies this`items
      ensures items == S.FinishItems(old(items))
    {
      for k := 0 to |items|
        invariant |items| == |old(items)|
        invariant forall i :: 0 <= i < |items| ==> items[i] == if i < k then S.FinishItem(old(items)[i])
                else old(items)[i]
      {
        if items[k].kind.Assistant? && items[k].status.Streaming? {
          items := items[k := items[k].(status := S.Complete)];
        }
        if items[k].status.Pending? && items[k].kind.Approval? {
          items := items[k := items[k].(status := S.Expired)];
        }
      }
      assert items == S.FinishItems(old(items));
    }

    // ----- connect -----

    method Connect()
      modifies this
      ensures Value() == S.Connect(old(Value()))
    {
      if busy || connecting || connected { return; }
      connecting := true;
      error := "";
      Publish();
      Rpc(S.Initialize);
      Await(S.ConnectFrame(generation));
    }

    method ConnectReplied(gen: nat, reply: S.Reply)
      modifies this
      ensures Value() == S.ConnectReplied(old(Value()), gen, reply)
    {
      hide S.Publish;
      if gen != generation { return; }
      if reply.Rejected? {
        ConnectionFailed(S.Or(reply.message, "Could not connect to the local agent."));
      } else {
        CheckHealth(reply.body.protocol, reply.body.methods);
      }
      connecting := false;
      Publish();
    }

    method ConnectionFailed(message: string)
      modifies this`connected, this`error
      ensures Fields() == old(Fields()).(connected := false, error := message)
    {
      connected := false;
      error := message;
    }

    method CheckHealth(protocol: string, offered: set<string>)
      modifies this`methods, this`connected, this`error
      ensures Fields() == if protocol != "1" || !(S.REQUIRED_METHODS <= offered)
                          then old(Fields()).(methods := offered, connected := false, error := S.INCOMPATIBLE)
                          else old(Fields()).(methods := offered, connected := true)
    {
      methods := offered;
      if protocol != "1" || !(S.REQUIRED_METHODS <= methods) {
        connected := false;
        error := S.INCOMPATIBLE;
      } else {
        connected := true;
      }
    }

    // ----- submit -----

    method Submit(raw: S.Task)
      modifies this
      ensures Value() == S.SubmitTask(old(Value()), raw)
    {
      hide S.SubmitOnce, S.Instruction, S.Find;
      if !S.WellFormedId(raw.requestId) { return; }
      var task := raw.(instruction := S.Instruction(raw));
      var position := S.Find(requests, task.requestId);
      if position < |requests| {
        var previous := requests[position];
        if previous.instruction != task.instruction {
          Emit(S.TaskResult(task.requestId, Some(false)));
        } else {
          Await(S.WaiterFrame(generation, task.requestId, previous.call));
        }
        return;
      }
      var call := nextId;
      nextId := nextId + 1;
      SubmitOnce(call, task);
      requests := requests + [S.Request(task.requestId, task.instruction, call)];
      if |requests| > S.REQUEST_LIMIT {
        requests := requests[1..];
      }
    }

    method SubmitOnce(call: nat, task: S.Task)
      modifies this
      ensures Value() == S.SubmitOnce(old(Value()), call, task)
    {
      var refusal := S.Refusal(Fields(), task);
      if refusal.Some? {
        SubmitFailed(call, task.requestId, false, None, refusal.value);
        return;
      }
      busy := true;
      status := "starting";
      Publish();
      if sessionId.None? {
        Rpc(S.SessionCreate(task.mode));
        SubmitWaits(call, task, S.AwaitCreate);
      } else if task.mode != mode {
        if "session.setMode" !in methods {
          SubmitFailed(call, task.requestId, true, None, "Update the CLI to change permissions.");
          return;
        }
        Rpc(S.SetMode(sessionId, task.mode));
        SubmitWaits(call, task, S.AwaitMode);
      } else {
        SendChat(call, task);
      }
    }

    method SubmitWaits(call: nat, task: S.Task, point: S.SubmitPoint)
      modifies this`outstanding
      ensures Value() == S.SubmitWaits(old(Value()), call, task, point)
    {
      outstanding := outstanding[call := S.SubmitFrame(generation, task, point)];
    }

    method SendChat(call: nat, task: S.Task)
      modifies this
      ensures Value() == S.SendChat(old(Value()), call, task)
    {
      var userItem := Add(S.UserTurn, task.instruction, S.Complete, None, false);
      Rpc(S.ChatSend(sessionId, task.instruction, task.requestId));
      SubmitWaits(call, task, S.AwaitSend(userItem.id));
    }

    /** The catch block of `submitOnce` and what follows it. */
    method SubmitFailed(call: nat, key: string, started: bool, userItem: Option<nat>, message: string)
      modifies this
      ensures Value() == S.SubmitFailed(old(Value()), call, key, started, userItem, message)
    {
      hide S.Add, S.Drop, S.Answered;
      TakeBack(started, userItem);
      Note(S.ErrorNote, S.Or(message, "The task could not start."));
      Answer(call, key, false);
    }

    method TakeBack(started: bool, userItem: Option<nat>)
      modifies this`items, this`busy, this`status
      ensures var c := if userItem.Some? then old(Fields()).(items := S.Drop(old(items), userItem.value))
              else old(Fields());
              Fields() == if started then c.(busy := false, status := "failed") else c
    {
      hide S.Drop;
      if userItem.Some? {
        items := S.Drop(items, userItem.value);
      }
      if started {
        busy, status := false, "failed";
      }
    }

    /** The finally block of `submitOnce` and its return. */
    method Answer(call: nat, key: string, started: bool)
      modifies this`log, this`settled
      ensures Value() == S.Answered(old(Value()), call, key, started)
    {
      Emit(S.TaskResult(key, Some(started)));
      Publish();
      settled := settled[call := Some(started)];
    }

    method SubmitReplied(call: nat, gen: nat, task: S.Task, point: S.SubmitPoint, reply: S.Reply)
      modifies this
      ensures Value() == S.SubmitReplied(old(Value()), call, gen, task, point, reply)
    {
      hide S.SendChat, S.SubmitFailed, S.SubmitAccepted, S.SessionCreated, S.ModeChanged;
      if gen != generation {
        settled := settled[call := None];
        return;
      }
      if reply.Rejected? {
        SubmitFailed(call, task.requestId, true, if point.AwaitSend? then Some(point.userItem) else None,
                     reply.message);
        return;
      }
      var b := reply.body;
      match point {
        case AwaitCreate =>
          SessionCreated(call, task, b);
        case AwaitModel =>
          model := S.Or(b.model, S.Or(b.modelName, model));
          SendChat(call, task);
        case AwaitMode =>
          ModeChanged(call, task, b);
        case AwaitSend(item) =>
          if b.jobId == "" {
            SubmitFailed(call, task.requestId, true, Some(item), "The agent did not start a task.");
          } else {
            SubmitAccepted(call, task.requestId, b);
          }
      }
    }

    method ModeChanged(call: nat, task: S.Task, b: S.Body)
      modifies this
      ensures Value() == S.ModeChanged(old(Value()), call, task, b)
    {
      hide S.SendChat, S.SubmitFailed;
      mode := S.Or(b.mode, mode);
      if mode != task.mode {
        SubmitFailed(call, task.requestId, true, None, "The agent did not accept the selected permissions.");
      } else {
        SendChat(call, task);
      }
    }

    method SessionCreated(call: nat, task: S.Task, b: S.Body)
      modifies this
      ensures Value() == S.SessionCreated(old(Value()), call, task, b)
    {
      hide S.SendChat, S.SubmitFailed;
      if b.sessionId == "" {
        SubmitFailed(call, task.requestId, true, None, "The agent did not create a conversation.");
        return;
      }
      OpenSession(Some(b.sessionId), S.Or(b.mode, task.mode));
      if "session.modelInfo" in methods {
        Rpc(S.ModelInfo(sessionId));
        SubmitWaits(call, task, S.AwaitModel);
      } else {
        SendChat(call, task);
      }
    }

    method OpenSession(session: Option<string>, newMode: string)
      modifies this`sessionId, this`mode, this`sequence
      ensures Fields() == old(Fields()).(sessionId := session, mode := newMode, sequence := 0)
    {
      sessionId := session;
      mode := newMode;
      sequence := 0;
    }

    method SubmitAccepted(call: nat, key: string, b: S.Body)
      modifies this
      ensures Value() == S.SubmitAccepted(old(Value()), call, key, b)
    {
      hide S.Finish, S.Terminal, S.Answered, S.SchedulePoll;
      Accept(Some(b.jobId), key, S.Or(b.status, "running"));
      Answer(call, key, true);
    }

    method Accept(job: Option<string>, key: string, newStatus: string)
      modifies this`jobId, this`accepted, this`status, this`busy, this`timer, this`items, this`counter
      ensures var c := old(Fields()).(jobId := job, accepted := Some(key), status := newStatus);
              Fields() == if S.Terminal(newStatus) then S.Finish(c, newStatus) else S.SchedulePoll(c)
    {
      hide S.Finish, S.Terminal;
      jobId, accepted, status := job, Some(key), newStatus;
      if S.Terminal(status) {
        Finish(status);
      } else {
        SchedulePoll();
      }
    }

    // ----- poll -----

    method SchedulePoll()
      modifies this`timer
      ensures Fields() == S.SchedulePoll(old(Fields()))
    {
      timer := Some(generation);
    }

    method TimerFired()
      modifies this
      ensures Value() == S.TimerFired(old(Value()))
    {
      if timer.None? { return; }
      var gen := timer.value;
      timer := None;
      if jobId.None? || !busy || gen != generation { return; }
      Rpc(S.JobStatus(jobId.value));
      Await(S.PollFrame(generation, jobId.value));
    }

    method PollReplied(gen: nat, reply: S.Reply)
      modifies this
      ensures Value() == S.PollReplied(old(Value()), gen, reply)
    {
      hide S.Publish, S.Finish, S.Disconnected, S.Terminal, S.Or;
      if gen != generation { return; }
      match reply {
        case Rejected(message) =>
          Disconnected(S.Or(message, "The local agent stopped responding."));
        case Resolved(b) =>
          Polled(S.Or(b.status, status));
          Publish();
          if busy {
            SchedulePoll();
          }
      }
    }

    // ----- onEvent -----

    method OnEvent(e: S.Event)
      modifies this
      ensures Value() == S.OnEvent(old(Value()), e)
    {
      hide S.Publish, S.ApplyEvent, S.Unseen;
      if sessionId != Some(e.sessionId) || !busy { return; }
      if jobId.Some? && e.jobId != "" && e.jobId != jobId.value { return; }
      if !S.Newer(sequence, e) { return; }
      sequence := e.sequence.value;
      if e.child {
        ChildIsUnseen(Fields(), e);
        return;
      }
      var seen := ApplyEvent(e);
      if seen { return; }
      Publish();
    }

    /** Shows what the event brings, unless the transcript shows it already. */
    method ApplyEvent(e: S.Event) returns (seen: bool)
      requires !e.child
      modifies this`items, this`counter
      ensures seen <==> S.Unseen(old(Fields()), e)
      ensures Fields() == if seen then old(Fields()) else S.ApplyEvent(old(Fields()), e)
    {
      hide S.ApplyText, S.Add, S.RepeatsLast;
      match e.kind {
        case MessageDelta => StreamText(e);
        case MessageEnd =>
          if S.RepeatsLast(Fields(), e) { return true; }
          StreamText(e);
        case Prompt =>
          if e.isApproval {
            seen := HasApproval(e.approvalId);
            if seen { return; }
            var _ := Add(S.Approval, Clip(S.Or(e.reason, e.promptText), S.TEXT_LIMIT), S.Pending, e.approvalId,
                         e.allowForSession);
          }
        case ErrorRaised => Note(S.ErrorNote,
                                 S.Or(Clip(S.Or(e.message, e.error), 4000), "The agent reported an error."));
        case ToolStarted => Note(S.Notice, "Using " + S.Or(Clip(S.Or(e.toolName, e.name), 100), "a tool") + "…");
        case OtherEvent =>
      }
      return false;
    }

    method HasApproval(approvalId: Option<string>) returns (seen: bool)
      ensures seen <==> exists i :: 0 <= i < |items| && items[i].approvalId == approvalId
    {
      for k := 0 to |items|
        invariant forall i :: 0 <= i < k ==> items[i].approvalId != approvalId
      {
        if items[k].approvalId == approvalId { return true; }
      }
      return false;
    }

    method StreamText(e: S.Event)
      requires e.kind.MessageDelta? || e.kind.MessageEnd?
      modifies this`items, this`counter
      ensures Fields() == S.ApplyText(old(Fields()), e)
    {
      var item;
      if S.StreamOpen(Fields()) {
        item := items[|items| - 1];
      } else {
        item := Add(S.Assistant, "", S.Streaming, None, false);
      }
      var next := if e.kind.MessageEnd? && e.text.Some? then e.text.value
                  else item.text + (if e.text.Some? then Clip(e.text.value, S.TEXT_LIMIT) else "");
      item := item.(text := S.Preview(next));
      if e.kind.MessageEnd? {
        item := item.(status := S.Complete);
      }
      items := S.WithItem(items, item);
    }

    // ----- approve, cancel, newSession, disconnected -----

    method Approve(approvalId: Option<string>, decision: Option<S.Decision>)
      modifies this
      ensures Value() == S.ApproveItem(old(Value()), approvalId, decision)
    {
      var i := S.FindPending(items, approvalId);
      if i == |items| || sessionId.None? || !busy || decision.None? { return; }
      if decision.value == S.AllowForSession && !items[i].allowForSession { return; }
      Rpc(S.ApprovalRespond(sessionId, approvalId, decision.value != S.Deny, decision.value == S.AllowForSession));
      Await(S.ApproveFrame(generation, items[i].id, decision.value));
    }

    method ApproveReplied(gen: nat, item: nat, decision: S.Decision, reply: S.Reply)
      modifies this
      ensures Value() == S.ApproveReplied(old(Value()), gen, item, decision, reply)
    {
      if reply.Rejected? {
        Await(S.CatchFrame(gen, reply.message));
        return;
      }
      if gen != generation { return; }
      items := S.SetStatus(items, item, if reply.body.status == "expired" then S.Expired else S.Decided(decision));
      Publish();
    }

    method Cancel()
      modifies this
      ensures Value() == S.Cancel(old(Value()))
    {
      if !busy || sessionId.None? { return; }
      Rpc(S.SessionCancel(sessionId));
      Await(S.CancelFrame(generation));
    }

    method CancelReplied(gen: nat, reply: S.Reply)
      modifies this
      ensures Value() == S.CancelReplied(old(Value()), gen, reply)
    {
      hide S.Publish, S.Finish, S.Terminal;
      if reply.Rejected? {
        Await(S.CatchFrame(gen, reply.message));
        return;
      }
      if gen != generation { return; }
      Stop(S.Or(reply.body.status, "cancellation_requested"));
      Publish();
    }

    method Polled(newStatus: string)
      modifies this`jobId, this`status, this`busy, this`timer, this`items, this`counter
      ensures var c := old(Fields()).(status := newStatus);
              Fields() == if S.Terminal(newStatus) then S.Finish(c, newStatus) else c
    {
      hide S.Finish, S.Terminal;
      status := newStatus;
      if S.Terminal(status) {
        Finish(status);
      }
    }

    method Stop(newStatus: string)
      modifies this`sessionId, this`jobId, this`status, this`busy, this`timer, this`items, this`counter
      ensures var c := old(Fields()).(status := newStatus);
              Fields() == if newStatus == "closed" then S.Finish(c.(sessionId := None), "cancelled")
                          else if S.Terminal(newStatus) then S.Finish(c, newStatus) else c
    {
      hide S.Finish, S.Terminal;
      status := newStatus;
      if status == "closed" {
        sessionId := None;
        Finish("cancelled");
      } else if S.Terminal(status) {
        Finish(status);
      }
    }

    method NewSession()
      modifies this
      ensures Value() == S.NewSession(old(Value()))
    {
      if busy {
        Await(S.CatchFrame(generation, "Stop the current task before starting a new one."));
        return;
      }
      busy := true;
      Publish();
      if sessionId.Some? {
        Rpc(S.SessionCancel(sessionId));
        Await(S.NewSessionFrame(generation));
      } else {
        SessionCleared();
      }
    }

    method NewSessionReplied(gen: nat, reply: S.Reply)
      modifies this
      ensures Value() == S.NewSessionReplied(old(Value()), gen, reply)
    {
      if reply.Rejected? {
        if gen == generation {
          busy := false;
        }
        Await(S.CatchFrame(gen, reply.message));
      } else if gen == generation {
        SessionCleared();
      }
    }

    method SessionCleared()
      modifies this
      ensures Value() == S.SessionCleared(old(Value()))
    {
      hide S.Publish;
      ForgetSession();
      items, requests, accepted, status := [], [], None, "idle";
      Publish();
    }

    /** The generation moves on and nothing runs. */
    method ForgetSession()
      modifies this`generation, this`busy, this`sessionId, this`jobId
      ensures Fields() == old(Fields()).(generation := old(generation) + 1, busy := false, sessionId := None,
                                         jobId := None)
    {
      generation := generation + 1;
      busy := false;
      sessionId := None;
      jobId := None;
    }

    method Disconnected(reason: string)
      modifies this
      ensures Value() == S.Disconnected(old(Value()), reason)
    {
      hide S.Finish, S.Publish;
      ForgetConnection(reason);
      Finish("interrupted");
      sessionId := None;
      Publish();
    }

    method ForgetConnection(reason: string)
      modifies this`generation, this`timer, this`connected, this`connecting, this`requests, this`accepted, this`error
      ensures Fields() == old(Fields()).(generation := old(generation) + 1, timer := None, connected := false,
                                         connecting := false, requests := [], accepted := None, error := reason)
    {
      generation, timer, connected, connecting := generation + 1, None, false, false;
      ForgetRequests(reason);
    }

    method ForgetRequests(reason: string)
      modifies this`requests, this`accepted, this`error
      ensures Fields() == old(Fields()).(requests := [], accepted := None, error := reason)
    {
      requests := [];
      accepted := None;
      error := reason;
    }

    // ----- handle -----

    /** The catch block of `handle`. */
    method Caught(gen: nat, message: string)
      modifies this
      ensures Value() == S.Caught(old(Value()), gen, message)
    {
      if gen != generation { return; }
      Note(S.ErrorNote, S.Or(message, "The action could not complete."));
      Publish();
    }

    method ChangeMode(newMode: string)
      modifies this
      ensures Value() == S.ChangeMode(old(Value()), newMode)
    {
      if newMode !in S.MODES || busy { return; }
      if sessionId.Some? {
        if "session.setMode" !in methods {
          Caught(generation, "Update the CLI to change permissions.");
          return;
        }
        Rpc(S.SetMode(sessionId, newMode));
        Await(S.ModeFrame(generation));
      } else {
        mode := newMode;
        Publish();
      }
    }

    method Handle(m: S.Message)
      modifies this
      ensures Value() == S.Step(old(Value()), S.Deliver(m))
    {
      match m {
        case Malformed =>
        case Ready => Publish();
        case Submit(task) => Submit(task);
        case CancelTask => Cancel();
        case Approve(approvalId, decision) => Approve(approvalId, decision);
        case SetModeTo(newMode) => ChangeMode(newMode);
        case NewTask => NewSession();
        case Reconnect => Connect();
        case LocateCli =>
          if busy { return; }
          Rpc(S.NativeAction);
          Await(S.ConfigureFrame(generation));
        case Native =>
          Rpc(S.NativeAction);
          Await(S.NativeFrame(generation));
        case Unsupported => Caught(generation, "This action is not available in the JetBrains preview yet.");
      }
    }

    /** A suspended call resumes with a reply; a waiter resumes only once its promise has settled. */
    method Resume(id: nat, reply: S.Reply)
      modifies this
      ensures Value() == S.Step(old(Value()), S.Resume(id, reply))
    {
      hide S.Replied;
      if id !in outstanding { return; }
      var frame := outstanding[id];
      if frame.WaiterFrame? && frame.call !in settled { return; }
      outstanding := outstanding - {id};
      Dispatch(id, frame, reply);
    }

    method Dispatch(id: nat, frame: S.Frame, reply: S.Reply)
      requires frame.WaiterFrame? ==> frame.call in settled
      modifies this
      ensures Value() == S.Replied(old(Value()), id, frame, reply)
    {
      hide S.ConnectReplied, S.SubmitReplied, S.PollReplied, S.ApproveReplied, S.CancelReplied, S.NewSessionReplied,
          S.Caught, S.Emit;
      match frame {
        case ConnectFrame(gen) => ConnectReplied(gen, reply);
        case SubmitFrame(gen, task, point) => SubmitReplied(id, gen, task, point, reply);
        case WaiterFrame(gen, key, call) =>
          if gen == generation { Emit(S.TaskResult(key, settled[call])); }
        case PollFrame(gen, _) => PollReplied(gen, reply);
        case ApproveFrame(gen, item, decision) => ApproveReplied(gen, item, decision, reply);
        case CancelFrame(gen) => CancelReplied(gen, reply);
        case NewSessionFrame(gen) => NewSessionReplied(gen, reply);
        case CatchFrame(gen, message) => Caught(gen, message);
        case _ => HandleReplied(frame, reply);
      }
    }

    /** The awaits inside `handle` itself. */
    method HandleReplied(frame: S.Frame, reply: S.Reply)
      requires frame.ModeFrame? || frame.ConfigureFrame? || frame.NativeFrame?
      modifies this
      ensures Value() == S.Replied(old(Value()), 0, frame, reply)
    {
      if reply.Rejected? {
        Caught(frame.gen, reply.message);
      } else if frame.ConfigureFrame? && reply.body.confirmed {
        Disconnected("");
        Connect();
      } else if frame.ModeFrame? && frame.gen == generation {
        mode := S.Or(reply.body.mode, mode);
        Publish();
      }
    }
  }
}
