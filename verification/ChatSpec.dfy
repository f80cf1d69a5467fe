/**
 The portable chat host as a transition system.

 `Chat` holds the fields of the JavaScript object. A `World` adds what the JavaScript runtime holds
 for it: the async calls that are suspended on an `await` (`pending`, each with the values it
 captured), the promises that have settled, and everything sent to the agent or to the sidebar.
 Between two awaits the code runs alone, so one synchronous stretch is one `Step`, and every
 interleaving of replies, timer fires, agent events and user messages is a list of `Input`s.
 */
module ChatSpec {
  import opened Wrappers
  import opened Text

  const ITEM_LIMIT := 200
  const TEXT_LIMIT := 100000
  const INSTRUCTION_LIMIT := 20000
  const REQUEST_LIMIT := 128
  const MAX_SAFE_INTEGER := 0x1F_FFFF_FFFF_FFFF
  const MODES := {"readonly", "review", "auto"}
  const REQUIRED_METHODS := {"session.create", "chat.send", "session.cancel", "approval.respond", "job.status"}
  const TRUNCATED := "\n\n[Reply preview truncated]"

  predicate Terminal(status: string) {
    status == "completed" || status == "failed" || status == "cancelled" || status == "interrupted"
  }

  // ----- Values -----

  datatype Kind = UserTurn | Assistant | ErrorNote | Notice | Approval
  datatype Decision = AllowOnce | AllowForSession | Deny
  datatype ItemStatus = Complete | Streaming | Pending | Expired | Decided(decision: Decision)

  /** `id` is the number behind `portable-<n>`; it stands for the identity of the mutable item object. */
  datatype Item = Item(id: nat, kind: Kind, text: string, status: ItemStatus,
                       approvalId: Option<string>, allowForSession: bool)

  /** An entry of the idempotency map; `call` names the `submitOnce` invocation whose promise it holds. */
  datatype Request = Request(key: string, instruction: string, call: nat)

  datatype Chat = Chat(
    mode: string, items: seq<Item>, sessionId: Option<string>, jobId: Option<string>, status: string,
    connected: bool, connecting: bool, busy: bool, generation: nat, sequence: int, counter: nat,
    methods: set<string>, accepted: Option<string>, error: string, model: string,
    requests: seq<Request>,   // a JavaScript Map keeps insertion order
    timer: Option<nat>)       // the generation captured by the armed poll timer

  datatype Task = Task(requestId: string, instruction: string, mode: string, workflow: string)

  datatype SubmitPoint = AwaitCreate | AwaitModel | AwaitMode | AwaitSend(userItem: nat)

  /** A suspended async call: what it awaits and what it captured. */
  datatype Frame =
    | ConnectFrame(gen: nat)
    | SubmitFrame(gen: nat, task: Task, point: SubmitPoint)   // submitOnce; the task has its trimmed instruction
    | WaiterFrame(gen: nat, key: string, call: nat)           // a repeated submit awaiting an earlier promise
    | PollFrame(gen: nat, job: string)
    | ApproveFrame(gen: nat, item: nat, decision: Decision)
    | CancelFrame(gen: nat)
    | NewSessionFrame(gen: nat)
    | ModeFrame(gen: nat)
    | ConfigureFrame(gen: nat)
    | NativeFrame(gen: nat)
    | CatchFrame(gen: nat, error: string)                     // handle's catch, scheduled by an inner rejection

  datatype Rpc =
    | Initialize
    | SessionCreate(mode: string)
    | ModelInfo(session: Option<string>)
    | SetMode(session: Option<string>, mode: string)
    | ChatSend(session: Option<string>, message: string, key: string)
    | SessionCancel(session: Option<string>)
    | ApprovalRespond(session: Option<string>, approvalId: Option<string>, allow: bool, allowForSession: bool)
    | JobStatus(job: string)
    | NativeAction

  /** The part of the published state that depends on the conversation. */
  datatype View = View(ready: bool, progress: bool, detail: string, mode: string, model: string,
                       sessionId: Option<string>, status: string, running: bool, items: seq<Item>,
                       accepted: Option<string>)

  /** `started` is None for the JavaScript `undefined`. */
  datatype Outgoing = StateChanged(view: View) | TaskResult(requestId: string, started: Option<bool>)

  datatype Effect = Sent(gen: nat, rpc: Rpc) | Emitted(gen: nat, message: Outgoing)

  datatype World = World(chat: Chat, pending: map<nat, Frame>, nextId: nat,
                         settled: map<nat, Option<bool>>, log: seq<Effect>)

  /** What a reply may carry; a missing or falsy field is the empty string. */
  datatype Body = Body(protocol: string, methods: set<string>, sessionId: string, mode: string,
                       model: string, modelName: string, jobId: string, status: string, confirmed: bool)
  datatype Reply = Resolved(body: Body) | Rejected(message: string)

  datatype EventKind = MessageDelta | MessageEnd | Prompt | ErrorRaised | ToolStarted | OtherEvent
  datatype Event = Event(
    sessionId: string, jobId: string, sequence: Option<int>, kind: EventKind, child: bool,
    text: Option<string>, isApproval: bool, approvalId: Option<string>, reason: string,
    promptText: string, allowForSession: bool, message: string, error: string,
    toolName: string, name: string)

  datatype Message =
    | Malformed | Ready | Submit(task: Task) | CancelTask
    | Approve(approvalId: Option<string>, decision: Option<Decision>)
    | SetModeTo(mode: string) | NewTask | Reconnect | LocateCli | Native | Unsupported

  datatype Input =
    | Deliver(message: Message)
    | HostEvent(event: Event)
    | HostDisconnected(reason: string)
    | Resume(id: nat, reply: Reply)
    | TimerFires

  function Or(s: string, fallback: string): string {
    if s != "" then s else fallback
  }

  // ----- Transcript -----

  /** The index of the first item whose status is not pending, or the length. */
  function FirstSettled(items: seq<Item>): (i: nat)
    ensures i <= |items|
    ensures i < |items| ==> !items[i].status.Pending?
    ensures forall j :: 0 <= j < i ==> items[j].status.Pending?
  {
    if items == [] || !items[0].status.Pending? then 0 else 1 + FirstSettled(items[1..])
  }

  function Without(items: seq<Item>, i: nat): seq<Item>
    requires i < |items|
  {
    items[..i] + items[i + 1..]
  }

  function Evict(items: seq<Item>): seq<Item>
    decreases |items|
  {
    var i := FirstSettled(items);
    if |items| <= ITEM_LIMIT || i == |items| then items else Evict(Without(items, i))
  }

  function Add(c: Chat, kind: Kind, content: string, status: ItemStatus := Complete,
               approvalId: Option<string> := None, allow: bool := false): Chat {
    var item := Item(c.counter + 1, kind, Clip(content, TEXT_LIMIT), status, approvalId, allow);
    c.(counter := c.counter + 1, items := Evict(c.items + [item]))
  }

  function WithItem(items: seq<Item>, item: Item): seq<Item> {
    seq(|items|, i requires 0 <= i < |items| => if items[i].id == item.id then item else items[i])
  }

  function Drop(items: seq<Item>, id: nat): seq<Item> {
    if items == [] then []
    else (if items[0].id == id then [] else [items[0]]) + Drop(items[1..], id)
  }

  function FinishItem(item: Item): Item {
    if item.kind.Assistant? && item.status.Streaming? then item.(status := Complete)
    else if item.status.Pending? && item.kind.Approval? then item.(status := Expired)
    else item
  }

  function FinishItems(items: seq<Item>): seq<Item> {
    seq(|items|, i requires 0 <= i < |items| => FinishItem(items[i]))
  }

  function Finish(c: Chat, status: string): Chat {
    var c := c.(status := status, busy := false, jobId := None, timer := None, items := FinishItems(c.items));
    if status == "cancelled" then Add(c, Notice, "Stopped.") else c
  }

  // ----- Effects -----

  function ViewOf(c: Chat): View {
    View(c.connected && !c.connecting, c.connecting, c.error, c.mode, c.model, c.sessionId, c.status, c.busy,
         c.items, c.accepted)
  }

  function Emit(w: World, message: Outgoing): World {
    w.(log := w.log + [Emitted(w.chat.generation, message)])
  }

  function Publish(w: World): World {
    Emit(w, StateChanged(ViewOf(w.chat)))
  }

  function Call(w: World, rpc: Rpc): World {
    w.(log := w.log + [Sent(w.chat.generation, rpc)])
  }

  /** A new async call reaches its first await. */
  function Suspend(w: World, frame: Frame): World {
    w.(pending := w.pending[w.nextId := frame], nextId := w.nextId + 1)
  }

  function Settle(w: World, id: nat, result: Option<bool>): World {
    w.(settled := w.settled[id := result])
  }

  // ----- connect -----

  function Connect(w: World): World {
    var c := w.chat;
    if c.busy || c.connecting || c.connected then w
    else
      var w := Publish(w.(chat := c.(connecting := true, error := "")));
      Suspend(Call(w, Initialize), ConnectFrame(c.generation))
  }

  const INCOMPATIBLE := "This CLI does not support the required Alysis chat protocol. Update the CLI and reconnect."

  function ConnectReplied(w: World, gen: nat, reply: Reply): World {
    var c := w.chat;
    if gen != c.generation then w
    else
      var c := match reply
        case Rejected(message) => c.(connected := false, error := Or(message, "Could not connect to the local agent."))
        case Resolved(b) =>
          if b.protocol != "1" || !(REQUIRED_METHODS <= b.methods)
          then c.(methods := b.methods, connected := false, error := INCOMPATIBLE)
          else c.(methods := b.methods, connected := true);
      Publish(w.(chat := c.(connecting := false)))
  }

  // ----- submit -----

  function Find(requests: seq<Request>, key: string): (i: nat)
    ensures i <= |requests|
    ensures i < |requests| ==> requests[i].key == key
    ensures forall j :: 0 <= j < i ==> requests[j].key != key
  {
    if requests == [] || requests[0].key == key then 0 else 1 + Find(requests[1..], key)
  }

  predicate Known(requests: seq<Request>, key: string) {
    Find(requests, key) < |requests|
  }

  function Remember(requests: seq<Request>, request: Request): seq<Request> {
    var all := requests + [request];
    if |all| > REQUEST_LIMIT then all[1..] else all
  }

  predicate WellFormedId(requestId: string) {
    0 < |requestId| <= 128
  }

  function Instruction(task: Task): string {
    Trim(Clip(task.instruction, INSTRUCTION_LIMIT))
  }

  function SubmitTask(w: World, raw: Task): World {
    var task := raw.(instruction := Instruction(raw));
    if !WellFormedId(task.requestId) then w
    else if Known(w.chat.requests, task.requestId) then Resubmit(w, task)
    else FirstSubmit(w, task)
  }

  /** The id is known: answer with the promise of the earlier call, or refuse another instruction. */
  function Resubmit(w: World, task: Task): World
    requires Known(w.chat.requests, task.requestId)
  {
    var previous := w.chat.requests[Find(w.chat.requests, task.requestId)];
    if previous.instruction != task.instruction then Emit(w, TaskResult(task.requestId, Some(false)))
    else Suspend(w, WaiterFrame(w.chat.generation, task.requestId, previous.call))
  }

  function FirstSubmit(w: World, task: Task): World {
    Register(SubmitOnce(w.(nextId := w.nextId + 1), w.nextId, task),
             Request(task.requestId, task.instruction, w.nextId))
  }

  function Register(w: World, request: Request): World {
    w.(chat := w.chat.(requests := Remember(w.chat.requests, request)))
  }

  /** The checks before a task starts, in the order of the source. */
  function Refusal(c: Chat, task: Task): Option<string> {
    if task.instruction == "" then Some("Enter a task first.")
    else if !c.connected then Some("Connect to the local agent first.")
    else if c.busy then Some("Wait for this task to finish or stop it before sending another message.")
    else if task.instruction[0] == '/'
    then Some("Slash commands are not available in the JetBrains preview. Use the chat controls.")
    else if task.workflow != "" && task.workflow != "chat"
    then Some("Forge is not available in the JetBrains preview yet.")
    else if task.mode !in MODES then Some("Unsupported permissions.")
    else None
  }

  function SubmitOnce(w: World, id: nat, task: Task): World {
    var c := w.chat;
    if Refusal(c, task).Some? then SubmitFailed(w, id, task.requestId, false, None, Refusal(c, task).value)
    else
      var w := Publish(w.(chat := c.(busy := true, status := "starting")));
      if c.sessionId.None? then SubmitWaits(Call(w, SessionCreate(task.mode)), id, task, AwaitCreate)
      else if task.mode == c.mode then SendChat(w, id, task)
      else if "session.setMode" !in c.methods then
        SubmitFailed(w, id, task.requestId, true, None, "Update the CLI to change permissions.")
      else SubmitWaits(Call(w, SetMode(c.sessionId, task.mode)), id, task, AwaitMode)
  }

  function SubmitWaits(w: World, id: nat, task: Task, point: SubmitPoint): World {
    w.(pending := w.pending[id := SubmitFrame(w.chat.generation, task, point)])
  }

  function SendChat(w: World, id: nat, task: Task): World {
    var w := w.(chat := Add(w.chat, UserTurn, task.instruction));
    SubmitWaits(Call(w, ChatSend(w.chat.sessionId, task.instruction, task.requestId)), id, task,
                AwaitSend(w.chat.counter))
  }

  /** The catch block of submitOnce and what follows it, for a call whose generation is still current. */
  function SubmitFailed(w: World, id: nat, key: string, started: bool, userItem: Option<nat>, message: string): World {
    var c := if userItem.Some? then w.chat.(items := Drop(w.chat.items, userItem.value)) else w.chat;
    var c := if started then c.(busy := false, status := "failed") else c;
    var c := Add(c, ErrorNote, Or(message, "The task could not start."));
    Answered(w.(chat := c), id, key, false)
  }

  /** The finally block and the return: answer the sidebar, publish, settle the promise. */
  function Answered(w: World, id: nat, key: string, started: bool): World {
    Settle(Publish(Emit(w, TaskResult(key, Some(started)))), id, Some(started))
  }

  function SubmitReplied(w: World, id: nat, gen: nat, task: Task, point: SubmitPoint, reply: Reply): World {
    if gen != w.chat.generation then Settle(w, id, None)
    else match reply
      case Rejected(message) =>
        SubmitFailed(w, id, task.requestId, true, if point.AwaitSend? then Some(point.userItem) else None, message)
      case Resolved(b) =>
        match point
        case AwaitCreate => SessionCreated(w, id, task, b)
        case AwaitModel => SendChat(w.(chat := w.chat.(model := Or(b.model, Or(b.modelName, w.chat.model)))), id, task)
        case AwaitMode => ModeChanged(w, id, task, b)
        case AwaitSend(item) => ChatSent(w, id, task, item, b)
  }

  function SessionCreated(w: World, id: nat, task: Task, b: Body): World {
    if b.sessionId == ""
    then SubmitFailed(w, id, task.requestId, true, None, "The agent did not create a conversation.")
    else
      var w := w.(chat := w.chat.(sessionId := Some(b.sessionId), mode := Or(b.mode, task.mode), sequence := 0));
      if "session.modelInfo" in w.chat.methods
      then SubmitWaits(Call(w, ModelInfo(w.chat.sessionId)), id, task, AwaitModel)
      else SendChat(w, id, task)
  }

  function ModeChanged(w: World, id: nat, task: Task, b: Body): World {
    var w := w.(chat := w.chat.(mode := Or(b.mode, w.chat.mode)));
    if w.chat.mode != task.mode
    then SubmitFailed(w, id, task.requestId, true, None, "The agent did not accept the selected permissions.")
    else SendChat(w, id, task)
  }

  function ChatSent(w: World, id: nat, task: Task, item: nat, b: Body): World {
    if b.jobId == "" then SubmitFailed(w, id, task.requestId, true, Some(item), "The agent did not start a task.")
    else SubmitAccepted(w, id, task.requestId, b)
  }

  function SubmitAccepted(w: World, id: nat, key: string, b: Body): World {
    var c := w.chat.(jobId := Some(b.jobId), accepted := Some(key), status := Or(b.status, "running"));
    var c := if Terminal(c.status) then Finish(c, c.status) else SchedulePoll(c);
    Answered(w.(chat := c), id, key, true)
  }

  function WaiterReplied(w: World, gen: nat, key: string, result: Option<bool>): World {
    if gen != w.chat.generation then w else Emit(w, TaskResult(key, result))
  }

  // ----- poll -----

  function SchedulePoll(c: Chat): Chat {
    c.(timer := Some(c.generation))
  }

  function TimerFired(w: World): World {
    var c := w.chat;
    if c.timer.None? then w
    else
      var w := w.(chat := c.(timer := None));
      if c.jobId.None? || !c.busy || c.timer.value != c.generation then w
      else Suspend(Call(w, JobStatus(c.jobId.value)), PollFrame(c.generation, c.jobId.value))
  }

  function PollReplied(w: World, gen: nat, reply: Reply): World {
    var c := w.chat;
    if gen != c.generation then w
    else match reply
      case Rejected(message) => Disconnected(w, Or(message, "The local agent stopped responding."))
      case Resolved(b) =>
        var status := Or(b.status, c.status);
        var c := c.(status := status);
        var c := if Terminal(status) then Finish(c, status) else c;
        var w := Publish(w.(chat := c));
        if c.busy then w.(chat := SchedulePoll(c)) else w
  }

  // ----- onEvent -----

  /** The event belongs to the running job and is newer than everything applied so far. */
  predicate Relevant(c: Chat, e: Event) {
    && c.sessionId == Some(e.sessionId) && c.busy
    && (c.jobId.Some? && e.jobId != "" ==> e.jobId == c.jobId.value)
  }

  predicate Newer(sequence: int, e: Event) {
    e.sequence.Some? && -MAX_SAFE_INTEGER <= e.sequence.value <= MAX_SAFE_INTEGER && sequence < e.sequence.value
  }

  function OnEvent(w: World, e: Event): World {
    if !Relevant(w.chat, e) || !Newer(w.chat.sequence, e) then w
    else
      var c := w.chat.(sequence := e.sequence.value);
      if Unseen(c, e) then w.(chat := c) else Publish(w.(chat := ApplyEvent(c, e)))
  }

  /** Child-worker streams, repeated final messages and repeated prompts advance the sequence and nothing else. */
  predicate Unseen(c: Chat, e: Event) {
    || e.child
    || (e.kind.MessageEnd? && RepeatsLast(c, e))
    || (e.kind.Prompt? && e.isApproval && exists i :: 0 <= i < |c.items| && c.items[i].approvalId == e.approvalId)
  }

  function ApplyEvent(c: Chat, e: Event): Chat {
    match e.kind
    case MessageDelta => ApplyText(c, e)
    case MessageEnd => ApplyText(c, e)
    case Prompt =>
      if e.isApproval then Add(c, Approval, Clip(Or(e.reason, e.promptText), TEXT_LIMIT), Pending, e.approvalId,
                               e.allowForSession)
      else c
    case ErrorRaised => Add(c, ErrorNote, Or(Clip(Or(e.message, e.error), 4000), "The agent reported an error."))
    case ToolStarted => Add(c, Notice, "Using " + Or(Clip(Or(e.toolName, e.name), 100), "a tool") + "…")
    case OtherEvent => c
  }

  predicate StreamOpen(c: Chat) {
    c.items != [] && c.items[|c.items| - 1].kind.Assistant? && c.items[|c.items| - 1].status.Streaming?
  }

  /** A final message whose text is already shown by the finished assistant item at the end. */
  predicate RepeatsLast(c: Chat, e: Event) {
    && !StreamOpen(c) && c.items != []
    && c.items[|c.items| - 1].kind.Assistant? && e.text == Some(c.items[|c.items| - 1].text)
  }

  function Preview(s: string): string {
    if |s| > TEXT_LIMIT then s[..99950] + TRUNCATED else s
  }

  function ApplyText(c: Chat, e: Event): Chat {
    var base := if StreamOpen(c) then c else Add(c, Assistant, "", Streaming);
    var item := if StreamOpen(c) then c.items[|c.items| - 1]
                else Item(base.counter, Assistant, "", Streaming, None, false);
    var next := if e.kind.MessageEnd? && e.text.Some? then e.text.value
                else item.text + (if e.text.Some? then Clip(e.text.value, TEXT_LIMIT) else "");
    var item := item.(text := Preview(next), status := if e.kind.MessageEnd? then Complete else item.status);
    base.(items := WithItem(base.items, item))
  }

  // ----- approve, cancel, newSession, disconnected -----

  function FindPending(items: seq<Item>, approvalId: Option<string>): (i: nat)
    ensures i <= |items|
    ensures i < |items| ==> items[i].approvalId == approvalId && items[i].status.Pending?
  {
    if items == [] || (items[0].approvalId == approvalId && items[0].status.Pending?) then 0
    else 1 + FindPending(items[1..], approvalId)
  }

  function ApproveItem(w: World, approvalId: Option<string>, decision: Option<Decision>): World {
    var c := w.chat;
    var i := FindPending(c.items, approvalId);
    if i == |c.items| || c.sessionId.None? || !c.busy || decision.None? then w
    else if decision.value == AllowForSession && !c.items[i].allowForSession then w
    else Suspend(Call(w, ApprovalRespond(c.sessionId, approvalId, decision.value != Deny,
                                         decision.value == AllowForSession)),
                 ApproveFrame(c.generation, c.items[i].id, decision.value))
  }

  function SetStatus(items: seq<Item>, id: nat, status: ItemStatus): seq<Item> {
    seq(|items|, i requires 0 <= i < |items| => if items[i].id == id then items[i].(status := status) else items[i])
  }

  function ApproveReplied(w: World, gen: nat, item: nat, decision: Decision, reply: Reply): World {
    match reply
    case Rejected(message) => Suspend(w, CatchFrame(gen, message))
    case Resolved(b) =>
      if gen != w.chat.generation then w
      else
        var status := if b.status == "expired" then Expired else Decided(decision);
        Publish(w.(chat := w.chat.(items := SetStatus(w.chat.items, item, status))))
  }

  function Cancel(w: World): World {
    var c := w.chat;
    if !c.busy || c.sessionId.None? then w
    else Suspend(Call(w, SessionCancel(c.sessionId)), CancelFrame(c.generation))
  }

  function CancelReplied(w: World, gen: nat, reply: Reply): World {
    match reply
    case Rejected(message) => Suspend(w, CatchFrame(gen, message))
    case Resolved(b) =>
      if gen != w.chat.generation then w
      else
        var status := Or(b.status, "cancellation_requested");
        var c := w.chat.(status := status);
        var c := if status == "closed" then Finish(c.(sessionId := None), "cancelled")
                 else if Terminal(status) then Finish(c, status) else c;
        Publish(w.(chat := c))
  }

  function NewSession(w: World): World {
    var c := w.chat;
    if c.busy then Suspend(w, CatchFrame(c.generation, "Stop the current task before starting a new one."))
    else
      var w := Publish(w.(chat := c.(busy := true)));
      if c.sessionId.None? then SessionCleared(w)
      else Suspend(Call(w, SessionCancel(c.sessionId)), NewSessionFrame(c.generation))
  }

  function NewSessionReplied(w: World, gen: nat, reply: Reply): World {
    match reply
    case Rejected(message) =>
      var w := if gen == w.chat.generation then w.(chat := w.chat.(busy := false)) else w;
      Suspend(w, CatchFrame(gen, message))
    case Resolved(_) => if gen != w.chat.generation then w else SessionCleared(w)
  }

  function SessionCleared(w: World): World {
    var c := w.chat;
    Publish(w.(chat := c.(generation := c.generation + 1, busy := false, sessionId := None, jobId := None,
                          items := [], requests := [], accepted := None, status := "idle")))
  }

  function Disconnected(w: World, reason: string): World {
    var c := w.chat.(generation := w.chat.generation + 1, timer := None, connected := false,
                     connecting := false, requests := [], accepted := None, error := reason);
    Publish(w.(chat := Finish(c, "interrupted").(sessionId := None)))
  }

  // ----- handle -----

  function Caught(w: World, gen: nat, message: string): World {
    if gen != w.chat.generation then w
    else Publish(w.(chat := Add(w.chat, ErrorNote, Or(message, "The action could not complete."))))
  }

  function ChangeMode(w: World, mode: string): World {
    var c := w.chat;
    if mode !in MODES || c.busy then w
    else if c.sessionId.None? then Publish(w.(chat := c.(mode := mode)))
    else if "session.setMode" !in c.methods then Caught(w, c.generation, "Update the CLI to change permissions.")
    else Suspend(Call(w, SetMode(c.sessionId, mode)), ModeFrame(c.generation))
  }

  function Handle(w: World, m: Message): World {
    match m
    case Malformed => w
    case Ready => Publish(w)
    case Submit(task) => SubmitTask(w, task)
    case CancelTask => Cancel(w)
    case Approve(approvalId, decision) => ApproveItem(w, approvalId, decision)
    case SetModeTo(mode) => ChangeMode(w, mode)
    case NewTask => NewSession(w)
    case Reconnect => Connect(w)
    case LocateCli => if w.chat.busy then w else Suspend(Call(w, NativeAction), ConfigureFrame(w.chat.generation))
    case Native => Suspend(Call(w, NativeAction), NativeFrame(w.chat.generation))
    case Unsupported => Caught(w, w.chat.generation, "This action is not available in the JetBrains preview yet.")
  }

  // ----- Steps -----

  /** A waiter cannot resume before the promise it awaits has settled; every other call can, with any reply. */
  predicate Enabled(w: World, id: nat) {
    id in w.pending && (w.pending[id].WaiterFrame? ==> w.pending[id].call in w.settled)
  }

  function Replied(w: World, id: nat, frame: Frame, reply: Reply): World
    requires frame.WaiterFrame? ==> frame.call in w.settled
  {
    match frame
    case ConnectFrame(gen) => ConnectReplied(w, gen, reply)
    case SubmitFrame(gen, task, point) => SubmitReplied(w, id, gen, task, point, reply)
    case WaiterFrame(gen, key, call) => WaiterReplied(w, gen, key, w.settled[call])
    case PollFrame(gen, _) => PollReplied(w, gen, reply)
    case ApproveFrame(gen, item, decision) => ApproveReplied(w, gen, item, decision, reply)
    case CancelFrame(gen) => CancelReplied(w, gen, reply)
    case NewSessionFrame(gen) => NewSessionReplied(w, gen, reply)
    case ModeFrame(gen) =>
      (match reply
       case Rejected(message) => Caught(w, gen, message)
       case Resolved(b) =>
         if gen != w.chat.generation then w else Publish(w.(chat := w.chat.(mode := Or(b.mode, w.chat.mode)))))
    case ConfigureFrame(gen) =>
      (match reply
       case Rejected(message) => Caught(w, gen, message)
       case Resolved(b) => if b.confirmed then Connect(Disconnected(w, "")) else w)
    case NativeFrame(gen) => (match reply case Rejected(message) => Caught(w, gen, message) case Resolved(_) => w)
    case CatchFrame(gen, message) => Caught(w, gen, message)
  }

  function Step(w: World, input: Input): World {
    match input
    case Deliver(message) => Handle(w, message)
    case HostEvent(event) => OnEvent(w, event)
    case HostDisconnected(reason) => Disconnected(w, reason)
    case Resume(id, reply) =>
      if !Enabled(w, id) then w else Replied(w.(pending := w.pending - {id}), id, w.pending[id], reply)
    case TimerFires => TimerFired(w)
  }

  function Run(w: World, inputs: seq<Input>): World
    decreases |inputs|
  {
    if inputs == [] then w else Step(Run(w, inputs[..|inputs| - 1]), inputs[|inputs| - 1])
  }

  const INITIAL_CHAT := Chat("review", [], None, None, "idle", false, false, false, 0, 0, 0, {}, None, "",
                             "CLI configuration", [], None)
  const INITIAL := World(INITIAL_CHAT, map[], 0, map[], [])

  /** `dispose()` ends the life of the object. */
  function Disposed(w: World): World {
    w.(chat := w.chat.(generation := w.chat.generation + 1, timer := None))
  }
}
