/**
 The composer's half of the hand-off: what the sidebar does with a draft from the click on Send until
 the host has answered, through timeouts, late answers and reloads.

 `State` holds the composer's variables, `saved` is what the editor keeps across a reload, and `posts`
 lists every `task.submit` message sent to the host. The timer behind the 120-second timeout and the
 message channel are inputs that may come at any time, in any order.
 */
module Composer {
  import opened Wrappers
  import opened Text

  const MAX_TASK_CHARS := 20000
  const MODES := {"readonly", "review", "auto"}

  datatype Post = Post(requestId: string, instruction: string, mode: string, workflow: string)

  /** A task that waits for its answer, or that waits to be sent again; no task has the empty id. */
  const NO_TASK := Post("", "", "review", "chat")

  datatype State = State(
    draft: string, pending: Post, taskPending: bool, retry: Post,
    saved: Saved, posts: seq<Post>)

  datatype Saved = Saved(draft: string, pending: Post, retry: Post)

  datatype Input =
    | Send(ready: bool, mode: string, workflow: string, newId: string)
    | TimedOut
    | TaskResult(requestId: string, started: bool)
    | StateSays(lastAccepted: Option<string>)
    | Edit(text: string)
    | Reload

  const INITIAL := State("", NO_TASK, false, NO_TASK, Saved("", NO_TASK, NO_TASK), [])

  // ----- Operations -----

  function Persist(s: State): State {
    s.(saved := Saved(s.draft, s.pending, s.retry))
  }

  /** The retained id is reused only for exactly the task it was created for. */
  function IdFor(s: State, instruction: string, mode: string, workflow: string, newId: string): string {
    if s.retry == Post(s.retry.requestId, instruction, mode, workflow) && s.retry.requestId != ""
    then s.retry.requestId else newId
  }

  function SubmitCurrentTask(s: State, ready: bool, mode: string, workflow: string, newId: string): State {
    var instruction := Trim(s.draft);
    if !ready || s.taskPending || instruction == "" || |instruction| > MAX_TASK_CHARS || mode !in MODES then s
    else
      var post := Post(IdFor(s, instruction, mode, workflow, newId), instruction, mode, workflow);
      Persist(s.(draft := "", pending := post, taskPending := true, retry := NO_TASK)).(posts := s.posts + [post])
  }

  function Restored(pending: string, draft: string): string {
    pending + (if Trim(draft) == "" then "" else "\n\n" + Trim(draft))
  }

  function RestorePendingTask(s: State): State {
    if s.pending.instruction == "" then s.(taskPending := false)
    else
      Persist(s.(draft := Restored(s.pending.instruction, s.draft), retry := s.pending, taskPending := false,
                 pending := s.pending.(instruction := "", requestId := "")))
  }

  /** What is left of a draft once the task restored into it turns out to have been accepted. */
  function WithoutRestored(draft: string, instruction: string): string {
    if Trim(draft) == instruction then ""
    else if instruction + "\n\n" <= draft then draft[|instruction| + 2..]
    else draft
  }

  function AcknowledgeAcceptedTask(s: State, requestId: string): State {
    if requestId == "" then s
    else
      var s := if s.pending.requestId == requestId
               then s.(pending := s.pending.(instruction := "", requestId := ""), taskPending := false) else s;
      var s := if s.retry.requestId == requestId
               then s.(draft := WithoutRestored(s.draft, s.retry.instruction), retry := NO_TASK) else s;
      Persist(s)
  }

  function TaskResultArrived(s: State, requestId: string, started: bool): State {
    if requestId != "" && s.pending.requestId != "" && requestId != s.pending.requestId then s
    else if started then AcknowledgeAcceptedTask(s, if requestId != "" then requestId else s.pending.requestId)
    else RestorePendingTask(s)
  }

  function SavedTask(post: Post): Post {
    Post(Clip(post.requestId, 128), Clip(post.instruction, MAX_TASK_CHARS),
         if post.mode in MODES then post.mode else "review", if post.workflow == "forge" then "forge" else "chat")
  }

  function Reloaded(s: State): State {
    var pending := SavedTask(s.saved.pending);
    s.(draft := s.saved.draft, pending := pending, retry := SavedTask(s.saved.retry),
       taskPending := pending.instruction != "" && pending.requestId != "")
  }

  function Step(s: State, input: Input): State {
    match input
    case Send(ready, mode, workflow, newId) => SubmitCurrentTask(s, ready, mode, workflow, newId)
    case TimedOut => if !s.taskPending || s.pending.instruction == "" then s else RestorePendingTask(s)
    case TaskResult(requestId, started) => TaskResultArrived(s, requestId, started)
    case StateSays(accepted) => if accepted.Some? then AcknowledgeAcceptedTask(s, accepted.value) else s
    case Edit(text) => Persist(s.(draft := text))
    case Reload => Reloaded(s)
  }

  function Run(inputs: seq<Input>): State
    decreases |inputs|
  {
    if inputs == [] then INITIAL else Step(Run(inputs[..|inputs| - 1]), inputs[|inputs| - 1])
  }

  // ----- Ids -----

  predicate Used(posts: seq<Post>, id: string) {
    exists i :: 0 <= i < |posts| && posts[i].requestId == id
  }

  /** `createRequestId` never repeats itself and fits the host's limit; the workflow is one of the two there are. */
  predicate Fresh(s: State, input: Input) {
    input.Send? ==>
      && 0 < |input.newId| <= 128 && !Used(s.posts, input.newId)
      && (input.workflow == "chat" || input.workflow == "forge")
  }

  ghost predicate FreshRun(inputs: seq<Input>)
    decreases |inputs|
  {
    inputs == [] || (FreshRun(inputs[..|inputs| - 1]) && Fresh(Run(inputs[..|inputs| - 1]), inputs[|inputs| - 1]))
  }

  /** A task as the composer posts it. */
  predicate Postable(p: Post) {
    && 0 < |p.requestId| <= 128 && p.instruction != "" && |p.instruction| <= MAX_TASK_CHARS && Trimmed(p.instruction)
    && p.mode in MODES && (p.workflow == "chat" || p.workflow == "forge")
  }

  /** An empty slot, or a task that was posted. */
  predicate Slot(p: Post, posts: seq<Post>) {
    if p.requestId == "" then p.instruction == "" && p.mode in MODES && (p.workflow == "chat" || p.workflow == "forge")
    else p in posts
  }

  ghost predicate Consistent(posts: seq<Post>) {
    && (forall p :: p in posts ==> Postable(p))
    && (forall p, q :: p in posts && q in posts && p.requestId == q.requestId ==> p == q)
  }

  ghost predicate Valid(s: State) {
    && Consistent(s.posts)
    && Slot(s.pending, s.posts) && Slot(s.retry, s.posts)
    && s.saved.pending == s.pending && s.saved.retry == s.retry
  }

  lemma SubmitKeeps(s: State, ready: bool, mode: string, workflow: string, newId: string)
    requires Valid(s) && Fresh(s, Send(ready, mode, workflow, newId))
    ensures Valid(SubmitCurrentTask(s, ready, mode, workflow, newId))
  {
    TrimSpec(s.draft);
    var v := SubmitCurrentTask(s, ready, mode, workflow, newId);
    if v.posts != s.posts {
      var post := v.pending;
      forall p | p in s.posts && p.requestId == post.requestId ensures p == post {
        var i :| 0 <= i < |s.posts| && s.posts[i] == p;
        assert post.requestId == newId ==> Used(s.posts, newId);
      }
      assert forall p :: p in v.posts <==> p in s.posts || p == post;
    }
  }

  lemma SavedTaskExact(p: Post, posts: seq<Post>)
    requires Consistent(posts) && Slot(p, posts)
    ensures SavedTask(p) == p
  {
  }

  lemma StepKeeps(s: State, input: Input)
    requires Valid(s) && Fresh(s, input)
    ensures Valid(Step(s, input))
  {
    match input
    case Send(ready, mode, workflow, newId) => SubmitKeeps(s, ready, mode, workflow, newId);
    case Reload => SavedTaskExact(s.pending, s.posts); SavedTaskExact(s.retry, s.posts);
    case _ =>
  }

  /**
   One id, one task: over every run with fresh ids, through timeouts, late answers, edits and reloads,
   two posts that carry the same request id carry the same instruction, mode and workflow.
   */
  lemma {:induction false} OneIdOneTask(inputs: seq<Input>)
    requires FreshRun(inputs)
    ensures Valid(Run(inputs))
    decreases |inputs|
  {
    if inputs != [] {
      OneIdOneTask(inputs[..|inputs| - 1]);
      StepKeeps(Run(inputs[..|inputs| - 1]), inputs[|inputs| - 1]);
    }
  }

  // ----- Acceptance is final -----

  /** The composer neither waits for the id nor keeps it for a retry. */
  predicate Forgot(s: State, id: string) {
    s.pending.requestId != id && s.retry.requestId != id
  }

  lemma AcknowledgedIsForgotten(s: State, id: string)
    requires id != ""
    ensures Forgot(AcknowledgeAcceptedTask(s, id), id)
  {
  }

  lemma StaysForgotten(s: State, input: Input, id: string)
    requires Valid(s) && Fresh(s, input) && Used(s.posts, id) && Forgot(s, id)
    ensures var v := Step(s, input);
            Forgot(v, id) && Used(v.posts, id)
            && (v.posts == s.posts || (|v.posts| == |s.posts| + 1 && s.posts <= v.posts
                                       && v.posts[|s.posts|].requestId != id))
  {
    hide SubmitCurrentTask, SavedTask;
    var v := Step(s, input);
    var i :| 0 <= i < |s.posts| && s.posts[i].requestId == id;
    assert Postable(s.posts[i]);
    match input
    case Send(ready, mode, workflow, newId) => SendForgets(s, ready, mode, workflow, newId, id);
    case Reload => SavedTaskExact(s.pending, s.posts); SavedTaskExact(s.retry, s.posts);
    case _ =>
  }

  lemma SendForgets(s: State, ready: bool, mode: string, workflow: string, newId: string, id: string)
    requires !Used(s.posts, newId) && Used(s.posts, id) && Forgot(s, id) && id != ""
    ensures var v := SubmitCurrentTask(s, ready, mode, workflow, newId);
            Forgot(v, id) && Used(v.posts, id)
            && (v.posts == s.posts || (|v.posts| == |s.posts| + 1 && s.posts <= v.posts
                                       && v.posts[|s.posts|].requestId != id))
  {
    var v := SubmitCurrentTask(s, ready, mode, workflow, newId);
    var i :| 0 <= i < |s.posts| && s.posts[i].requestId == id;
    assert v.posts[i] == s.posts[i];
  }

  function RunFrom(s: State, inputs: seq<Input>): State
    decreases |inputs|
  {
    if inputs == [] then s else Step(RunFrom(s, inputs[..|inputs| - 1]), inputs[|inputs| - 1])
  }

  ghost predicate FreshFrom(s: State, inputs: seq<Input>)
    decreases |inputs|
  {
    inputs == [] || (FreshFrom(s, inputs[..|inputs| - 1])
                     && Fresh(RunFrom(s, inputs[..|inputs| - 1]), inputs[|inputs| - 1]))
  }

  /** The posts of `v` extend those of `s`, and the added ones do not carry the id. */
  ghost predicate NoNewPost(s: State, v: State, id: string) {
    s.posts <= v.posts && forall i :: |s.posts| <= i < |v.posts| ==> v.posts[i].requestId != id
  }

  lemma AcknowledgedStart(s: State, id: string)
    requires Valid(s) && Used(s.posts, id)
    ensures var v := AcknowledgeAcceptedTask(s, id); Valid(v) && Forgot(v, id) && v.posts == s.posts
  {
    var i :| 0 <= i < |s.posts| && s.posts[i].requestId == id;
    assert Postable(s.posts[i]);
    AcknowledgedIsForgotten(s, id);
    StepKeeps(s, StateSays(Some(id)));
  }

  /** Once the sidebar has seen that a request was accepted, it never posts that id again, whatever happens. */
  lemma {:induction false} AcceptedIsNeverResent(s: State, id: string, inputs: seq<Input>)
    requires Valid(s) && Used(s.posts, id) && FreshFrom(AcknowledgeAcceptedTask(s, id), inputs)
    ensures var v := RunFrom(AcknowledgeAcceptedTask(s, id), inputs);
            Valid(v) && Forgot(v, id) && Used(v.posts, id) && NoNewPost(s, v, id)
    decreases |inputs|
  {
    hide Step, AcknowledgeAcceptedTask, Valid, Fresh, Forgot, Used;
    if inputs == [] {
      AcknowledgedStart(s, id);
    } else {
      var before := RunFrom(AcknowledgeAcceptedTask(s, id), inputs[..|inputs| - 1]);
      AcceptedIsNeverResent(s, id, inputs[..|inputs| - 1]);
      StepKeeps(before, inputs[|inputs| - 1]);
      StaysForgotten(before, inputs[|inputs| - 1], id);
    }
  }

  // ----- A late answer gives the draft back -----

  lemma RestoredRoundTrip(instruction: string, draft: string)
    requires instruction != "" && Trimmed(instruction)
    ensures WithoutRestored(Restored(instruction, draft), instruction) == Trim(draft)
  {
    TrimSpec(draft);
    var next := Trim(draft);
    var restored := Restored(instruction, draft);
    if next == "" {
      assert restored == instruction;
      TrimSpec(instruction);
    } else {
      assert restored == instruction + "\n\n" + next;
      assert restored[0] == instruction[0] && restored[|restored| - 1] == next[|next| - 1];
      TrimSpec(restored);
      assert restored[|instruction| + 2..] == next;
    }
  }

  /**
   A timeout puts the unanswered task back in front of what was typed meanwhile; when its acceptance
   arrives after all, exactly the typed text is left, and the task is not kept for a retry.
   */
  lemma LateAckRestoresDraft(s: State)
    requires Valid(s) && s.taskPending && s.pending.requestId != ""
    ensures var timedOut := Step(s, TimedOut);
            var late := Step(timedOut, TaskResult(s.pending.requestId, true));
            && timedOut.draft == Restored(s.pending.instruction, s.draft) && timedOut.retry == s.pending
            && late.draft == Trim(s.draft) && late.retry == NO_TASK && !late.taskPending && late.posts == s.posts
  {
    assert Postable(s.pending);
    RestoredRoundTrip(s.pending.instruction, s.draft);
  }

  /** The task in front of what has been typed since. */
  predicate Returned(s: State, v: State) {
    && v.draft == (if Trim(s.draft) == "" then s.pending.instruction
                   else s.pending.instruction + "\n\n" + Trim(s.draft))
    && v.retry == s.pending && !v.taskPending && v.pending.instruction == "" && v.pending.requestId == ""
    && v.posts == s.posts && v.saved == Saved(v.draft, v.pending, v.retry)
  }

  /**
   A task that is refused or times out comes back: it stands in front of what was typed meanwhile, nothing is
   pending, and when it is sent again unchanged, it goes out under its old id.
   */
  lemma UnansweredComesBack(s: State, input: Input, text: string, newId: string)
    requires Valid(s) && s.taskPending && s.pending.requestId != ""
    requires input == TimedOut || input == TaskResult(s.pending.requestId, false) || input == TaskResult("", false)
    ensures Returned(s, Step(s, input))
    ensures Trim(text) == s.pending.instruction ==>
              Step(Step(Step(s, input), Edit(text)), Send(true, s.pending.mode, s.pending.workflow, newId)).posts
              == s.posts + [s.pending]
  {
    assert Postable(s.pending);
  }

  /** An acceptance leaves the draft alone, and an answer to another task changes nothing. */
  lemma AnswerSettles(s: State, id: string, started: bool)
    requires Valid(s) && s.pending.requestId != "" && s.retry.requestId != s.pending.requestId
    ensures var v := Step(s, TaskResult(id, started));
            && (id == s.pending.requestId && started ==>
                  v.draft == s.draft && v.retry == s.retry && v.posts == s.posts && !v.taskPending
                  && v.pending.requestId == "" && v.pending.instruction == "")
            && (id != "" && id != s.pending.requestId ==> v == s)
  {
  }

  /**
   A click on Send posts the trimmed draft, once, exactly if it may; what is posted is pending and the
   draft is empty.
   */
  lemma SendPostsDraft(s: State, ready: bool, mode: string, workflow: string, newId: string)
    requires Valid(s)
    ensures var v := Step(s, Send(ready, mode, workflow, newId));
            var text := Trim(s.draft);
            if ready && !s.taskPending && 0 < |text| <= 20000 && mode in ["readonly", "review", "auto"]
            then && |v.posts| == |s.posts| + 1 && v.posts[..|s.posts|] == s.posts
                 && v.pending == v.posts[|s.posts|] && v.taskPending && v.draft == "" && v.retry == NO_TASK
                 && v.pending.instruction == text && v.pending.mode == mode && v.pending.workflow == workflow
                 && v.pending.requestId ==
                      (if s.retry.requestId != "" && s.retry.instruction == text && s.retry.mode == mode
                          && s.retry.workflow == workflow then s.retry.requestId else newId)
                 && v.saved == Saved("", v.pending, NO_TASK)
            else v == s
  {
  }

  /** A task that timed out and is sent again unchanged, even after a reload, goes out under its old id. */
  lemma RetryReusesId(s: State, newId: string)
    requires Valid(s) && s.taskPending && s.pending.requestId != "" && Trim(s.draft) == ""
    ensures var back := Step(Step(s, TimedOut), Reload);
            var again := Step(back, Send(true, s.pending.mode, s.pending.workflow, newId));
            again.posts == s.posts + [s.pending]
  {
    assert Postable(s.pending);
    SavedTaskExact(s.pending, s.posts);
    TrimSpec(s.pending.instruction);
  }

  // ----- The sidebar's variables -----

  /** The composer as the source has it: functions that assign shared variables. */
  class ComposerView {
    var draft: string
    var pending: Post
    var taskPending: bool
    var retry: Post
    var saved: Saved
    var posts: seq<Post>

    function Value(): State
      reads this
    {
      State(draft, pending, taskPending, retry, saved, posts)
    }

    constructor ()
      ensures Value() == INITIAL
    {
      draft, pending, taskPending, retry, saved, posts := "", NO_TASK, false, NO_TASK, Saved("", NO_TASK, NO_TASK), [];
    }

    method PersistDraft()
      modifies this`saved
      ensures Value() == Persist(old(Value()))
    {
      saved := Saved(draft, pending, retry);
    }

    method Submit(ready: bool, mode: string, workflow: string, newId: string)
      modifies this
      ensures Value() == Step(old(Value()), Send(ready, mode, workflow, newId))
    {
      var instruction := Trim(draft);
      if !ready || taskPending || instruction == "" || |instruction| > MAX_TASK_CHARS || mode !in MODES { return; }
      var requestId := newId;
      if retry.requestId != "" && retry.instruction == instruction && retry.mode == mode && retry.workflow == workflow {
        requestId := retry.requestId;
      }
      pending := Post(requestId, instruction, mode, workflow);
      retry := NO_TASK;
      draft := "";
      taskPending := true;
      PersistDraft();
      posts := posts + [pending];
    }

    method RestorePending()
      modifies this
      ensures Value() == RestorePendingTask(old(Value()))
    {
      if pending.instruction == "" {
        taskPending := false;
        return;
      }
      var nextDraft := Trim(draft);
      draft := pending.instruction + (if nextDraft != "" then "\n\n" + nextDraft else "");
      retry := pending;
      pending := pending.(instruction := "", requestId := "");
      taskPending := false;
      PersistDraft();
    }

    method AcknowledgeAccepted(requestId: string)
      modifies this
      ensures Value() == AcknowledgeAcceptedTask(old(Value()), requestId)
    {
      if requestId == "" { return; }
      if pending.requestId == requestId {
        pending := pending.(instruction := "", requestId := "");
        taskPending := false;
      }
      if retry.requestId == requestId {
        if Trim(draft) == retry.instruction {
          draft := "";
        } else if retry.instruction + "\n\n" <= draft {
          draft := draft[|retry.instruction| + 2..];
        }
        retry := NO_TASK;
      }
      PersistDraft();
    }

    method OnTaskResult(requestId: string, started: bool)
      modifies this
      ensures Value() == Step(old(Value()), TaskResult(requestId, started))
    {
      if requestId != "" && pending.requestId != "" && requestId != pending.requestId { return; }
      if started {
        AcknowledgeAccepted(if requestId != "" then requestId else pending.requestId);
      } else {
        RestorePending();
      }
    }

    method OnAckTimeout()
      modifies this
      ensures Value() == Step(old(Value()), TimedOut)
    {
      if taskPending && pending.instruction != "" {
        RestorePending();
      }
    }
  }
}
