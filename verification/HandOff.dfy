/** The hand-off end to end: the composer's posts, in any order and number, against the chat host. */
module HandOff {
  import opened Wrappers
  import opened Text
  import C = Composer
  import S = ChatSpec
  import H = HostHandOff

  function TaskOf(p: C.Post): S.Task {
    S.Task(p.requestId, p.instruction, p.mode, p.workflow)
  }

  /** Every `task.submit` the host receives was posted; the channel may delay, drop, repeat and reorder. */
  ghost predicate Carried(inputs: seq<S.Input>, posts: seq<C.Post>) {
    forall i :: 0 <= i < |inputs| && inputs[i].Deliver? && inputs[i].message.Submit? ==>
      exists p :: p in posts && inputs[i].message.task == TaskOf(p)
  }

  lemma PostKeepsInstruction(p: C.Post)
    requires C.Postable(p)
    ensures S.Instruction(TaskOf(p)) == p.instruction
  {
    TrimSpec(p.instruction);
  }

  /**
   At most once, end to end: for every run of the composer and every interleaving of the host that
   receives its posts, a posted task whose entry survives is sent to the agent at most once, with the
   instruction that was typed; every answer given for it is the same.
   */
  lemma {:induction false} AtMostOnce(composer: seq<C.Input>, host: seq<S.Input>, post: C.Post)
    requires C.FreshRun(composer) && Carried(host, C.Run(composer).posts)
    requires post in C.Run(composer).posts && H.Survives(host, post.requestId)
    ensures var log := S.Run(S.INITIAL, host).log;
            && H.OneSend(log, post.requestId, post.instruction)
            && (forall i, j :: 0 <= i < |log| && 0 <= j < |log|
                  && H.ResultOf(log[i], post.requestId) && H.ResultOf(log[j], post.requestId)
                  ==> log[i].message.started == log[j].message.started)
            && (forall i :: 0 <= i < |log| && H.ResultOf(log[i], post.requestId) && log[i].message.started == Some(true)
                  ==> H.HasSend(log, post.requestId))
  {
    var posts := C.Run(composer).posts;
    C.OneIdOneTask(composer);
    forall i | 0 <= i < |host| ensures H.Agrees(host[i], post.requestId, post.instruction) {
      if host[i].Deliver? && host[i].message.Submit? && host[i].message.task.requestId == post.requestId {
        var p :| p in posts && host[i].message.task == TaskOf(p);
        assert p == post;
        PostKeepsInstruction(p);
      }
    }
    H.HostHandsOffOnce(host, post.requestId, post.instruction);
  }
}
