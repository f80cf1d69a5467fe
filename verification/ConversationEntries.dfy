/** How the webview turns the items of the transcript into the entries it shows. */
module ConversationEntries {
  import R = Reconcile
  import Text

  /** `rest` stands for the fields that play no part in the grouping. */
  datatype Item = Item(id: string, kind: string, turnLevel: bool, status: string, text: string, rest: string)
  datatype Shown =
    | Single(item: Item)
    | Work(id: string, tools: seq<Item>, phase: string)
    | Thinking(id: string, title: string)
  datatype Conversation = Conversation(items: seq<Item>, jobStatus: string, running: bool, sessionId: string)

  // ----- Statuses -----

  /** `toLowerCase`, as far as comparing with ASCII words goes; the Kelvin sign becomes a "k". */
  function LowerChar(c: char): char {
    if 'A' <= c <= 'Z' then ((c as int) + 32) as char
    else if c as int == 0x212A then 'k'
    else c
  }

  function Lower(s: string): string {
    seq(|s|, i requires 0 <= i < |s| => LowerChar(s[i]))
  }

  predicate IsCompleteStatus(status: string) {
    Lower(status) in ["complete", "completed", "ok", "success", "succeeded"]
  }

  predicate IsActiveStatus(status: string) {
    Lower(status) in ["running", "pending", "queued", "starting", ""]
  }

  datatype WorkStatus = Stopped | Ended | Failed | Complete | Running

  function NormalizedWorkStatus(status: string): WorkStatus {
    var value := Lower(status);
    if value in ["cancelled", "canceled", "stopped"] then Stopped
    else if value == "ended" then Ended
    else if value in ["failed", "error"] then Failed
    else if IsCompleteStatus(value) then Complete
    else Running
  }

  predicate AllComplete(tools: seq<Item>) {
    forall t :: t in tools ==> NormalizedWorkStatus(t.status) == Complete
  }

  // ----- What is to be seen -----

  predicate Visible(item: Item) {
    !(item.kind == "tool" && item.turnLevel) && !(item.kind == "assistant" && Text.Trim(item.text) == "")
  }

  predicate Terminal(c: Conversation) {
    c.jobStatus in ["cancelled", "failed", "completed", "needs_attention"]
  }

  /** A tool that a finished job left active is shown as stopped or ended. */
  function Settled(c: Conversation, item: Item): Item {
    if item.kind == "tool" && Terminal(c) && !c.running && IsActiveStatus(item.status)
    then item.(status := if c.jobStatus == "cancelled" then "stopped" else "ended")
    else item
  }

  /**
   A tool of a finished job that still claims to be at work is shown as stopped if the job was cancelled, and
   as ended otherwise; every other item is shown as it is.
   */
  lemma ToolsAreSettled(c: Conversation, item: Item)
    ensures !c.running && item.kind == "tool" && item.status in ["", "running", "pending", "queued", "starting"] ==>
              && (c.jobStatus == "cancelled" ==> Settled(c, item) == item.(status := "stopped"))
              && (c.jobStatus in ["failed", "completed", "needs_attention"] ==>
                    Settled(c, item) == item.(status := "ended"))
    ensures c.running || item.kind != "tool" || item.status in ["complete", "completed", "failed", "error", "cancelled"]
            ==> Settled(c, item) == item
  {
    LowerWords(item.status);
  }

  lemma LowerWords(s: string)
    ensures s in ["", "running", "pending", "queued", "starting", "complete", "completed", "failed", "error",
                  "cancelled"]
            ==> Lower(s) == s
  {
  }

  /** The items to be seen, in order. */
  function Seen(c: Conversation, items: seq<Item>): seq<Item> {
    if items == [] then []
    else
      var last := items[|items| - 1];
      Seen(c, items[..|items| - 1]) + if Visible(last) then [Settled(c, last)] else []
  }

  /** The items behind a list of entries, in order. */
  function Flat(entries: seq<Shown>): seq<Item> {
    if entries == [] then []
    else Flat(entries[..|entries| - 1]) + match entries[|entries| - 1] {
      case Single(item) => [item]
      case Work(_, tools, _) => tools
      case Thinking(_, _) => []
    }
  }

  /** Entries as the grouping loop builds them: maximal runs of tools, each named after its first. */
  predicate WellGrouped(entries: seq<Shown>) {
    && (forall i :: 0 <= i < |entries| ==>
          match entries[i] {
            case Single(item) => item.kind != "tool"
            case Work(id, tools, _) =>
              tools != [] && id == "work:" + tools[0].id && forall t :: t in tools ==> t.kind == "tool"
            case Thinking(_, _) => false
          })
    && forall i :: 0 < i < |entries| ==> !(entries[i - 1].Work? && entries[i].Work?)
  }

  function Id(e: Shown): string {
    match e
    case Single(item) => item.id
    case Work(id, _, _) => id
    case Thinking(id, _) => id
  }

  function Ids(entries: seq<Shown>): (r: seq<string>)
    ensures |r| == |entries| && forall i :: 0 <= i < |r| ==> r[i] == Id(entries[i])
  {
    seq(|entries|, i requires 0 <= i < |entries| => Id(entries[i]))
  }

  /** The indicator of a running job: needed unless the transcript shows the work, the answer or a question. */
  predicate Busy(c: Conversation, last: seq<Shown>) {
    var stopping := c.jobStatus == "cancellation_requested";
    var hasVisibleWork := exists i ::
        0 <= i < |c.items| && c.items[i].kind == "tool" && !c.items[i].turnLevel && IsActiveStatus(c.items[i].status);
    var hasStreamingAnswer := last != [] && last[0].Single? && last[0].item.kind == "assistant"
        && !IsCompleteStatus(last[0].item.status);
    var awaitingApproval := exists i ::
        0 <= i < |c.items| && c.items[i].kind == "approval" && c.items[i].status == "pending";
    c.running && (stopping || (!awaitingApproval && !hasVisibleWork && !hasStreamingAnswer))
  }

  // ----- The loop -----

  /** The grouping loop: nothing to be seen is lost, repeated or reordered, and runs of tools are maximal. */
  method Group(c: Conversation) returns (entries: seq<Shown>)
    ensures WellGrouped(entries) && Flat(entries) == Seen(c, c.items)
    ensures forall e :: e in entries && e.Work? ==> e.phase == ""
  {
    entries := [];
    var tools: seq<Item> := [];
    for i := 0 to |c.items|
      invariant WellGrouped(entries) && (entries == [] || entries[|entries| - 1].Single?)
      invariant forall t :: t in tools ==> t.kind == "tool"
      invariant Flat(entries) + tools == Seen(c, c.items[..i])
      invariant forall e :: e in entries && e.Work? ==> e.phase == ""
    {
      hide WellGrouped, Flat, Seen, Settled;
      var item := c.items[i];
      SeenNext(c, i);
      SettledIsSame(c, item);
      if item.kind == "tool" && item.turnLevel { continue; }
      if item.kind == "assistant" && Text.Trim(item.text) == "" { continue; }
      if item.kind == "tool" {
        tools := tools + [Settled(c, item)];
      } else {
        entries := Flush(entries, tools);
        tools := [];
        FlatSnoc(entries, Single(item));
        SingleAdded(entries, item);
        entries := entries + [Single(item)];
      }
    }
    assert c.items[..|c.items|] == c.items;
    entries := Flush(entries, tools);
  }

  lemma FlatSnoc(entries: seq<Shown>, e: Shown)
    ensures Flat(entries + [e]) == Flat(entries) + match e {
      case Single(item) => [item]
      case Work(_, tools, _) => tools
      case Thinking(_, _) => []
    }
  {
    assert (entries + [e])[..|entries + [e]| - 1] == entries;
  }

  lemma SeenNext(c: Conversation, i: nat)
    requires i < |c.items|
    ensures Seen(c, c.items[..i + 1]) == Seen(c, c.items[..i]) + if Visible(c.items[i]) then [Settled(c, c.items[i])]
            else []
  {
    assert c.items[..i + 1][..i] == c.items[..i];
  }

  lemma SettledIsSame(c: Conversation, item: Item)
    ensures Settled(c, item).kind == item.kind && (item.kind != "tool" ==> Settled(c, item) == item)
  {
  }

  lemma SingleAdded(entries: seq<Shown>, item: Item)
    requires WellGrouped(entries) && item.kind != "tool"
    ensures WellGrouped(entries + [Single(item)])
  {
  }

  /** `flushTools` */
  method Flush(entries: seq<Shown>, tools: seq<Item>) returns (r: seq<Shown>)
    requires WellGrouped(entries) && (entries == [] || entries[|entries| - 1].Single?)
    requires forall t :: t in tools ==> t.kind == "tool"
    requires forall e :: e in entries && e.Work? ==> e.phase == ""
    ensures WellGrouped(r) && Flat(r) == Flat(entries) + tools
    ensures forall e :: e in r && e.Work? ==> e.phase == ""
  {
    if tools == [] {
      return entries;
    }
    FlatSnoc(entries, Work("work:" + tools[0].id, tools, ""));
    return entries + [Work("work:" + tools[0].id, tools, "")];
  }

  /** `conversationEntries`: the groups, with at most one indicator of running work at the end. */
  method Build(c: Conversation) returns (entries: seq<Shown>)
    ensures exists groups: seq<Shown> ::
            WellGrouped(groups) && Flat(groups) == Seen(c, c.items) && Indicated(c, groups, entries)
  {
    var groups := Group(c);
    entries := groups;
    var last := if entries == [] then [] else [entries[|entries| - 1]];
    if Busy(c, last) {
      var stopping := c.jobStatus == "cancellation_requested";
      if entries != [] && last[0].Work? && (stopping || AllComplete(last[0].tools)) {
        entries := entries[|entries| - 1 := last[0].(phase := if stopping then "stopping" else "thinking")];
      } else {
        entries := entries + [Thinking("thinking:" + (if c.sessionId != "" then c.sessionId else "active"),
                                       if stopping then "Stopping" else "Thinking")];
      }
    }
  }

  /**
   The entries are the groups, except that a busy conversation marks its last group or adds one indicator.
   It says "Stopping" exactly while a cancellation is requested.
   */
  predicate Indicated(c: Conversation, groups: seq<Shown>, entries: seq<Shown>) {
    var last := if groups == [] then [] else [groups[|groups| - 1]];
    var stopping := c.jobStatus == "cancellation_requested";
    if !Busy(c, last) then entries == groups
    else if groups != [] && last[0].Work? && (stopping || AllComplete(last[0].tools)) then
      entries == groups[|groups| - 1 := last[0].(phase := if stopping then "stopping" else "thinking")]
    else
      var conversation := if c.sessionId == "" then "active" else c.sessionId;
      entries == groups + [Thinking("thinking:" + conversation, if stopping then "Stopping" else "Thinking")]
  }

  // ----- The ids are fit for keys -----

  predicate PlainIds(items: seq<Item>) {
    && (forall i, j :: 0 <= i < j < |items| ==> items[i].id != items[j].id)
    && forall i :: 0 <= i < |items| ==> !("work:" <= items[i].id) && !("thinking:" <= items[i].id)
  }

  lemma {:induction false} SeenIds(c: Conversation, items: seq<Item>)
    requires PlainIds(items)
    ensures PlainIds(Seen(c, items))
    ensures forall x :: x in Seen(c, items) ==> exists y :: y in items && y.id == x.id
    decreases |items|
  {
    if items != [] {
      var front, last := items[..|items| - 1], items[|items| - 1];
      SeenIds(c, front);
      assert items == front + [last];
      forall x | x in Seen(c, front) ensures x.id != last.id {
        var y :| y in front && y.id == x.id;
        var i :| 0 <= i < |front| && front[i] == y;
        assert items[i] == y;
      }
    }
  }

  /** The item an entry takes its id from. */
  function Lead(e: Shown): Item
    requires e.Single? || (e.Work? && e.tools != [])
  {
    if e.Single? then e.item else e.tools[0]
  }

  lemma {:induction false} LeadsAreFlat(entries: seq<Shown>)
    requires WellGrouped(entries) && PlainIds(Flat(entries))
    ensures forall i :: 0 <= i < |entries| ==> Lead(entries[i]) in Flat(entries)
    ensures forall i, j :: 0 <= i < j < |entries| ==> Lead(entries[i]).id != Lead(entries[j]).id
    decreases |entries|
  {
    if entries != [] {
      var front, last := entries[..|entries| - 1], entries[|entries| - 1];
      var f, g := Flat(front), Flat(entries);
      assert entries == front + [last];
      FlatSnoc(front, last);
      assert forall i :: 0 <= i < |f| ==> f[i] == g[i];
      LeadsAreFlat(front);
      assert g[|f|] == Lead(last);
      forall i | 0 <= i < |front| ensures Lead(front[i]).id != Lead(last).id && Lead(front[i]) in g {
        var k :| 0 <= k < |f| && f[k] == Lead(front[i]);
        assert g[k].id != g[|f|].id;
      }
    }
  }

  lemma GroupId(groups: seq<Shown>, i: nat)
    requires WellGrouped(groups) && PlainIds(Flat(groups)) && i < |groups| && Lead(groups[i]) in Flat(groups)
    ensures Id(groups[i]) == if groups[i].Work? then "work:" + Lead(groups[i]).id else Lead(groups[i]).id
    ensures "work:" <= Id(groups[i]) <==> groups[i].Work?
    ensures !("thinking:" <= Id(groups[i]))
  {
    hide Flat;
    var k :| 0 <= k < |Flat(groups)| && Flat(groups)[k] == Lead(groups[i]);
    if groups[i].Work? {
      assert Id(groups[i])[0] == 'w' && "thinking:"[0] == 't';
    }
  }

  lemma GroupsAreKeyed(groups: seq<Shown>)
    requires WellGrouped(groups) && PlainIds(Flat(groups))
    ensures forall i :: 0 <= i < |groups| ==> !("thinking:" <= Id(groups[i]))
    ensures forall i, j :: 0 <= i < j < |groups| ==> Id(groups[i]) != Id(groups[j])
  {
    hide Flat, Id, PlainIds;
    LeadsAreFlat(groups);
    forall i | 0 <= i < |groups| ensures !("thinking:" <= Id(groups[i])) { GroupId(groups, i); }
    forall i, j | 0 <= i < j < |groups| ensures Id(groups[i]) != Id(groups[j]) {
      GroupId(groups, i);
      GroupId(groups, j);
      NamesDiffer(Lead(groups[i]).id, Lead(groups[j]).id);
    }
  }

  /**
   With distinct item ids that do not borrow the two prefixes, the entries have distinct ids, which is
   what the keyed reconciliation asks of its caller.
   */
  lemma {:induction false} EntriesAreKeyed(c: Conversation, groups: seq<Shown>, entries: seq<Shown>)
    requires PlainIds(c.items) && WellGrouped(groups) && Flat(groups) == Seen(c, c.items)
            && Indicated(c, groups, entries)
    ensures R.Distinct(Ids(entries))
  {
    hide Flat, Seen, PlainIds, WellGrouped, Busy, AllComplete;
    SeenIds(c, c.items);
    GroupsAreKeyed(groups);
    forall i | 0 <= i < |groups| ensures Id(entries[i]) == Id(groups[i]) {
      if |entries| > |groups| { assert entries[..|groups|][i] == entries[i]; }
    }
  }

  lemma NamesDiffer(a: string, b: string)
    ensures a != b ==> "work:" + a != "work:" + b
    ensures "work:" <= "work:" + a
  {
    assert ("work:" + a)[5..] == a && ("work:" + b)[5..] == b;
  }
}
