/**
 What the transcript shows of an agent's events: the text of a streamed answer, its final form, and the
 items that prompts, errors and tools add.
 */
module ChatStream {
  import opened Wrappers
  import opened Text
  import opened ChatSpec
  import opened ChatTranscript
  import opened ChatLimit

  // ----- Adding to a full transcript -----

  /** What is left of the items when one is added: without the oldest settled ones beyond the limit. */
  function Room(items: seq<Item>): seq<Item> {
    DropSettled(items, if |items| < ITEM_LIMIT then 0
                       else if |items| + 1 - ITEM_LIMIT <= Settled(items) then |items| + 1 - ITEM_LIMIT
                       else Settled(items))
  }

  /** At least 200 approvals are pending, and none of them will be evicted. */
  predicate Crowded(items: seq<Item>) {
    |items| - Settled(items) >= ITEM_LIMIT
  }

  lemma {:induction false} DropSettledSnoc(items: seq<Item>, x: Item, n: nat)
    requires n <= Settled(items)
    ensures Settled(items + [x]) == Settled(items) + if x.status.Pending? then 0 else 1
    ensures DropSettled(items + [x], n) == DropSettled(items, n) + [x]
  {
    SettledSnoc(items, x);
    if n > 0 {
      assert (items + [x])[0] == items[0] && (items + [x])[1..] == items[1..] + [x];
      DropSettledSnoc(items[1..], x, if items[0].status.Pending? then n else n - 1);
    }
  }

  lemma {:induction false} DropSettledAll(items: seq<Item>, x: Item)
    requires !x.status.Pending?
    ensures Settled(items + [x]) == Settled(items) + 1
    ensures DropSettled(items + [x], Settled(items) + 1) == DropSettled(items, Settled(items))
  {
    SettledSnoc(items, x);
    if items == [] {
      assert [] + [x] == [x] && [x][1..] == [];
    } else {
      assert (items + [x])[0] == items[0] && (items + [x])[1..] == items[1..] + [x];
      DropSettledAll(items[1..], x);
    }
  }

  /** A new item stands at the end, unless it is settled and the approvals leave no room for it. */
  lemma EvictSnoc(items: seq<Item>, x: Item)
    ensures Evict(items + [x]) == Room(items) + if x.status.Pending? || !Crowded(items) then [x] else []
  {
    EvictDropsOldestSettled(items + [x]);
    DropSettledSnoc(items, x, 0);
    var excess := Excess(items + [x]);
    if excess <= Settled(items) {
      DropSettledSnoc(items, x, excess);
    } else {
      DropSettledAll(items, x);
    }
  }

  lemma RoomWithin(items: seq<Item>)
    ensures forall x :: x in Room(items) ==> x in items
    ensures Crowded(items) ==> AllPending(Room(items)) && |Room(items)| >= ITEM_LIMIT
  {
    var n := if |items| < ITEM_LIMIT then 0
             else if |items| + 1 - ITEM_LIMIT <= Settled(items) then |items| + 1 - ITEM_LIMIT else Settled(items);
    var at := DropSettledSelects(items, n);
    SelectedMembers(items, at, Room(items));
    DropSettledCounts(items, n);
  }

  lemma RoomOfPending(items: seq<Item>)
    requires AllPending(items)
    ensures Room(items) == items && (|items| >= ITEM_LIMIT ==> Crowded(items))
  {
    NoneSettled(items);
  }

  // ----- Streams -----

  /** The texts of the deltas, one behind the other; a delta counts with its first 100000 characters. */
  function Said(events: seq<Event>): string
    decreases |events|
  {
    if events == [] then "" else Said(events[..|events| - 1]) + Piece(events[|events| - 1])
  }

  function Piece(e: Event): string {
    match e.text
    case None => ""
    case Some(t) => if |t| > 100000 then t[..100000] else t
  }

  const NOTICE := "\n\n[Reply preview truncated]"

  /** What is shown behind the notice: what came since, and nothing again once that does not fit. */
  function Trailing(events: seq<Event>): (r: string)
    requires |Said(events)| > 100000
    ensures |r| <= 23
    decreases |events|
  {
    var front := events[..|events| - 1];
    if |Said(front)| <= 100000 then ""
    else
      var more := Trailing(front) + Piece(events[|events| - 1]);
      if |more| > 23 then "" else more
  }

  /** The text of a streamed answer: all of it, or its first 99950 characters and the notice. */
  function Streamed(events: seq<Event>): string {
    if |Said(events)| <= 100000 then Said(events) else Said(events)[..99950] + NOTICE + Trailing(events)
  }

  lemma StreamedGrows(events: seq<Event>)
    requires events != []
    ensures Streamed(events) == Preview(Streamed(events[..|events| - 1]) + Piece(events[|events| - 1]))
  {
    hide Said, Trailing, Streamed, Piece, Preview;
    var front, piece := events[..|events| - 1], Piece(events[|events| - 1]);
    SaidGrows(events);
    if |Said(front)| > 100000 {
      TrailingGrows(events);
      AfterNotice(Said(front), Said(events), Trailing(front), piece);
      StreamedIs(front);
      StreamedIs(events);
    } else {
      StreamedIs(front);
      StreamedIs(events);
      BeforeNotice(events);
    }
  }

  lemma StreamedIs(events: seq<Event>)
    ensures Streamed(events) == if |Said(events)| <= 100000 then Said(events)
                                else Said(events)[..99950] + NOTICE + Trailing(events)
  {
  }

  /** The text that has the notice is cut again as soon as what follows does not fit. */
  lemma AfterNotice(said: string, more: string, trailing: string, piece: string)
    requires |said| > 100000 && more == said + piece && |trailing| <= 23
    ensures |NOTICE| == 27
    ensures Preview(said[..99950] + NOTICE + trailing + piece)
            == more[..99950] + NOTICE + if |trailing + piece| > 23 then "" else trailing + piece
  {
    assert NOTICE == TRUNCATED && |NOTICE| == 27;
    var next := said[..99950] + NOTICE + trailing + piece;
    assert next[..99950] == said[..99950] == more[..99950];
    assert |next| == 99977 + |trailing + piece|;
    assert next == said[..99950] + NOTICE + (trailing + piece);
  }

  lemma BeforeNotice(events: seq<Event>)
    requires events != [] && |Said(events[..|events| - 1])| <= 100000
    ensures Preview(Said(events)) == if |Said(events)| <= 100000 then Said(events)
                                     else Said(events)[..99950] + NOTICE + Trailing(events)
  {
    assert NOTICE == TRUNCATED;
    hide Said;
  }

  lemma SaidGrows(events: seq<Event>)
    requires events != []
    ensures Said(events) == Said(events[..|events| - 1]) + Piece(events[|events| - 1])
  {
  }

  lemma TrailingGrows(events: seq<Event>)
    requires events != [] && |Said(events[..|events| - 1])| > 100000
    ensures |Said(events)| > 100000
    ensures var more := Trailing(events[..|events| - 1]) + Piece(events[|events| - 1]);
            Trailing(events) == if |more| > 23 then "" else more
  {
  }

  /** Text deltas of the main reply of the running job, with rising sequence numbers. */
  predicate Deltas(c: Chat, events: seq<Event>) {
    && (forall i :: 0 <= i < |events| ==> events[i].kind.MessageDelta? && !events[i].child && Counts(c, events[i]))
    && forall i, j :: 0 <= i < j < |events| ==> events[i].sequence.value < events[j].sequence.value
  }

  function Answer(id: nat, text: string, status: ItemStatus): Item {
    Item(id, Assistant, text, status, None, false)
  }

  lemma WithLast(items: seq<Item>, was: Item, item: Item)
    requires was.id == item.id && forall x :: x in items ==> x.id != item.id
    ensures WithItem(items + [was], item) == items + [item] && WithItem(items, item) == items
  {
    assert forall i :: 0 <= i < |items| ==> items[i] in items;
  }

  /** The text an event gives to an answer that shows `shown`. */
  function Next(shown: string, e: Event): string {
    if e.kind.MessageEnd? && e.text.Some? then Final(e.text.value) else Preview(shown + Piece(e))
  }

  /** A final text: all of it, or its first 99950 characters and the notice. */
  function Final(text: string): string {
    if |text| <= 100000 then text else text[..99950] + NOTICE
  }

  function StatusAfter(e: Event): ItemStatus {
    if e.kind.MessageEnd? then Complete else Streaming
  }

  /** Every item that stays is older than the next one. */
  predicate Older(c: Chat) {
    forall x :: x in Room(c.items) ==> x.id <= c.counter
  }

  /** The first text of an answer. */
  lemma TextOpens(c: Chat, e: Event)
    requires Older(c) && !StreamOpen(c) && (e.kind.MessageDelta? || e.kind.MessageEnd?)
    ensures var d := ApplyText(c, e);
            d.items == Room(c.items) + (if Crowded(c.items) then []
                                        else [Answer(c.counter + 1, Next("", e), StatusAfter(e))])
    ensures ApplyText(c, e).counter == c.counter + 1
  {
    hide Evict, Room, Crowded, Preview;
    var item := Answer(c.counter + 1, "", Streaming);
    EvictSnoc(c.items, item);
    NextIs("", e);
    assert Clip("", TEXT_LIMIT) == "";
    assert Add(c, Assistant, "", Streaming).items == Evict(c.items + [item]);
    WithLast(Room(c.items), item, Answer(c.counter + 1, Next("", e), StatusAfter(e)));
  }

  lemma NextIs(shown: string, e: Event)
    ensures Next(shown, e) == Preview(if e.kind.MessageEnd? && e.text.Some? then e.text.value
                                      else shown + (if e.text.Some? then Clip(e.text.value, TEXT_LIMIT) else ""))
  {
    assert NOTICE == TRUNCATED;
  }

  /** More text for an open answer. */
  lemma TextContinues(c: Chat, e: Event, rest: seq<Item>, id: nat, shown: string)
    requires c.items == rest + [Answer(id, shown, Streaming)] && forall x :: x in rest ==> x.id != id
    requires e.kind.MessageDelta? || e.kind.MessageEnd?
    ensures ApplyText(c, e) == c.(items := rest + [Answer(id, Next(shown, e), StatusAfter(e))])
  {
    hide Preview;
    NextIs(shown, e);
    WithLast(rest, Answer(id, shown, Streaming), Answer(id, Next(shown, e), StatusAfter(e)));
  }

  /** A text event that counts and is no repetition is applied. */
  lemma TextApplies(w: World, e: Event)
    requires Counts(w.chat, e) && !e.child && (e.kind.MessageDelta? || e.kind.MessageEnd?)
    requires e.kind.MessageEnd? ==> !RepeatsLast(w.chat, e)
    ensures OnEvent(w, e).chat == ApplyText(w.chat.(sequence := e.sequence.value), e)
  {
    hide ApplyText;
  }

  /** What is left of the items of `c`, and behind it the item, unless pending approvals leave no room for it. */
  ghost predicate Shows(c: Chat, d: Chat, item: Item) {
    d.items == Room(c.items) + (if Crowded(c.items) then [] else [item]) && d.counter > c.counter && SameJob(c, d)
  }

  lemma KeptIsOlder(c: Chat)
    requires WellKept(c)
    ensures Older(c)
  {
    hide Room;
    RoomWithin(c.items);
    forall x | x in Room(c.items) ensures x.id <= c.counter {
      var i :| 0 <= i < |c.items| && c.items[i] == x;
      assert ItemKept(c.items[i], c.counter);
    }
  }

  lemma StreamStarts(w: World, e: Event)
    requires Older(w.chat) && !StreamOpen(w.chat) && Counts(w.chat, e) && !e.child && e.kind.MessageDelta?
    ensures Shows(w.chat, OnEvent(w, e).chat, Answer(w.chat.counter + 1, Preview(Piece(e)), Streaming))
  {
    hide OnEvent, ApplyText, Room, Crowded, Relevant;
    var c := w.chat.(sequence := e.sequence.value);
    EventKeepsJob(w, e);
    TextApplies(w, e);
    SameStream(w.chat, c);
    TextOpens(c, e);
    assert "" + Piece(e) == Piece(e);
  }

  lemma SameStream(c: Chat, d: Chat)
    requires d.items == c.items && d.counter == c.counter
    ensures StreamOpen(c) == StreamOpen(d) && Older(c) == Older(d)
  {
  }

  lemma StreamGoesOn(c: Chat, w: World, e: Event, shown: string)
    requires Older(c) && Shows(c, w.chat, Answer(c.counter + 1, shown, Streaming))
    requires Counts(w.chat, e) && !e.child && e.kind.MessageDelta?
    ensures Shows(c, OnEvent(w, e).chat, Answer(c.counter + 1, Preview(shown + Piece(e)), Streaming))
  {
    hide OnEvent, ApplyText, Room, Crowded, Relevant;
    var d := w.chat.(sequence := e.sequence.value);
    EventKeepsJob(w, e);
    TextApplies(w, e);
    if Crowded(c.items) {
      RoomWithin(c.items);
      RoomOfPending(d.items);
      TextOpens(d, e);
    } else {
      TextContinues(d, e, Room(c.items), c.counter + 1, shown);
    }
  }

  /** The next delta counts when those before it have been applied. */
  lemma DeltaCounts(w: World, events: seq<Event>)
    requires events != [] && Deltas(w.chat, events)
    ensures Counts(Feed(w, events[..|events| - 1]).chat, events[|events| - 1])
  {
    hide Feed;
    var front, e := events[..|events| - 1], events[|events| - 1];
    FeedTop(w, front);
    var top := Feed(w, front).chat.sequence;
    if top != w.chat.sequence {
      var j :| 0 <= j < |front| && Counts(w.chat, front[j]) && front[j].sequence.value == top;
      assert events[j] == front[j];
    }
  }

  lemma DeltasBefore(c: Chat, events: seq<Event>)
    requires events != [] && Deltas(c, events)
    ensures Deltas(c, events[..|events| - 1])
  {
    var front := events[..|events| - 1];
    assert forall i :: 0 <= i < |front| ==> front[i] == events[i];
  }

  /**
   What is streamed is shown: after any number of deltas the transcript ends in one streaming answer with
   their texts, one behind the other, and the other items are as they were. The exception are 200 pending
   approvals, which leave no room for the answer.
   */
  lemma {:induction false} StreamIsShown(w: World, events: seq<Event>)
    requires WellKept(w.chat) && !StreamOpen(w.chat) && events != [] && Deltas(w.chat, events)
    ensures Shows(w.chat, Feed(w, events).chat, Answer(w.chat.counter + 1, Streamed(events), Streaming))
    ensures |Said(events)| <= 100000 ==> Streamed(events) == Said(events)
    decreases |events|
  {
    hide OnEvent, StreamOpen, Said, Trailing, Preview, Relevant, Shows;
    var front, e := events[..|events| - 1], events[|events| - 1];
    KeptIsOlder(w.chat);
    StreamedGrows(events);
    DeltaCounts(w, events);
    hide WellKept, Older;
    if front == [] {
      NothingSaid();
      assert "" + Piece(e) == Piece(e);
      StreamStarts(w, e);
    } else {
      DeltasBefore(w.chat, events);
      StreamIsShown(w, front);
      StreamGoesOn(w.chat, Feed(w, front), e, Streamed(front));
    }
  }

  lemma NothingSaid()
    ensures Streamed([]) == ""
  {
  }

  /**
   A final message settles the answer: it shows the final text, or what was streamed if there is none, and
   is complete.
   */
  lemma FinalIsShown(w: World, events: seq<Event>, e: Event)
    requires WellKept(w.chat) && !StreamOpen(w.chat) && events != [] && Deltas(w.chat, events)
    requires !Crowded(w.chat.items) && e.kind.MessageEnd? && !e.child && Counts(Feed(w, events).chat, e)
    ensures var text := match e.text case None => Streamed(events) case Some(x) => Final(x);
            Feed(w, events + [e]).chat.items == Room(w.chat.items) + [Answer(w.chat.counter + 1, text, Complete)]
  {
    hide OnEvent, ApplyText, Room, Crowded, Relevant, Said, Trailing;
    var u := Feed(w, events);
    StreamIsShown(w, events);
    KeptIsOlder(w.chat);
    assert (events + [e])[..|events|] == events;
    TextApplies(u, e);
    StreamedFits(events);
    TextContinues(u.chat.(sequence := e.sequence.value), e, Room(w.chat.items), w.chat.counter + 1, Streamed(events));
  }

  lemma StreamedFits(events: seq<Event>)
    ensures Preview(Streamed(events) + "") == Streamed(events)
  {
    assert |NOTICE| == 27;
    assert Streamed(events) + "" == Streamed(events);
  }

  /** A final message that was not streamed is a new answer, unless the transcript ends with the same answer already. */
  lemma FinalAlone(w: World, e: Event)
    requires WellKept(w.chat) && !StreamOpen(w.chat) && e.kind.MessageEnd? && !e.child && Counts(w.chat, e)
    ensures var c := w.chat;
            var text := match e.text case None => "" case Some(x) => Final(x);
            OnEvent(w, e).chat.items ==
              if c.items != [] && c.items[|c.items| - 1].kind.Assistant? && e.text == Some(c.items[|c.items| - 1].text)
              then c.items
              else Room(c.items) + if Crowded(c.items) then [] else [Answer(c.counter + 1, text, Complete)]
  {
    hide OnEvent, ApplyText, Room, Crowded, Relevant;
    var c := w.chat.(sequence := e.sequence.value);
    KeptIsOlder(w.chat);
    SameStream(w.chat, c);
    if RepeatsLast(w.chat, e) {
      RepetitionIsSilent(w, e);
    } else {
      TextApplies(w, e);
      TextOpens(c, e);
    }
  }

  lemma RepetitionIsSilent(w: World, e: Event)
    requires Counts(w.chat, e) && e.kind.MessageEnd? && RepeatsLast(w.chat, e)
    ensures OnEvent(w, e).chat.items == w.chat.items
  {
  }

  // ----- The other events -----

  /** The item an event adds, if it adds one that is no answer. */
  function Added(c: Chat, e: Event): Option<Item> {
    match e.kind
    case Prompt =>
      if e.isApproval
      then Some(Item(c.counter + 1, Approval, Head(if e.reason != "" then e.reason else e.promptText, 100000), Pending,
                     e.approvalId, e.allowForSession))
      else None
    case ErrorRaised =>
      var text := Head(if e.message != "" then e.message else e.error, 4000);
      Some(Item(c.counter + 1, ErrorNote, if text != "" then text else "The agent reported an error.", Complete,
                None, false))
    case ToolStarted =>
      var name := Head(if e.toolName != "" then e.toolName else e.name, 100);
      Some(Item(c.counter + 1, Notice, "Using " + (if name != "" then name else "a tool") + "…", Complete, None, false))
    case _ => None
  }

  function Head(s: string, max: nat): string {
    if |s| <= max then s else s[..max]
  }

  /** A prompt for an approval that is shown already. */
  predicate Asked(c: Chat, e: Event) {
    e.kind.Prompt? && e.isApproval && exists i :: 0 <= i < |c.items| && c.items[i].approvalId == e.approvalId
  }

  /**
   What every other event of the running job adds to the transcript: a new approval, the agent's error or
   the tool's name, at the end, and nothing if it is about a child worker or an approval that is shown.
   */
  lemma EventAdds(w: World, e: Event)
    requires Counts(w.chat, e) && !e.kind.MessageDelta? && !e.kind.MessageEnd?
    ensures var c, d := w.chat, OnEvent(w, e).chat;
            if e.child || Asked(c, e) || Added(c, e).None? then d == c.(sequence := e.sequence.value)
            else d == c.(sequence := e.sequence.value, counter := c.counter + 1,
                         items := Room(c.items) + if Added(c, e).value.status.Pending? || !Crowded(c.items)
                                                  then [Added(c, e).value] else [])
  {
    hide OnEvent, ApplyEvent, Room, Crowded, Relevant, Added, Asked;
    var c := w.chat.(sequence := e.sequence.value);
    AddedIgnoresSequence(w.chat, c, e);
    EventApplies(w, e);
    EventAppends(c, e);
  }

  lemma AddedIgnoresSequence(c: Chat, d: Chat, e: Event)
    requires d == c.(sequence := d.sequence)
    ensures Added(d, e) == Added(c, e) && Asked(d, e) == Asked(c, e)
    ensures Added(c, e).Some? ==> Added(c, e).value.id == c.counter + 1 && |Added(c, e).value.text| <= TEXT_LIMIT
  {
  }

  lemma EventApplies(w: World, e: Event)
    requires Counts(w.chat, e) && !e.kind.MessageEnd?
    ensures var c := w.chat.(sequence := e.sequence.value);
            OnEvent(w, e).chat == if e.child || Asked(c, e) then c else ApplyEvent(c, e)
  {
    hide ApplyEvent;
  }

  lemma EventAppends(c: Chat, e: Event)
    requires !e.kind.MessageDelta? && !e.kind.MessageEnd?
    ensures ApplyEvent(c, e) ==
              if Added(c, e).None? then c
              else c.(counter := c.counter + 1,
                      items := Room(c.items) + if Added(c, e).value.status.Pending? || !Crowded(c.items)
                                               then [Added(c, e).value] else [])
  {
    hide Add, Room, Crowded;
    if Added(c, e).Some? { AddRoom(c, Added(c, e).value); }
  }

  lemma AddRoom(c: Chat, x: Item)
    requires x.id == c.counter + 1 && |x.text| <= TEXT_LIMIT
    ensures Add(c, x.kind, x.text, x.status, x.approvalId, x.allowForSession)
            == c.(counter := c.counter + 1,
                  items := Room(c.items) + if x.status.Pending? || !Crowded(c.items) then [x] else [])
  {
    hide Evict, Room, Crowded;
    EvictSnoc(c.items, x);
  }
}
