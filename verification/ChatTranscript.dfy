/** The bounded transcript and the duplicate-tolerant event log. */
module ChatTranscript {
  import opened Wrappers
  import opened Text
  import opened ChatSpec
  import opened ChatInvariants

  // ----- Eviction -----

  function Settled(items: seq<Item>): (n: nat)
    ensures n <= |items|
  {
    if items == [] then 0 else (if items[0].status.Pending? then 0 else 1) + Settled(items[1..])
  }

  /** The items without their `n` oldest settled ones. */
  function DropSettled(items: seq<Item>, n: nat): seq<Item>
    requires n <= Settled(items)
  {
    if n == 0 then items
    else if items[0].status.Pending? then [items[0]] + DropSettled(items[1..], n)
    else DropSettled(items[1..], n - 1)
  }

  function PendingOf(items: seq<Item>): seq<Item> {
    if items == [] then [] else (if items[0].status.Pending? then [items[0]] else []) + PendingOf(items[1..])
  }

  function Excess(items: seq<Item>): (n: nat)
    ensures n <= Settled(items)
  {
    if |items| <= ITEM_LIMIT then 0
    else if |items| - ITEM_LIMIT <= Settled(items) then |items| - ITEM_LIMIT else Settled(items)
  }

  lemma {:induction false} WithoutFirstSettled(items: seq<Item>, n: nat)
    requires FirstSettled(items) < |items|
    ensures Settled(Without(items, FirstSettled(items))) == Settled(items) - 1
    ensures n < Settled(items) ==>
              DropSettled(Without(items, FirstSettled(items)), n) == DropSettled(items, n + 1)
  {
    var rest := Without(items, FirstSettled(items));
    if items[0].status.Pending? {
      WithoutFirstSettled(items[1..], n);
      assert rest[0] == items[0] && rest[1..] == Without(items[1..], FirstSettled(items[1..]));
      assert rest == [items[0]] + rest[1..];
    } else {
      assert rest == items[1..];
    }
  }

  lemma {:induction false} NothingSettled(items: seq<Item>)
    requires FirstSettled(items) == |items|
    ensures Settled(items) == 0
  {
    if items != [] {
      NothingSettled(items[1..]);
    }
  }

  /** The eviction loop removes the oldest settled items, exactly as many as the limit asks for and there are. */
  lemma {:induction false} EvictDropsOldestSettled(items: seq<Item>)
    ensures Evict(items) == DropSettled(items, Excess(items))
    decreases |items|
  {
    hide DropSettled, FirstSettled, Settled;
    var i := FirstSettled(items);
    DropNone(items);
    if |items| > ITEM_LIMIT {
      if i == |items| {
        NothingSettled(items);
      } else {
        var rest := Without(items, i);
        WithoutFirstSettled(items, 0);
        WithoutFirstSettled(items, Excess(rest));
        EvictDropsOldestSettled(rest);
      }
    }
  }

  lemma DropNone(items: seq<Item>)
    ensures DropSettled(items, 0) == items
  {
  }

  lemma {:induction false} DropSettledCounts(items: seq<Item>, n: nat)
    requires n <= Settled(items)
    ensures |DropSettled(items, n)| == |items| - n
    ensures PendingOf(DropSettled(items, n)) == PendingOf(items)
    ensures n == Settled(items) ==>
              forall i :: 0 <= i < |DropSettled(items, n)| ==> DropSettled(items, n)[i].status.Pending?
  {
    if items == [] {
    } else if n == 0 {
      if Settled(items) == 0 {
        DropSettledCounts(items[1..], 0);
        assert forall i :: 1 <= i < |items| ==> items[i] == items[1..][i - 1];
      }
    } else if items[0].status.Pending? {
      DropSettledCounts(items[1..], n);
      assert DropSettled(items, n)[1..] == DropSettled(items[1..], n);
    } else {
      DropSettledCounts(items[1..], n - 1);
    }
  }

  /** `at` lists, in order, where the elements of `part` stand in `whole`. */
  ghost predicate Selects(at: seq<nat>, part: seq<Item>, whole: seq<Item>) {
    && |at| == |part|
    && (forall i :: 0 <= i < |at| ==> at[i] < |whole| && whole[at[i]] == part[i])
    && (forall i, j :: 0 <= i < j < |at| ==> at[i] < at[j])
  }

  /** A selection from the tail, with or without the head, is a selection from the whole. */
  lemma SelectsTail(at: seq<nat>, part: seq<Item>, whole: seq<Item>) returns (shifted: seq<nat>)
    requires whole != [] && Selects(at, part, whole[1..])
    ensures Selects(shifted, part, whole)
    ensures Selects([0] + shifted, [whole[0]] + part, whole)
  {
    shifted := seq(|at|, i requires 0 <= i < |at| => at[i] + 1);
    forall i | 0 <= i < |shifted| ensures shifted[i] < |whole| && whole[shifted[i]] == part[i] {
      assert whole[1..][at[i]] == part[i];
    }
    var longer, more := [0] + shifted, [whole[0]] + part;
    forall i | 0 <= i < |longer| ensures longer[i] < |whole| && whole[longer[i]] == more[i] {
      assert i > 0 ==> longer[i] == shifted[i - 1] && more[i] == part[i - 1];
    }
    forall i, j | 0 <= i < j < |longer| ensures longer[i] < longer[j] {
      assert longer[j] == shifted[j - 1] && (i > 0 ==> longer[i] == shifted[i - 1]);
    }
  }

  lemma {:induction false} DropSettledSelects(items: seq<Item>, n: nat) returns (at: seq<nat>)
    requires n <= Settled(items)
    ensures Selects(at, DropSettled(items, n), items)
  {
    if n == 0 {
      at := seq(|items|, i => i);
    } else if items[0].status.Pending? {
      var rest := DropSettledSelects(items[1..], n);
      var shifted := SelectsTail(rest, DropSettled(items[1..], n), items);
      at := [0] + shifted;
    } else {
      var rest := DropSettledSelects(items[1..], n - 1);
      at := SelectsTail(rest, DropSettled(items[1..], n - 1), items);
    }
  }

  /**
   Bounded transcript: after the eviction at most 200 items remain or all of them are pending, no
   pending item was removed, and the survivors keep their append order.
   */
  lemma EvictSpec(items: seq<Item>) returns (at: seq<nat>)
    ensures |Evict(items)| <= ITEM_LIMIT || forall i :: 0 <= i < |Evict(items)| ==> Evict(items)[i].status.Pending?
    ensures |items| <= ITEM_LIMIT ==> Evict(items) == items
    ensures |items| > ITEM_LIMIT ==> |Evict(items)| >= ITEM_LIMIT
    ensures PendingOf(Evict(items)) == PendingOf(items)
    ensures Selects(at, Evict(items), items)
  {
    EvictDropsOldestSettled(items);
    DropSettledCounts(items, Excess(items));
    at := DropSettledSelects(items, Excess(items));
  }

  // ----- What the transcript keeps over every run -----

  predicate ItemKept(item: Item, counter: nat) {
    && item.id <= counter && |item.text| <= TEXT_LIMIT
    && (item.status.Pending? ==> item.kind.Approval?)
    && (!item.kind.Approval? ==> item.approvalId.None?)
  }

  /** `a` was appended before `b`, and they do not stand for the same approval. */
  predicate InOrder(a: Item, b: Item) {
    && a.id < b.id
    && (a.kind.Approval? && b.kind.Approval? ==> a.approvalId != b.approvalId)
  }

  ghost predicate Orderly(items: seq<Item>, counter: nat) {
    && (forall i :: 0 <= i < |items| ==> ItemKept(items[i], counter))
    && (forall i, j :: 0 <= i < j < |items| ==> InOrder(items[i], items[j]))
  }

  /** Beyond the limit there are only approvals: a pending one is never evicted, and settling it evicts nothing. */
  ghost predicate Fits(items: seq<Item>) {
    |items| <= ITEM_LIMIT || forall i :: 0 <= i < |items| ==> items[i].kind.Approval?
  }

  ghost predicate WellKept(c: Chat) {
    Orderly(c.items, c.counter) && Fits(c.items)
  }

  /** `b` is a later state of the item `a`: nothing becomes pending again, and an approval keeps its final status. */
  predicate Continues(a: Item, b: Item) {
    && a.id == b.id && a.kind == b.kind && a.approvalId == b.approvalId
    && (b.status.Pending? ==> a.status.Pending?)
    && (a.kind.Approval? && !a.status.Pending? ==> b.status == a.status)
  }

  ghost predicate HasSource(items: seq<Item>, b: Item) {
    exists i :: 0 <= i < |items| && Continues(items[i], b)
  }

  /** Every item of `d` continues one of `c` or was added since. */
  ghost predicate Later(c: Chat, d: Chat) {
    && c.counter <= d.counter
    && forall j :: 0 <= j < |d.items| ==> d.items[j].id > c.counter || HasSource(c.items, d.items[j])
  }

  /** The pending items of `c`, except perhaps one, are in `d` as they were. */
  ghost predicate Stays(c: Chat, d: Chat, but: Option<nat> := None) {
    forall i :: 0 <= i < |c.items| && c.items[i].status.Pending? && Some(c.items[i].id) != but ==> c.items[i] in d.items
  }

  /** A stretch that settles no approval and rewrites no settled one. */
  ghost predicate Carries(c: Chat, d: Chat) {
    WellKept(d) && Later(c, d) && Stays(c, d)
  }

  lemma LaterTransitive(c: Chat, d: Chat, e: Chat)
    requires Later(c, d) && Later(d, e)
    ensures Later(c, e)
  {
    forall k | 0 <= k < |e.items| && e.items[k].id <= c.counter ensures HasSource(c.items, e.items[k]) {
      assert HasSource(d.items, e.items[k]);
      var j :| 0 <= j < |d.items| && Continues(d.items[j], e.items[k]);
      assert HasSource(c.items, d.items[j]);
      var i :| 0 <= i < |c.items| && Continues(c.items[i], d.items[j]);
      assert Continues(c.items[i], e.items[k]);
    }
  }

  lemma StaysTransitive(c: Chat, d: Chat, e: Chat)
    requires Stays(c, d) && Stays(d, e)
    ensures Stays(c, e)
  {
    forall i | 0 <= i < |c.items| && c.items[i].status.Pending? ensures c.items[i] in e.items {
      var j :| 0 <= j < |d.items| && d.items[j] == c.items[i];
      assert d.items[j] in e.items;
    }
  }

  lemma CarriesTransitive(c: Chat, d: Chat, e: Chat)
    requires Carries(c, d) && Carries(d, e)
    ensures Carries(c, e)
  {
    LaterTransitive(c, d, e);
    StaysTransitive(c, d, e);
  }

  lemma SameItemsCarries(c: Chat, d: Chat)
    requires WellKept(c) && d.items == c.items && d.counter == c.counter
    ensures Carries(c, d)
  {
    assert forall j :: 0 <= j < |d.items| ==> Continues(c.items[j], d.items[j]);
  }

  lemma SameKept(c: Chat, d: Chat)
    requires WellKept(c) && d.items == c.items && d.counter == c.counter
    ensures WellKept(d)
  {
  }

  // ----- The operations on the transcript -----

  lemma SelectedOrderly(items: seq<Item>, counter: nat, at: seq<nat>, part: seq<Item>)
    requires Orderly(items, counter) && Selects(at, part, items)
    ensures Orderly(part, counter)
  {
    forall i | 0 <= i < |part| ensures ItemKept(part[i], counter) {
      assert items[at[i]] == part[i];
    }
    forall i, j | 0 <= i < j < |part| ensures InOrder(part[i], part[j]) {
      assert at[i] < at[j] && items[at[i]] == part[i] && items[at[j]] == part[j];
    }
  }

  lemma SelectedMembers(items: seq<Item>, at: seq<nat>, part: seq<Item>)
    requires Selects(at, part, items)
    ensures forall x :: x in part ==> x in items
  {
    forall x | x in part ensures x in items {
      var i :| 0 <= i < |part| && part[i] == x;
      assert items[at[i]] == x;
    }
  }

  lemma SelectedIsShorter(items: seq<Item>, at: seq<nat>, part: seq<Item>)
    requires Selects(at, part, items)
    ensures |part| <= |items|
  {
    if at != [] {
      IndicesGrow(at, |at| - 1);
    }
  }

  lemma {:induction false} IndicesGrow(at: seq<nat>, k: nat)
    requires k < |at| && forall i, j :: 0 <= i < j < |at| ==> at[i] < at[j]
    ensures k <= at[k]
    decreases k
  {
    if k > 0 { IndicesGrow(at, k - 1); }
  }

  lemma {:induction false} PendingMembers(items: seq<Item>)
    ensures forall x :: x in PendingOf(items) <==> x in items && x.status.Pending?
  {
    if items != [] {
      PendingMembers(items[1..]);
      assert items == [items[0]] + items[1..];
    }
  }

  /** Eviction keeps the transcript well, and every pending item in it. */
  lemma EvictKept(items: seq<Item>, counter: nat)
    requires Orderly(items, counter)
    ensures Orderly(Evict(items), counter) && Fits(Evict(items))
    ensures forall x :: x in Evict(items) ==> x in items
    ensures forall x :: x in items && x.status.Pending? ==> x in Evict(items)
  {
    var at := EvictSpec(items);
    SelectedOrderly(items, counter, at, Evict(items));
    SelectedMembers(items, at, Evict(items));
    PendingMembers(items);
    PendingMembers(Evict(items));
    hide Evict, PendingOf;
    assert forall i :: 0 <= i < |Evict(items)| ==> ItemKept(Evict(items)[i], counter);
  }

  lemma AppendOrderly(items: seq<Item>, counter: nat, item: Item)
    requires Orderly(items, counter) && counter < item.id && ItemKept(item, item.id)
    requires item.kind.Approval? ==> forall i :: 0 <= i < |items| ==> items[i].approvalId != item.approvalId
    ensures Orderly(items + [item], item.id)
  {
    var all := items + [item];
    forall i | 0 <= i < |all| ensures ItemKept(all[i], item.id) {
      if i < |items| { assert ItemKept(items[i], counter); }
    }
    forall i, j | 0 <= i < j < |all| ensures InOrder(all[i], all[j]) {
      if j < |items| {
        assert InOrder(items[i], items[j]);
      } else {
        assert ItemKept(items[i], counter);
      }
    }
  }

  /** Members of `c`'s items and new items make a later transcript. */
  lemma MembersAreLater(c: Chat, d: Chat)
    requires c.counter <= d.counter && forall x :: x in d.items ==> x in c.items || x.id > c.counter
    ensures Later(c, d)
  {
    forall j | 0 <= j < |d.items| && d.items[j].id <= c.counter ensures HasSource(c.items, d.items[j]) {
      assert d.items[j] in c.items;
      var i :| 0 <= i < |c.items| && c.items[i] == d.items[j];
      assert Continues(c.items[i], d.items[j]);
    }
  }

  lemma AddCarries(c: Chat, kind: Kind, content: string, status: ItemStatus, approvalId: Option<string>, allow: bool)
    requires WellKept(c)
    requires status.Pending? ==> kind.Approval?
    requires if kind.Approval? then forall i :: 0 <= i < |c.items| ==> c.items[i].approvalId != approvalId
             else approvalId.None?
    ensures Carries(c, Add(c, kind, content, status, approvalId, allow))
    ensures var d := Add(c, kind, content, status, approvalId, allow);
            forall x :: x in d.items && x.id == d.counter ==> x.status == status
  {
    hide Evict, Fits, Orderly, Later, Stays;
    var d := Add(c, kind, content, status, approvalId, allow);
    var item := Item(c.counter + 1, kind, Clip(content, TEXT_LIMIT), status, approvalId, allow);
    AppendOrderly(c.items, c.counter, item);
    EvictKept(c.items + [item], item.id);
    EvictedCarries(c, item, d);
  }

  lemma EvictedCarries(c: Chat, item: Item, d: Chat)
    requires WellKept(c) && item.id == c.counter + 1 && d.counter == item.id && WellKept(d)
    requires forall x :: x in d.items ==> x in c.items + [item]
    requires forall x :: x in c.items + [item] && x.status.Pending? ==> x in d.items
    ensures Carries(c, d)
    ensures forall x :: x in d.items && x.id == d.counter ==> x == item
  {
    assert forall x :: x in c.items ==> ItemKept(x, c.counter);
    assert forall x :: x in c.items + [item] <==> x in c.items || x == item;
    MembersAreLater(c, d);
    hide Later, WellKept;
    assert forall i :: 0 <= i < |c.items| ==> c.items[i] in c.items;
  }

  lemma {:induction false} DropSelects(items: seq<Item>, id: nat) returns (at: seq<nat>)
    ensures Selects(at, Drop(items, id), items)
    ensures forall x :: x in items && x.id != id ==> x in Drop(items, id)
  {
    if items == [] {
      at := [];
    } else {
      var rest := DropSelects(items[1..], id);
      var shifted := SelectsTail(rest, Drop(items[1..], id), items);
      at := if items[0].id == id then shifted else [0] + shifted;
      assert items == [items[0]] + items[1..];
    }
  }

  predicate IsPending(items: seq<Item>, id: nat) {
    exists i :: 0 <= i < |items| && items[i].id == id && items[i].status.Pending?
  }

  lemma DropKept(c: Chat, id: nat)
    requires WellKept(c)
    ensures var d := c.(items := Drop(c.items, id));
            WellKept(d) && Later(c, d) && (!IsPending(c.items, id) ==> Stays(c, d))
  {
    var d := c.(items := Drop(c.items, id));
    var at := DropSelects(c.items, id);
    SelectedOrderly(c.items, c.counter, at, d.items);
    SelectedMembers(c.items, at, d.items);
    SelectedIsShorter(c.items, at, d.items);
    MembersAreLater(c, d);
    if |d.items| > ITEM_LIMIT {
      assert forall x :: x in c.items ==> x.kind.Approval?;
    }
  }

  /** `b` is `a` rewritten in place: a new text or a settled status, the same identity. */
  predicate Rewritten(a: Item, b: Item) {
    && a.id == b.id && a.kind == b.kind && a.approvalId == b.approvalId
    && |b.text| <= TEXT_LIMIT && (b.status.Pending? ==> a.status.Pending?)
  }

  lemma RewriteKept(c: Chat, items: seq<Item>)
    requires WellKept(c) && |items| == |c.items|
    requires forall i :: 0 <= i < |items| ==> Rewritten(c.items[i], items[i])
    ensures WellKept(c.(items := items))
    ensures (forall i :: 0 <= i < |items| ==> Continues(c.items[i], items[i])) ==> Later(c, c.(items := items))
  {
    forall i | 0 <= i < |items| ensures ItemKept(items[i], c.counter) {
      assert ItemKept(c.items[i], c.counter);
    }
    forall i, j | 0 <= i < j < |items| ensures InOrder(items[i], items[j]) {
      assert InOrder(c.items[i], c.items[j]);
    }
  }

  /** The end of a turn settles every pending approval, and rewrites none that was settled. */
  lemma FinishKept(c: Chat, status: string)
    requires WellKept(c)
    ensures WellKept(Finish(c, status)) && Later(c, Finish(c, status))
    ensures forall x :: x in Finish(c, status).items ==> !x.status.Pending?
  {
    var d := c.(status := status, busy := false, jobId := None, timer := None, items := FinishItems(c.items));
    assert forall i :: 0 <= i < |c.items| ==> ItemKept(c.items[i], c.counter);
    RewriteKept(c, d.items);
    SameItemsCarries(c.(items := d.items), d);
    LaterTransitive(c, c.(items := d.items), d);
    FinishItemsSettles(c.items, c.counter);
    if status == "cancelled" {
      AddCarries(d, Notice, "Stopped.", Complete, None, false);
      LaterTransitive(c, d, Add(d, Notice, "Stopped."));
      AddNothingPending(d, Notice, "Stopped.");
    }
  }

  lemma FinishItemsSettles(items: seq<Item>, counter: nat)
    requires forall i :: 0 <= i < |items| ==> ItemKept(items[i], counter)
    ensures forall x :: x in FinishItems(items) ==> !x.status.Pending?
  {
  }

  lemma AddNothingPending(c: Chat, kind: Kind, content: string)
    requires WellKept(c) && !kind.Approval? && forall x :: x in c.items ==> !x.status.Pending?
    ensures forall x :: x in Add(c, kind, content).items ==> !x.status.Pending?
  {
    var item := Item(c.counter + 1, kind, Clip(content, TEXT_LIMIT), Complete, None, false);
    AppendOrderly(c.items, c.counter, item);
    EvictKept(c.items + [item], item.id);
  }

  lemma PreviewFits(s: string)
    ensures |Preview(s)| <= TEXT_LIMIT
  {
    assert |TRUNCATED| == 27;
  }

  /** After opening a stream, the only item with the new id is the new one, if it was not evicted. */
  lemma OpenedItem(c: Chat, base: Chat, item: Item)
    requires WellKept(c) && base == Add(c, Assistant, "", Streaming)
    requires item == Item(base.counter, Assistant, "", Streaming, None, false)
    ensures forall i :: 0 <= i < |base.items| && base.items[i].id == item.id ==> base.items[i] == item
  {
    AppendOrderly(c.items, c.counter, item);
    EvictKept(c.items + [item], item.id);
    assert forall x :: x in c.items ==> ItemKept(x, c.counter);
    forall i | 0 <= i < |base.items| && base.items[i].id == item.id ensures base.items[i] == item {
      assert base.items[i] in c.items + [item];
    }
  }

  lemma TextCarries(c: Chat, item: Item, text: string, status: ItemStatus)
    requires WellKept(c) && !status.Pending? && item.kind.Assistant? && !item.status.Pending?
    requires forall i :: 0 <= i < |c.items| && c.items[i].id == item.id ==> c.items[i] == item
    ensures Carries(c, c.(items := WithItem(c.items, item.(text := Preview(text), status := status))))
  {
    PreviewFits(text);
    var items := WithItem(c.items, item.(text := Preview(text), status := status));
    assert forall i :: 0 <= i < |c.items| ==> ItemKept(c.items[i], c.counter);
    RewriteKept(c, items);
    forall i | 0 <= i < |c.items| && c.items[i].status.Pending? ensures c.items[i] in items {
      assert items[i] == c.items[i];
    }
  }

  lemma ApplyTextCarries(c: Chat, e: Event)
    requires WellKept(c) && (e.kind.MessageDelta? || e.kind.MessageEnd?)
    ensures Carries(c, ApplyText(c, e))
  {
    hide Carries, WellKept;
    var text := if e.text.Some? then e.text.value else "";
    var clipped := Clip(text, TEXT_LIMIT);
    if StreamOpen(c) {
      var item := c.items[|c.items| - 1];
      LastIsAlone(c);
      TextCarries(c, item, if e.kind.MessageEnd? && e.text.Some? then text else item.text + clipped,
                  if e.kind.MessageEnd? then Complete else item.status);
    } else {
      var base := Add(c, Assistant, "", Streaming);
      var item := Item(base.counter, Assistant, "", Streaming, None, false);
      AddCarries(c, Assistant, "", Streaming, None, false);
      OpenedItem(c, base, item);
      CarriedIsKept(c, base);
      TextCarries(base, item,
                  if e.kind.MessageEnd? && e.text.Some? then text else "" + clipped,
                  if e.kind.MessageEnd? then Complete else Streaming);
      CarriesTransitive(c, base, ApplyText(c, e));
    }
  }

  lemma CarriedIsKept(c: Chat, d: Chat)
    requires Carries(c, d)
    ensures WellKept(d)
  {
  }

  lemma LastIsAlone(c: Chat)
    requires WellKept(c) && c.items != []
    ensures forall i :: 0 <= i < |c.items| && c.items[i].id == c.items[|c.items| - 1].id
              ==> c.items[i] == c.items[|c.items| - 1]
  {
    forall i | 0 <= i < |c.items| - 1 ensures c.items[i].id != c.items[|c.items| - 1].id {
      assert InOrder(c.items[i], c.items[|c.items| - 1]);
    }
  }

  lemma SubmitFailedKept(w: World, id: nat, key: string, started: bool, userItem: Option<nat>, message: string)
    requires WellKept(w.chat)
    ensures var d := SubmitFailed(w, id, key, started, userItem, message).chat;
            && WellKept(d) && Later(w.chat, d)
            && (userItem.None? || !IsPending(w.chat.items, userItem.value) ==> Carries(w.chat, d))
  {
    hide WellKept, Later, Stays;
    var c := w.chat;
    var c1 := if userItem.Some? then c.(items := Drop(c.items, userItem.value)) else c;
    if userItem.Some? { DropKept(c, userItem.value); } else { SameItemsCarries(c, c1); }
    var c2 := if started then c1.(busy := false, status := "failed") else c1;
    SameItemsCarries(c1, c2);
    AddCarries(c2, ErrorNote, Or(message, "The task could not start."), Complete, None, false);
    var d := Add(c2, ErrorNote, Or(message, "The task could not start."));
    CarriesTransitive(c1, c2, d);
    LaterTransitive(c, c1, d);
    if userItem.None? || !IsPending(c.items, userItem.value) { StaysTransitive(c, c1, d); }
  }

  lemma SendChatCarries(w: World, id: nat, task: Task)
    requires WellKept(w.chat)
    ensures Carries(w.chat, SendChat(w, id, task).chat)
    ensures var d := SendChat(w, id, task).chat; !IsPending(d.items, d.counter)
  {
    AddCarries(w.chat, UserTurn, task.instruction, Complete, None, false);
    hide Carries, Add;
    var d := SendChat(w, id, task).chat;
    assert forall i :: 0 <= i < |d.items| ==> d.items[i] in d.items;
  }

  lemma SubmitOnceCarries(w: World, id: nat, task: Task)
    requires WellKept(w.chat)
    ensures Carries(w.chat, SubmitOnce(w, id, task).chat)
  {
    hide WellKept, Later, Stays, SendChat, SubmitFailed;
    var c := w.chat;
    if Refusal(c, task).Some? {
      SubmitFailedKept(w, id, task.requestId, false, None, Refusal(c, task).value);
    } else {
      var v := Publish(w.(chat := c.(busy := true, status := "starting")));
      SameItemsCarries(c, v.chat);
      SendChatCarries(v, id, task);
      SubmitFailedKept(v, id, task.requestId, true, None, "Update the CLI to change permissions.");
      CarriesTransitive(c, v.chat, SendChat(v, id, task).chat);
      CarriesTransitive(c, v.chat,
                        SubmitFailed(v, id, task.requestId, true, None, "Update the CLI to change permissions.").chat);
    }
  }

  lemma SubmitAcceptedKept(w: World, id: nat, key: string, b: Body)
    requires WellKept(w.chat)
    ensures var d := SubmitAccepted(w, id, key, b).chat;
            && WellKept(d) && Later(w.chat, d) && (!Terminal(Or(b.status, "running")) ==> Carries(w.chat, d))
            && (Terminal(Or(b.status, "running")) ==> forall x :: x in d.items ==> !x.status.Pending?)
  {
    hide WellKept, Later, Stays, Finish;
    var d := w.chat.(jobId := Some(b.jobId), accepted := Some(key), status := Or(b.status, "running"));
    SameItemsCarries(w.chat, d);
    SameItemsCarries(w.chat, SchedulePoll(d));
    FinishKept(d, d.status);
    LaterTransitive(w.chat, d, Finish(d, d.status));
  }

  lemma SessionCreatedCarries(w: World, id: nat, task: Task, b: Body)
    requires WellKept(w.chat)
    ensures Carries(w.chat, SessionCreated(w, id, task, b).chat)
  {
    hide WellKept, Later, Stays, SendChat, SubmitFailed;
    if b.sessionId == "" {
      SubmitFailedKept(w, id, task.requestId, true, None, "The agent did not create a conversation.");
    } else {
      var v := w.(chat := w.chat.(sessionId := Some(b.sessionId), mode := Or(b.mode, task.mode), sequence := 0));
      SameItemsCarries(w.chat, v.chat);
      SendChatCarries(v, id, task);
      CarriesTransitive(w.chat, v.chat, SendChat(v, id, task).chat);
    }
  }

  lemma ModeChangedCarries(w: World, id: nat, task: Task, b: Body)
    requires WellKept(w.chat)
    ensures Carries(w.chat, ModeChanged(w, id, task, b).chat)
  {
    hide WellKept, Later, Stays, SendChat, SubmitFailed;
    var v := w.(chat := w.chat.(mode := Or(b.mode, w.chat.mode)));
    SameItemsCarries(w.chat, v.chat);
    if v.chat.mode != task.mode {
      SubmitFailedKept(v, id, task.requestId, true, None, "The agent did not accept the selected permissions.");
      CarriesTransitive(w.chat, v.chat, ModeChanged(w, id, task, b).chat);
    } else {
      SendChatCarries(v, id, task);
      CarriesTransitive(w.chat, v.chat, SendChat(v, id, task).chat);
    }
  }

  /** A reply that ends the turn of the current generation, and with it every pending approval. */
  predicate EndsTurn(c: Chat, f: Frame, reply: Reply) {
    && f.gen == c.generation && reply.Resolved?
    && match f
       case CancelFrame(_) => var status := Or(reply.body.status, "cancellation_requested");
           status == "closed" || Terminal(status)
       case PollFrame(_, _) => Terminal(Or(reply.body.status, c.status))
       case SubmitFrame(_, _, point) =>
           point.AwaitSend? && reply.body.jobId != "" && Terminal(Or(reply.body.status, "running"))
       case _ => false
  }

  /** An accepted answer to an approval. */
  predicate AnswersApproval(c: Chat, f: Frame, reply: Reply) {
    f.ApproveFrame? && f.gen == c.generation && reply.Resolved?
  }

  /** A failed `chat.send` takes its own message back, which is no pending approval. */
  predicate SparesPending(c: Chat, f: Frame) {
    f.SubmitFrame? && f.point.AwaitSend? ==> !IsPending(c.items, f.point.userItem)
  }

  /** What a reply does to the transcript. */
  ghost predicate Affects(c: Chat, d: Chat, f: Frame, reply: Reply) {
    && WellKept(d)
    && (!(AnswersApproval(c, f, reply) && !IsPending(c.items, f.item)) ==> Later(c, d))
    && (EndsTurn(c, f, reply) ==> forall x :: x in d.items ==> !x.status.Pending?)
    && (!EndsTurn(c, f, reply) && SparesPending(c, f) && d.generation == c.generation ==>
          Stays(c, d, if AnswersApproval(c, f, reply) then Some(f.item) else None))
    && (AnswersApproval(c, f, reply) ==> !IsPending(d.items, f.item) && d.generation == c.generation)
  }

  lemma CarriesAffects(c: Chat, d: Chat, f: Frame, reply: Reply)
    requires Carries(c, d) && !EndsTurn(c, f, reply) && !AnswersApproval(c, f, reply)
    ensures Affects(c, d, f, reply)
  {
  }

  lemma SubmitRepliedAffects(w: World, id: nat, f: Frame, reply: Reply)
    requires WellKept(w.chat) && f.SubmitFrame?
    ensures Affects(w.chat, SubmitReplied(w, id, f.gen, f.task, f.point, reply).chat, f, reply)
  {
    hide WellKept, Later, Stays, SubmitFailed, SubmitAccepted, SessionCreated, ModeChanged, SendChat;
    var c, task, point := w.chat, f.task, f.point;
    SameItemsCarries(c, c);
    if f.gen != c.generation { return; }
    if reply.Rejected? {
      SubmitFailedKept(w, id, task.requestId, true, if point.AwaitSend? then Some(point.userItem) else None,
                       reply.message);
      FailedKeepsGeneration(w, id, task.requestId, true, if point.AwaitSend? then Some(point.userItem) else None,
                            reply.message);
      return;
    }
    var b := reply.body;
    match point
    case AwaitCreate => SessionCreatedCarries(w, id, task, b);
    case AwaitModel =>
      var v := w.(chat := c.(model := Or(b.model, Or(b.modelName, c.model))));
      SameItemsCarries(c, v.chat);
      SendChatCarries(v, id, task);
      CarriesTransitive(c, v.chat, SendChat(v, id, task).chat);
    case AwaitMode => ModeChangedCarries(w, id, task, b);
    case AwaitSend(item) =>
      if b.jobId == "" {
        SubmitFailedKept(w, id, task.requestId, true, Some(item), "The agent did not start a task.");
      } else {
        SubmitAcceptedKept(w, id, task.requestId, b);
      }
  }

  lemma FailedKeepsGeneration(w: World, id: nat, key: string, started: bool, userItem: Option<nat>, message: string)
    ensures SubmitFailed(w, id, key, started, userItem, message).chat.generation == w.chat.generation
  {
  }

  lemma DisconnectedKept(w: World, reason: string)
    requires WellKept(w.chat)
    ensures var d := Disconnected(w, reason).chat;
            WellKept(d) && Later(w.chat, d) && d.generation == w.chat.generation + 1
  {
    var d := w.chat.(generation := w.chat.generation + 1, timer := None, connected := false,
                     connecting := false, requests := [], accepted := None, error := reason);
    SameItemsCarries(w.chat, d);
    FinishKept(d, "interrupted");
    hide WellKept, Later, Stays;
    var e := Finish(d, "interrupted");
    LaterTransitive(w.chat, d, e);
    SameItemsCarries(e, e.(sessionId := None));
    LaterTransitive(w.chat, e, e.(sessionId := None));
  }

  lemma PollRepliedAffects(w: World, f: Frame, reply: Reply)
    requires WellKept(w.chat) && f.PollFrame?
    ensures Affects(w.chat, PollReplied(w, f.gen, reply).chat, f, reply)
  {
    hide WellKept, Later, Stays, Disconnected, Finish;
    SameItemsCarries(w.chat, w.chat);
    if f.gen != w.chat.generation { return; }
    if reply.Rejected? {
      DisconnectedKept(w, Or(reply.message, "The local agent stopped responding."));
    } else {
      var status := Or(reply.body.status, w.chat.status);
      var c := w.chat.(status := status);
      SameItemsCarries(w.chat, c);
      SameItemsCarries(w.chat, SchedulePoll(c));
      FinishKept(c, status);
      LaterTransitive(w.chat, c, Finish(c, status));
      FinishIdles(c, status);
    }
  }

  lemma FinishIdles(c: Chat, status: string)
    ensures Finish(c, status).generation == c.generation && !Finish(c, status).busy && Finish(c, status).jobId.None?
  {
  }

  lemma CancelRepliedAffects(w: World, f: Frame, reply: Reply)
    requires WellKept(w.chat) && f.CancelFrame?
    ensures Affects(w.chat, CancelReplied(w, f.gen, reply).chat, f, reply)
  {
    hide WellKept, Later, Stays, Finish;
    SameItemsCarries(w.chat, w.chat);
    if f.gen == w.chat.generation && reply.Resolved? {
      var status := Or(reply.body.status, "cancellation_requested");
      var c := w.chat.(status := status);
      SameItemsCarries(w.chat, c);
      SameItemsCarries(w.chat, c.(sessionId := None));
      FinishKept(c, status);
      FinishKept(c.(sessionId := None), "cancelled");
      LaterTransitive(w.chat, c, Finish(c, status));
      LaterTransitive(w.chat, c.(sessionId := None), Finish(c.(sessionId := None), "cancelled"));
    }
  }

  lemma ApproveRepliedAffects(w: World, f: Frame, reply: Reply)
    requires WellKept(w.chat) && f.ApproveFrame?
    ensures Affects(w.chat, ApproveReplied(w, f.gen, f.item, f.decision, reply).chat, f, reply)
  {
    hide WellKept, Later, Stays, IsPending, SetStatus;
    SameItemsCarries(w.chat, w.chat);
    if AnswersApproval(w.chat, f, reply) {
      SettingKept(w.chat, f.item, if reply.body.status == "expired" then Expired else Decided(f.decision));
    }
  }

  lemma SettingKept(c: Chat, item: nat, status: ItemStatus)
    requires WellKept(c) && !status.Pending?
    ensures var d := c.(items := SetStatus(c.items, item, status));
            && WellKept(d) && !IsPending(d.items, item) && Stays(c, d, Some(item))
            && (IsPending(c.items, item) ==> Later(c, d))
  {
    var items := SetStatus(c.items, item, status);
    assert forall i :: 0 <= i < |c.items| ==> ItemKept(c.items[i], c.counter);
    RewriteKept(c, items);
    forall i | 0 <= i < |c.items| && c.items[i].id != item ensures c.items[i] in items {
      assert items[i] == c.items[i];
    }
    if IsPending(c.items, item) {
      OnlyOneHasId(c, item);
    }
  }

  lemma OnlyOneHasId(c: Chat, item: nat)
    requires WellKept(c) && IsPending(c.items, item)
    ensures forall i :: 0 <= i < |c.items| && c.items[i].id == item ==> c.items[i].status.Pending?
  {
    var k :| 0 <= k < |c.items| && c.items[k].id == item && c.items[k].status.Pending?;
    forall i | 0 <= i < |c.items| && c.items[i].id == item ensures i == k {
      assert i < k ==> InOrder(c.items[i], c.items[k]);
      assert k < i ==> InOrder(c.items[k], c.items[i]);
    }
  }

  lemma CaughtCarries(w: World, gen: nat, message: string)
    requires WellKept(w.chat)
    ensures Carries(w.chat, Caught(w, gen, message).chat)
  {
    SameItemsCarries(w.chat, w.chat);
    AddCarries(w.chat, ErrorNote, Or(message, "The action could not complete."), Complete, None, false);
  }

  lemma ApplyEventCarries(c: Chat, e: Event)
    requires WellKept(c) && !Unseen(c, e)
    ensures Carries(c, ApplyEvent(c, e))
  {
    hide WellKept, Carries, Evict;
    SameItemsCarries(c, c);
    match e.kind
    case MessageDelta => ApplyTextCarries(c, e);
    case MessageEnd => ApplyTextCarries(c, e);
    case Prompt =>
      if e.isApproval {
        AddCarries(c, Approval, Clip(Or(e.reason, e.promptText), TEXT_LIMIT), Pending, e.approvalId, e.allowForSession);
      }
    case ErrorRaised => AddCarries(c, ErrorNote,
                                   Or(Clip(Or(e.message, e.error), 4000), "The agent reported an error."), Complete,
                                   None, false);
    case ToolStarted => AddCarries(c, Notice, "Using " + Or(Clip(Or(e.toolName, e.name), 100), "a tool") + "…",
                                   Complete, None, false);
    case OtherEvent =>
  }

  lemma EventCarries(w: World, e: Event)
    requires WellKept(w.chat)
    ensures Carries(w.chat, OnEvent(w, e).chat)
  {
    hide WellKept, Carries, ApplyEvent, Unseen;
    SameItemsCarries(w.chat, w.chat);
    if Relevant(w.chat, e) && Newer(w.chat.sequence, e) {
      var c := w.chat.(sequence := e.sequence.value);
      SameItemsCarries(w.chat, c);
      CarriedIsKept(w.chat, c);
      if !Unseen(c, e) {
        ApplyEventCarries(c, e);
        CarriesTransitive(w.chat, c, ApplyEvent(c, e));
      }
    }
  }

  lemma SessionClearedKept(w: World, d: Chat)
    requires d.items == [] && d.counter == w.chat.counter
    ensures WellKept(d) && Later(w.chat, d)
  {
  }

  lemma NoteAffects(w: World, id: nat, f: Frame, reply: Reply)
    requires WellKept(w.chat) && (f.ModeFrame? || f.NativeFrame? || f.CatchFrame? || f.ConfigureFrame?)
    ensures Affects(w.chat, Replied(w, id, f, reply).chat, f, reply)
  {
    hide WellKept, Carries, Later, Stays, Disconnected, Caught;
    var c, d := w.chat, Replied(w, id, f, reply).chat;
    SameItemsCarries(c, c);
    if f.ConfigureFrame? && reply.Resolved? && reply.body.confirmed {
      DisconnectedKept(w, "");
      SameItemsCarries(Disconnected(w, "").chat, d);
      CarriedIsLater(Disconnected(w, "").chat, d);
      LaterTransitive(c, Disconnected(w, "").chat, d);
    } else {
      CaughtCarries(w, f.gen, if f.CatchFrame? then f.error else if reply.Rejected? then reply.message else "");
      if f.ModeFrame? && reply.Resolved? { SameItemsCarries(c, d); }
      CarriesAffects(c, d, f, reply);
    }
  }

  lemma CarriedIsLater(c: Chat, d: Chat)
    requires Carries(c, d)
    ensures WellKept(d) && Later(c, d)
  {
  }

  lemma RepliedAffects(w: World, id: nat, frame: Frame, reply: Reply)
    requires WellKept(w.chat) && (frame.WaiterFrame? ==> frame.call in w.settled)
    ensures Affects(w.chat, Replied(w, id, frame, reply).chat, frame, reply)
  {
    hide WellKept, Carries, Later, Stays;
    var c, d := w.chat, Replied(w, id, frame, reply).chat;
    match frame
    case ConnectFrame(gen) => SameItemsCarries(c, d); CarriesAffects(c, d, frame, reply);
    case SubmitFrame(gen, task, point) => SubmitRepliedAffects(w, id, frame, reply);
    case WaiterFrame(gen, key, call) => SameItemsCarries(c, d); CarriesAffects(c, d, frame, reply);
    case PollFrame(gen, _) => PollRepliedAffects(w, frame, reply);
    case ApproveFrame(gen, item, decision) => ApproveRepliedAffects(w, frame, reply);
    case CancelFrame(gen) => CancelRepliedAffects(w, frame, reply);
    case NewSessionFrame(gen) =>
      if reply.Resolved? && gen == c.generation {
        SessionClearedKept(w, d);
      } else {
        SameItemsCarries(c, d);
        CarriesAffects(c, d, frame, reply);
      }
    case _ => NoteAffects(w, id, frame, reply);
  }

  lemma SubmitTaskCarries(w: World, raw: Task)
    requires WellKept(w.chat)
    ensures Carries(w.chat, SubmitTask(w, raw).chat)
  {
    hide WellKept, Carries, SubmitOnce;
    var task := raw.(instruction := Instruction(raw));
    SameItemsCarries(w.chat, w.chat);
    if WellFormedId(task.requestId) && !Known(w.chat.requests, task.requestId) {
      var u := SubmitOnce(w.(nextId := w.nextId + 1), w.nextId, task);
      var v := Register(u, Request(task.requestId, task.instruction, w.nextId));
      SubmitOnceCarries(w.(nextId := w.nextId + 1), w.nextId, task);
      CarriedIsKept(w.chat, u.chat);
      SameItemsCarries(u.chat, v.chat);
      CarriesTransitive(w.chat, u.chat, v.chat);
    }
  }

  lemma ChangeModeCarries(w: World, mode: string)
    requires WellKept(w.chat)
    ensures Carries(w.chat, ChangeMode(w, mode).chat)
  {
    CaughtCarries(w, w.chat.generation, "Update the CLI to change permissions.");
    hide Caught, Carries;
    SameItemsCarries(w.chat, w.chat);
    SameItemsCarries(w.chat, w.chat.(mode := mode));
  }

  /** A message carries the transcript on, or moves to a new generation. */
  lemma HandleKept(w: World, m: Message)
    requires WellKept(w.chat)
    ensures var d := Handle(w, m).chat;
            && WellKept(d) && Later(w.chat, d) && (d.generation == w.chat.generation ==> Stays(w.chat, d))
  {
    hide WellKept, Carries, Later, Stays, SubmitTask, ChangeMode, Caught, NewSession, ViewOf, FindPending;
    var c, d := w.chat, Handle(w, m).chat;
    match m
    case Submit(raw) => SubmitTaskCarries(w, raw); CarriedParts(c, d);
    case SetModeTo(mode) => ChangeModeCarries(w, mode); CarriedParts(c, d);
    case NewTask => NewTaskKept(w);
    case Unsupported => CaughtCarries(w, c.generation, "This action is not available in the JetBrains preview yet.");
        CarriedParts(c, d);
    case _ => SameItemsCarries(c, d); CarriedParts(c, d);
  }

  lemma NewTaskKept(w: World)
    requires WellKept(w.chat)
    ensures var d := NewSession(w).chat;
            && WellKept(d) && Later(w.chat, d) && (d.generation == w.chat.generation ==> Stays(w.chat, d))
  {
    hide WellKept, Later, Stays;
    var c, d := w.chat, NewSession(w).chat;
    if !c.busy && c.sessionId.None? {
      SessionClearedKept(w, d);
    } else {
      SameItemsCarries(c, d);
    }
  }

  lemma CarriedParts(c: Chat, d: Chat)
    requires Carries(c, d)
    ensures WellKept(d) && Later(c, d) && Stays(c, d)
  {
  }

  lemma StepWellKept(w: World, input: Input)
    requires WellKept(w.chat)
    ensures WellKept(Step(w, input).chat)
  {
    hide WellKept, Carries, Later, Stays, Handle, OnEvent, Disconnected, Replied;
    match input
    case Deliver(m) => HandleKept(w, m);
    case HostEvent(e) => EventCarries(w, e); CarriedIsKept(w.chat, OnEvent(w, e).chat);
    case HostDisconnected(reason) => DisconnectedKept(w, reason);
    case Resume(id, reply) =>
      if Enabled(w, id) { RepliedAffects(w.(pending := w.pending - {id}), id, w.pending[id], reply); }
    case TimerFires => SameItemsCarries(w.chat, TimerFired(w).chat); CarriedIsKept(w.chat, TimerFired(w).chat);
  }

  /**
   The transcript in every reachable state: ids follow append order, approval ids never repeat, only
   approvals are pending, no text exceeds 100000 characters, whatever the agent streams, and beyond 200
   items there are only approvals.
   */
  lemma {:induction false} TranscriptWellKept(inputs: seq<Input>)
    ensures WellKept(Run(INITIAL, inputs).chat)
    decreases |inputs|
  {
    if inputs != [] {
      TranscriptWellKept(inputs[..|inputs| - 1]);
      StepWellKept(Run(INITIAL, inputs[..|inputs| - 1]), inputs[|inputs| - 1]);
    }
  }

  // ----- The event log tolerates duplicates -----

  function Feed(w: World, events: seq<Event>): World
    decreases |events|
  {
    if events == [] then w else OnEvent(Feed(w, events[..|events| - 1]), events[|events| - 1])
  }

  predicate Counts(c: Chat, e: Event) {
    Relevant(c, e) && Newer(c.sequence, e)
  }

  /** Position `k` raises the running maximum of the sequence numbers that count for this job. */
  predicate IsRecord(c: Chat, events: seq<Event>, k: nat)
    requires k < |events|
  {
    && Counts(c, events[k])
    && forall j :: 0 <= j < k && Counts(c, events[j]) ==> events[j].sequence.value < events[k].sequence.value
  }

  /** The strict running-maximum subsequence. */
  function Records(c: Chat, events: seq<Event>): seq<Event>
    decreases |events|
  {
    if events == [] then []
    else Records(c, events[..|events| - 1]) + if IsRecord(c, events, |events| - 1) then [events[|events| - 1]] else []
  }

  predicate SameJob(c: Chat, d: Chat) {
    c.sessionId == d.sessionId && c.jobId == d.jobId && c.busy == d.busy
  }

  lemma EventKeepsJob(w: World, e: Event)
    ensures SameJob(w.chat, OnEvent(w, e).chat)
    ensures OnEvent(w, e).chat.sequence == if Counts(w.chat, e) then e.sequence.value else w.chat.sequence
    ensures !Counts(w.chat, e) ==> OnEvent(w, e) == w
  {
    EventChangesItems(w.chat.(sequence := if Counts(w.chat, e) then e.sequence.value else 0), e);
  }

  /** The sequence number is the maximum of the starting one and every one that counted. */
  ghost predicate TopOf(c: Chat, events: seq<Event>, top: int) {
    && c.sequence <= top
    && (forall j :: 0 <= j < |events| && Counts(c, events[j]) ==> events[j].sequence.value <= top)
    && (top == c.sequence || exists j :: 0 <= j < |events| && Counts(c, events[j]) && events[j].sequence.value == top)
  }

  lemma {:induction false} FeedTop(w: World, events: seq<Event>)
    ensures SameJob(w.chat, Feed(w, events).chat)
    ensures TopOf(w.chat, events, Feed(w, events).chat.sequence)
    decreases |events|
  {
    if events != [] {
      var front, e := events[..|events| - 1], events[|events| - 1];
      FeedTop(w, front);
      EventKeepsJob(Feed(w, front), e);
      var top := Feed(w, events).chat.sequence;
      forall j | 0 <= j < |events| && Counts(w.chat, events[j]) ensures events[j].sequence.value <= top {
        assert j < |front| ==> events[j] == front[j];
      }
      if Counts(Feed(w, front).chat, e) {
        assert events[|events| - 1].sequence.value == top;
      } else if top != w.chat.sequence {
        var j :| 0 <= j < |front| && Counts(w.chat, front[j]) && front[j].sequence.value == top;
        assert events[j] == front[j];
      }
    }
  }

  /**
   Duplicates and stale redeliveries do not matter: any stream of agent events has the same effect, on
   the transcript and on everything sent to the sidebar, as its strict running-maximum subsequence.
   */
  lemma {:induction false} OnlyRecordsMatter(w: World, events: seq<Event>)
    ensures Feed(w, events) == Feed(w, Records(w.chat, events))
    decreases |events|
  {
    if events != [] {
      var front, e := events[..|events| - 1], events[|events| - 1];
      OnlyRecordsMatter(w, front);
      FeedTop(w, front);
      var before := Feed(w, front);
      EventKeepsJob(before, e);
      assert forall j :: 0 <= j < |front| ==> events[j] == front[j];
      if IsRecord(w.chat, events, |events| - 1) {
        var rest := Records(w.chat, front);
        assert (rest + [e])[..|rest + [e]| - 1] == rest;
      } else {
        assert !Counts(before.chat, e);
        assert Records(w.chat, events) == Records(w.chat, front);
      }
    }
  }

  /** Redelivering events that were already delivered, in any order and number, changes nothing. */
  lemma {:induction false} ReplayIsSilent(w: World, events: seq<Event>, again: seq<Event>)
    requires forall e :: e in again ==> e in events
    ensures Feed(Feed(w, events), again) == Feed(w, events)
    decreases |again|
  {
    if again != [] {
      var e := again[|again| - 1];
      ReplayIsSilent(w, events, again[..|again| - 1]);
      FeedTop(w, events);
      assert e in events;
      EventKeepsJob(Feed(w, events), e);
    }
  }
}
