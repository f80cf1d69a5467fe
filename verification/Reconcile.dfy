/** The keyed, in-place reconciliation of the transcript's child list with the entries to be shown. */
module Reconcile {
  import opened Wrappers

  type Node = nat

  /** What is to be shown; a `work` entry is updated inside its node, any other is rebuilt. */
  datatype Entry = Entry(id: string, work: bool, signature: string)
  datatype Record = Record(signature: string, node: Node)

  // ----- Lists of nodes -----

  ghost predicate Distinct<T>(s: seq<T>) {
    forall i, j :: 0 <= i < j < |s| ==> s[i] != s[j]
  }

  /** The fields of the view that a reconciliation changes. */
  datatype State = State(rendered: map<string, Record>, children: seq<Node>, nextNode: Node, moved: seq<Node>)

  /** What is left of a list when some nodes are taken out. */
  function Minus(s: seq<Node>, gone: set<Node>): (r: seq<Node>)
    ensures |r| <= |s|
  {
    if s == [] then []
    else
      var front := Minus(s[..|s| - 1], gone);
      var last := s[|s| - 1];
      if last in gone then front else front + [last]
  }

  lemma {:induction false} MinusMembers(s: seq<Node>, gone: set<Node>)
    ensures forall x :: x in Minus(s, gone) <==> x in s && x !in gone
    decreases |s|
  {
    if s != [] {
      assert s == s[..|s| - 1] + [s[|s| - 1]];
      MinusMembers(s[..|s| - 1], gone);
    }
  }

  lemma {:induction false} MinusAppend(s: seq<Node>, t: seq<Node>, gone: set<Node>)
    ensures Minus(s + t, gone) == Minus(s, gone) + Minus(t, gone)
    decreases |t|
  {
    if t == [] {
      assert s + t == s;
    } else {
      assert (s + t)[..|s + t| - 1] == s + t[..|t| - 1];
      MinusAppend(s, t[..|t| - 1], gone);
    }
  }

  lemma {:induction false} MinusTwice(s: seq<Node>, a: set<Node>, b: set<Node>)
    ensures Minus(Minus(s, a), b) == Minus(s, a + b)
    decreases |s|
  {
    if s != [] {
      var front, last := s[..|s| - 1], s[|s| - 1];
      MinusTwice(front, a, b);
      if last !in a {
        assert (Minus(front, a) + [last])[..|Minus(front, a)|] == Minus(front, a);
      }
    }
  }

  lemma {:induction false} MinusNone(s: seq<Node>, gone: set<Node>)
    requires forall x :: x in s ==> x !in gone
    ensures Minus(s, gone) == s
    decreases |s|
  {
    if s != [] {
      assert s == s[..|s| - 1] + [s[|s| - 1]];
      MinusNone(s[..|s| - 1], gone);
    }
  }

  lemma {:induction false} MinusDistinct(s: seq<Node>, gone: set<Node>)
    requires Distinct(s)
    ensures Distinct(Minus(s, gone))
    decreases |s|
  {
    if s != [] {
      assert s == s[..|s| - 1] + [s[|s| - 1]];
      assert s[|s| - 1] !in s[..|s| - 1];
      MinusMembers(s[..|s| - 1], gone);
      MinusDistinct(s[..|s| - 1], gone);
    }
  }

  lemma MinusOne(s: seq<Node>, x: Node, t: seq<Node>)
    requires x !in s && x !in t
    ensures Minus(s + [x] + t, {x}) == s + t
  {
    MinusAppend(s + [x], t, {x});
    MinusAppend(s, [x], {x});
    MinusNone(s, {x});
    MinusNone(t, {x});
    assert Minus([x], {x}) == [];
  }

  function IndexOf(s: seq<Node>, x: Node): (i: nat)
    ensures i <= |s| && (i < |s| <==> x in s)
    ensures i < |s| ==> s[i] == x
  {
    if s == [] then 0
    else if s[0] == x then 0
    else
      assert s == [s[0]] + s[1..];
      IndexOf(s[1..], x) + 1
  }

  /** The child list after `insertBefore(x, reference)`; without a reference the node goes to the end. */
  function Inserted(children: seq<Node>, x: Node, reference: Option<Node>): seq<Node> {
    var rest := Minus(children, {x});
    var i := if reference.Some? then IndexOf(rest, reference.value) else |rest|;
    rest[..i] + [x] + rest[i..]
  }

  function NextSibling(children: seq<Node>, x: Node): Option<Node> {
    var i := IndexOf(children, x);
    if i + 1 < |children| then Some(children[i + 1]) else None
  }

  /** Where the next node belongs: after the cursor, or first. */
  function Reference(children: seq<Node>, cursor: Option<Node>): Option<Node> {
    if cursor.Some? then NextSibling(children, cursor.value)
    else if children != [] then Some(children[0]) else None
  }

  lemma ReferenceNext(placed: seq<Node>, rest: seq<Node>, cursor: Option<Node>)
    requires Distinct(placed + rest)
    requires cursor == if placed == [] then None else Some(placed[|placed| - 1])
    ensures Reference(placed + rest, cursor) == if rest == [] then None else Some(rest[0])
  {
    var all := placed + rest;
    if placed != [] {
      var k := |placed| - 1;
      assert all == placed[..k] + ([placed[k]] + rest);
      assert all[k] == placed[k];
      assert placed[k] !in placed[..k] by {
        assert forall i :: 0 <= i < k ==> all[i] == placed[..k][i];
      }
      IndexOfAppend(placed[..k], [placed[k]] + rest, placed[k]);
    }
  }

  lemma AfterPlaced(placed: seq<Node>, rest: seq<Node>)
    requires Distinct(placed + rest)
    ensures rest != [] ==> rest[0] !in placed && rest[0] !in rest[1..]
  {
    if rest != [] {
      var all := placed + rest;
      assert all[|placed|] == rest[0];
      forall i | 0 <= i < |placed| ensures placed[i] != rest[0] { assert all[i] == placed[i]; }
      forall i | 0 <= i < |rest| - 1 ensures rest[1..][i] != rest[0] { assert all[|placed| + 1 + i] == rest[1..][i]; }
    }
  }

  /** Putting `x` behind the placed nodes takes it out of the rest, and changes nothing if it is there already. */
  lemma PlacedNext(placed: seq<Node>, rest: seq<Node>, x: Node)
    requires Distinct(placed + rest) && x !in placed
    ensures rest != [] && rest[0] == x ==> placed + [x] + Minus(rest, {x}) == placed + rest
    ensures !(rest != [] && rest[0] == x) ==>
              Inserted(placed + rest, x, if rest == [] then None else Some(rest[0])) == placed + [x] + Minus(rest, {x})
  {
    hide Minus, IndexOf, Distinct;
    AfterPlaced(placed, rest);
    if rest != [] && rest[0] == x {
      assert rest == [] + [x] + rest[1..];
      MinusOne([], x, rest[1..]);
    } else {
      var left := Minus(rest, {x});
      MinusAppend(placed, rest, {x});
      MinusNone(placed, {x});
      if rest != [] {
        HeadSurvives(rest, x);
        IndexOfAppend(placed, left, rest[0]);
        IndexOfHead(left);
      } else {
        MinusNone(rest, {x});
      }
      assert (placed + left)[..|placed|] == placed && (placed + left)[|placed|..] == left;
    }
  }

  lemma IndexOfHead(s: seq<Node>)
    requires s != []
    ensures IndexOf(s, s[0]) == 0
  {
  }

  lemma {:induction false} IndexOfAppend(s: seq<Node>, t: seq<Node>, x: Node)
    requires x !in s
    ensures IndexOf(s + t, x) == |s| + IndexOf(t, x)
  {
    if s == [] {
      assert s + t == t;
    } else {
      assert (s + t)[1..] == s[1..] + t;
      IndexOfAppend(s[1..], t, x);
    }
  }

  lemma {:induction false} HeadSurvives(s: seq<Node>, x: Node)
    requires s != [] && s[0] != x
    ensures Minus(s, {x}) != [] && Minus(s, {x})[0] == s[0]
    decreases |s|
  {
    if |s| > 1 {
      HeadSurvives(s[..|s| - 1], x);
    } else {
      assert s[..0] == [];
    }
  }

  // ----- What the entries ask for -----

  function Ids(entries: seq<Entry>): (r: seq<string>)
    ensures |r| == |entries| && forall i :: 0 <= i < |r| ==> r[i] == entries[i].id
  {
    seq(|entries|, i requires 0 <= i < |entries| => entries[i].id)
  }

  /** The nodes of the entries, in order. */
  ghost function Placed(rendered: map<string, Record>, entries: seq<Entry>): (r: seq<Node>)
    requires forall e :: e in entries ==> e.id in rendered
    ensures |r| == |entries| && forall i :: 0 <= i < |r| ==> r[i] == rendered[entries[i].id].node
  {
    seq(|entries|, i requires 0 <= i < |entries| => assert entries[i] in entries; rendered[entries[i].id].node)
  }

  ghost function Nodes(rendered: map<string, Record>): set<Node> {
    set k | k in rendered :: rendered[k].node
  }

  ghost function NodesOf(rendered: map<string, Record>, entries: seq<Entry>): set<Node> {
    set e | e in entries && e.id in rendered :: rendered[e.id].node
  }

  /** The nodes that the entries already have among the children, in the order of the entries. */
  ghost function Attached(rendered: map<string, Record>, children: seq<Node>, entries: seq<Entry>): seq<Node> {
    if entries == [] then []
    else
      var e := entries[|entries| - 1];
      Attached(rendered, children, entries[..|entries| - 1])
      + if e.id in rendered && rendered[e.id].node in children then [rendered[e.id].node] else []
  }

  predicate Kept(rendered: map<string, Record>, e: Entry) {
    e.id in rendered && (e.work || rendered[e.id].signature == e.signature)
  }

  ghost predicate Injective(rendered: map<string, Record>) {
    forall a, b :: a in rendered && b in rendered && a != b ==> rendered[a].node != rendered[b].node
  }

  // ----- The view -----

  class ConversationView {
    /** The child nodes of the transcript element. */
    var children: seq<Node>
    /** `renderedItems` */
    var rendered: map<string, Record>
    /** What each node displays, as the signature of the entry it was rendered or updated for. */
    var shown: map<Node, string>
    var nextNode: Node
    /** The nodes that were moved while they were attached; the browser drops their focus and selection. */
    var moved: seq<Node>

    ghost predicate Valid()
      reads this
    {
      && WellFormed(Value())
      && forall k :: k in rendered ==> rendered[k].node in shown && shown[rendered[k].node] == rendered[k].signature
    }

    ghost function Value(): State
      reads this
    {
      State(rendered, children, nextNode, moved)
    }

    constructor ()
      ensures Valid() && children == [] && rendered == map[] && moved == []
    {
      children, rendered, shown, nextNode, moved := [], map[], map[], 0, [];
    }

    /** `renderConversationItem` */
    method Render(entry: Entry) returns (node: Node)
      modifies `shown, `nextNode
      ensures node == old(nextNode) && nextNode == node + 1 && shown == old(shown)[node := entry.signature]
    {
      node := nextNode;
      nextNode := nextNode + 1;
      shown := shown[node := entry.signature];
    }

    method InsertBefore(node: Node, reference: Option<Node>)
      requires reference.Some? ==> reference.value in children && reference.value != node
      modifies `children, `moved
      ensures children == Inserted(old(children), node, reference)
      ensures moved == if node in old(children) then old(moved) + [node] else old(moved)
    {
      if node in children {
        moved := moved + [node];
      }
      children := Inserted(children, node, reference);
    }

    method ReplaceChild(replacement: Node, node: Node)
      requires node in children && replacement !in children
      modifies `children
      ensures children == old(children)[IndexOf(old(children), node) := replacement]
    {
      children := children[IndexOf(children, node) := replacement];
    }

    /** Creates, rebuilds or updates the node of one entry. */
    method Refresh(entry: Entry) returns (node: Node)
      requires Valid()
      modifies `children, `rendered, `shown, `nextNode
      ensures Valid() && old(nextNode) <= nextNode
      ensures rendered == old(rendered)[entry.id := Record(entry.signature, node)]
      ensures if Kept(old(rendered), entry) then node == old(rendered)[entry.id].node else old(nextNode) <= node
      ensures children == if entry.id in old(rendered) && old(rendered)[entry.id].node in old(children)
                          then old(children)[IndexOf(old(children), old(rendered)[entry.id].node) := node]
                          else old(children)
    {
      if entry.id !in rendered {
        node := Render(entry);
        rendered := rendered[entry.id := Record(entry.signature, node)];
        return;
      }
      var record := rendered[entry.id];
      node := record.node;
      if record.signature != entry.signature {
        var replacement := Render(entry);
        if entry.work {
          shown := shown[node := entry.signature];
        } else {
          if node in children {
            ghost var was := children;
            ReplaceChild(replacement, node);
            ReplacedKeeps(was, IndexOf(was, node), replacement, children);
          }
          node := replacement;
        }
      }
      rendered := rendered[entry.id := Record(entry.signature, node)];
    }

    method Place(node: Node, cursor: Option<Node>)
      modifies `children, `moved
      requires Distinct(children)
      ensures var r := Reference(old(children), cursor);
              && children == (if r == Some(node) then old(children) else Inserted(old(children), node, r))
              && moved == (if r != Some(node) && node in old(children) then old(moved) + [node] else old(moved))
    {
      var reference := Reference(children, cursor);
      if reference != Some(node) {
        InsertBefore(node, reference);
      }
    }

    /** Takes away the node and the record of an entry that is no longer wanted. */
    method RemoveEntry(key: string)
      requires Valid() && key in rendered
      modifies `children, `rendered
      ensures Valid() && rendered == Only(old(rendered), old(rendered).Keys - {key})
      ensures children == Minus(old(children), {old(rendered)[key].node})
    {
      var node := rendered[key].node;
      MinusDistinct(children, {node});
      MinusMembers(children, {node});
      if node in children {
        children := Minus(children, {node});
      } else {
        MinusNone(children, {node});
      }
      rendered := Only(rendered, rendered.Keys - {key});
    }

    method RemoveStale(seen: set<string>)
      requires Valid() && seen <= rendered.Keys
      modifies `children, `rendered
      ensures Valid()
      ensures rendered == Only(old(rendered), seen)
      ensures children == Minus(old(children), Nodes(Only(old(rendered), old(rendered).Keys - seen)))
    {
      hide Distinct, Injective, Nodes, Minus, Only;
      ghost var was, all := rendered, rendered.Keys;
      var stale := rendered.Keys - seen;
      ghost var done: set<string> := {};
      NothingRemoved(rendered, children);
      while stale != {}
        invariant Valid() && stale <= all && done !! stale && done + stale == all - seen
        invariant rendered == Only(was, all - done)
        invariant children == Minus(old(children), Nodes(Only(was, done)))
        decreases |stale|
      {
        var key :| key in stale;
        MinusTwice(old(children), Nodes(Only(was, done)), {was[key].node});
        NodesMore(was, done, key);
        OnlyKeys(was, all - done);
        OnlyTwice(was, all - done, key);
        assert all - (done + {key}) == all - done - {key};
        RemoveEntry(key);
        done := done + {key};
        stale := stale - {key};
      }
      assert done == all - seen && all - done == seen;
    }

    /** One round of the loop. */
    method ReconcileEntry(entry: Entry, cursor: Option<Node>, ghost was: State, ghost done: seq<Entry>)
        returns (node: Node)
      requires Valid() && WellFormed(was) && Progress(was, done, Value())
      requires entry.id !in IdSet(done) && cursor == LastPlaced(rendered, done)
      modifies this
      ensures Valid() && Progress(was, done + [entry], Value())
      ensures LastPlaced(rendered, done + [entry]) == Some(node)
    {
      hide Progress, Reference, Inserted, Kept, IndexOf, Distinct, Injective;
      ghost var before := Value();
      node := Refresh(entry);
      ghost var refreshed := Value();
      Place(node, cursor);
      Progresses(was, done, entry, before, refreshed, Value());
      LastIs(was, done, entry, Value());
    }

    /**
     Afterwards the children are exactly the nodes of the entries, in order, before whatever the view
     never rendered; an entry whose record is kept has its identical node, any other a new one; and no
     attached node is moved exactly when the surviving nodes already lead the list.
     */
    method Reconcile(entries: seq<Entry>)
      requires Valid() && Distinct(Ids(entries))
      modifies this
      ensures Valid() && rendered.Keys == IdSet(entries)
      ensures forall e :: e in entries ==> FollowsFrom(old(rendered), old(nextNode), e, rendered[e.id])
      ensures children == Placed(rendered, entries) + Minus(old(children), Nodes(old(rendered)))
      ensures moved == old(moved) <==> Attached(old(rendered), old(children), entries) <= old(children)
    {
      hide Distinct, Injective, Nodes, Minus, Only, FollowsFrom, Attached, Placed, IdSet;
      ghost var was := Value();
      var cursor := None;
      NoProgress(was);
      for i := 0 to |entries|
        invariant Valid() && Progress(was, entries[..i], Value())
        invariant cursor == LastPlaced(rendered, entries[..i])
      {
        hide WellFormed, Progress, LastPlaced;
        assert entries[..i + 1] == entries[..i] + [entries[i]];
        DistinctIds(entries, i);
        var node := ReconcileEntry(entries[i], cursor, was, entries[..i]);
        cursor := Some(node);
      }
      assert entries[..|entries|] == entries;
      ghost var done := Value();
      RemoveStale(set e | e in entries :: e.id);
      SeenIds(entries);
      Finished(was, entries, done, Value());
    }
  }

  ghost function IdSet(entries: seq<Entry>): set<string> {
    set e | e in entries :: e.id
  }

  /** The record is the kept one, or one for a new node; either way with the entry's signature. */
  ghost predicate FollowsFrom(rendered: map<string, Record>, nextNode: Node, e: Entry, record: Record) {
    && record.signature == e.signature
    && if Kept(rendered, e) then record.node == rendered[e.id].node else nextNode <= record.node
  }

  lemma NothingRemoved(rendered: map<string, Record>, children: seq<Node>)
    ensures rendered == Only(rendered, rendered.Keys - {}) && children == Minus(children, Nodes(Only(rendered, {})))
  {
    MinusNone(children, Nodes(Only(rendered, {})));
  }

  lemma OnlyKeys(rendered: map<string, Record>, keys: set<string>)
    requires keys <= rendered.Keys
    ensures Only(rendered, keys).Keys == keys && forall k :: k in keys ==> Only(rendered, keys)[k] == rendered[k]
  {
  }

  lemma OnlyTwice(rendered: map<string, Record>, keys: set<string>, key: string)
    requires keys <= rendered.Keys
    ensures var some := Only(rendered, keys); Only(some, some.Keys - {key}) == Only(rendered, keys - {key})
  {
  }

  function Only(rendered: map<string, Record>, keys: set<string>): map<string, Record> {
    map k | k in rendered && k in keys :: rendered[k]
  }

  lemma NodesMore(rendered: map<string, Record>, done: set<string>, key: string)
    requires key in rendered
    ensures Nodes(Only(rendered, done + {key})) == Nodes(Only(rendered, done)) + {rendered[key].node}
  {
    var more := Only(rendered, done + {key});
    forall x | x in Nodes(more) ensures x in Nodes(Only(rendered, done)) + {rendered[key].node} {
      var k :| k in more && more[k].node == x;
      assert k != key ==> k in Only(rendered, done);
    }
    forall x | x in Nodes(Only(rendered, done)) + {rendered[key].node} ensures x in Nodes(more) {
      if x == rendered[key].node {
        assert more[key].node == x;
      } else {
        var k :| k in Only(rendered, done) && rendered[k].node == x;
        assert more[k].node == x;
      }
    }
  }

  lemma ReplacedKeeps(s: seq<Node>, i: nat, x: Node, t: seq<Node>)
    requires Distinct(s) && x !in s && i < |s| && t == s[i := x]
    ensures Distinct(t) && forall y :: y in t ==> y in s || y == x
  {
  }

  // ----- One entry after the other -----

  ghost predicate WellFormed(s: State) {
    && Distinct(s.children) && Injective(s.rendered)
    && (forall c :: c in s.children ==> c < s.nextNode)
    && (forall k :: k in s.rendered ==> s.rendered[k].node < s.nextNode)
  }

  /** How far the entries in `done` have brought the view from `was`. */
  ghost predicate Progress(was: State, done: seq<Entry>, now: State) {
    && was.nextNode <= now.nextNode
    && now.rendered.Keys == was.rendered.Keys + IdSet(done)
    && (forall e :: e in done ==>
          e.id in now.rendered && FollowsFrom(was.rendered, was.nextNode, e, now.rendered[e.id]))
    && (forall k :: k in was.rendered && k !in IdSet(done) ==> now.rendered[k] == was.rendered[k])
    && now.children == Placed(now.rendered, done) + Minus(was.children, NodesOf(was.rendered, done))
    && was.moved <= now.moved
    && (now.moved == was.moved <==> Attached(was.rendered, was.children, done) <= was.children)
  }

  lemma SeenIds(entries: seq<Entry>)
    ensures IdSet(entries) == set e | e in entries :: e.id
  {
  }

  lemma LastIs(was: State, done: seq<Entry>, e: Entry, now: State)
    requires Progress(was, done + [e], now)
    ensures LastPlaced(now.rendered, done + [e]) == Some(now.rendered[e.id].node)
  {
    assert (done + [e])[|done|] == e;
  }

  lemma NoProgress(was: State)
    ensures Progress(was, [], was)
  {
    MinusNone(was.children, {});
    assert NodesOf(was.rendered, []) == {};
  }

  lemma DistinctIds(entries: seq<Entry>, i: nat)
    requires Distinct(Ids(entries)) && i < |entries|
    ensures entries[i].id !in IdSet(entries[..i])
  {
    forall e | e in entries[..i] ensures e.id != entries[i].id {
      var j :| 0 <= j < i && entries[j] == e;
      assert Ids(entries)[j] != Ids(entries)[i];
    }
  }

  /** What `Refresh` does to the state. */
  ghost predicate Refreshed(before: State, e: Entry, now: State) {
    && e.id in now.rendered && before.nextNode <= now.nextNode && now.moved == before.moved
    && var node := now.rendered[e.id].node;
    && now.rendered == before.rendered[e.id := Record(e.signature, node)]
    && (if Kept(before.rendered, e) then node == before.rendered[e.id].node else before.nextNode <= node)
    && now.children == if e.id in before.rendered && before.rendered[e.id].node in before.children
                       then before.children[IndexOf(before.children, before.rendered[e.id].node) := node]
                       else before.children
  }

  /** What `Place` does to it. */
  ghost predicate PutAt(before: State, node: Node, reference: Option<Node>, now: State) {
    && now.rendered == before.rendered && now.nextNode == before.nextNode
    && now.children == (if reference == Some(node) then before.children else Inserted(before.children, node, reference))
    && now.moved == (if reference != Some(node) && node in before.children then before.moved + [node] else before.moved)
  }

  /** Among the children that are still to be placed, the refreshed node stands where the old one stood. */
  lemma RestRefreshed(placed: seq<Node>, rest: seq<Node>, old_: Node, node: Node)
    requires Distinct(placed + rest) && old_ !in placed
    requires node == old_ || node !in placed + rest
    ensures old_ in placed + rest <==> old_ in rest
    ensures old_ in rest ==>
              var rest' := rest[IndexOf(rest, old_) := node];
              && (placed + rest)[IndexOf(placed + rest, old_) := node] == placed + rest'
              && Minus(rest', {node}) == Minus(rest, {old_})
              && (rest'[0] == node <==> rest[0] == old_)
              && node in rest'
  {
    if old_ in rest {
      IndexOfAppend(placed, rest, old_);
      var i := IndexOf(rest, old_);
      assert rest == rest[..i] + [old_] + rest[i + 1..];
      var rest' := rest[i := node];
      assert rest' == rest[..i] + [node] + rest[i + 1..];
      forall k | 0 <= k < |rest| && k != i ensures rest[k] != old_ {
        assert (placed + rest)[|placed| + k] == rest[k] && (placed + rest)[|placed| + i] == old_;
      }
      assert forall k :: 0 <= k < |rest| ==> rest[k] in placed + rest;
      MinusOne(rest[..i], old_, rest[i + 1..]);
      MinusOne(rest[..i], node, rest[i + 1..]);
      assert rest'[i] == node;
    }
  }

  /** The children that are still to be placed, once one more entry has been. */
  lemma RestNext(was: State, done: seq<Entry>, e: Entry)
    ensures var rest, more := Minus(was.children, NodesOf(was.rendered, done)),
            Minus(was.children, NodesOf(was.rendered, done + [e]));
            more == if e.id in was.rendered then Minus(rest, {was.rendered[e.id].node}) else rest
  {
    if e.id in was.rendered {
      assert NodesOf(was.rendered, done + [e]) == NodesOf(was.rendered, done) + {was.rendered[e.id].node};
      MinusTwice(was.children, NodesOf(was.rendered, done), {was.rendered[e.id].node});
    } else {
      assert NodesOf(was.rendered, done + [e]) == NodesOf(was.rendered, done);
    }
  }

  lemma {:induction false} AttachedMembers(rendered: map<string, Record>, children: seq<Node>, done: seq<Entry>)
    ensures forall x :: x in Attached(rendered, children, done) <==> x in NodesOf(rendered, done) && x in children
    decreases |done|
  {
    if done != [] {
      var front, e := done[..|done| - 1], done[|done| - 1];
      AttachedMembers(rendered, children, front);
      assert done == front + [e];
      assert NodesOf(rendered, done) == NodesOf(rendered, front) + if e.id in rendered then {rendered[e.id].node}
          else {};
    }
  }

  /** While the surviving nodes lead the children, the rest is what follows them. */
  lemma RestAfterAttached(was: State, done: seq<Entry>)
    requires Distinct(was.children)
    requires Attached(was.rendered, was.children, done) <= was.children
    ensures Minus(was.children, NodesOf(was.rendered, done)) ==
            was.children[|Attached(was.rendered, was.children, done)|..]
  {
    var a, c, gone := Attached(was.rendered, was.children, done), was.children, NodesOf(was.rendered, done);
    AttachedMembers(was.rendered, c, done);
    hide Attached, Minus, NodesOf, Distinct;
    var rest := c[|a|..];
    assert c == a + rest;
    AfterPrefix(a, rest);
    assert forall x :: x in rest ==> x in c;
    MinusAppend(a, rest, gone);
    MinusNone(rest, gone);
    MinusAll(a, gone);
  }

  lemma AfterPrefix(a: seq<Node>, rest: seq<Node>)
    requires Distinct(a + rest)
    ensures forall x :: x in rest ==> x !in a
  {
    forall i, j | 0 <= i < |a| && 0 <= j < |rest| ensures a[i] != rest[j] {
      assert (a + rest)[i] == a[i] && (a + rest)[|a| + j] == rest[j];
    }
  }

  lemma {:induction false} MinusAll(s: seq<Node>, gone: set<Node>)
    requires forall x :: x in s ==> x in gone
    ensures Minus(s, gone) == []
    decreases |s|
  {
    if s != [] {
      assert s == s[..|s| - 1] + [s[|s| - 1]];
      MinusAll(s[..|s| - 1], gone);
    }
  }

  /** A further surviving node keeps the lead exactly when it is the first of the rest. */
  lemma LeadKept(was: State, done: seq<Entry>, e: Entry)
    requires Distinct(was.children)
    requires e.id in was.rendered && was.rendered[e.id].node in was.children
    ensures var a, o := Attached(was.rendered, was.children, done), was.rendered[e.id].node;
            var rest := Minus(was.children, NodesOf(was.rendered, done));
            Attached(was.rendered, was.children, done + [e]) == a + [o]
            && (a + [o] <= was.children <==> a <= was.children && rest != [] && rest[0] == o)
  {
    var a, o := Attached(was.rendered, was.children, done), was.rendered[e.id].node;
    assert (done + [e])[..|done + [e]| - 1] == done;
    if a <= was.children {
      RestAfterAttached(was, done);
      var c := was.children;
      if a + [o] <= c {
        assert (a + [o])[|a|] == o;
        assert c[|a|] == o;
      }
      if c[|a|..] != [] && c[|a|..][0] == o {
        assert c[..|a| + 1] == a + [o];
      }
    }
    if a + [o] <= was.children {
      assert a <= a + [o];
    }
  }

  lemma PlacedSnoc(rendered: map<string, Record>, more: map<string, Record>, done: seq<Entry>, e: Entry)
    requires forall d :: d in done ==> d.id in rendered && d.id in more && more[d.id].node == rendered[d.id].node
    requires e.id in more
    ensures Placed(more, done + [e]) == Placed(rendered, done) + [more[e.id].node]
  {
    assert forall d :: d in done + [e] ==> d in done || d == e;
    assert forall i :: 0 <= i < |done| ==> done[i] in done;
  }

  /** The children after `Refresh`: the placed nodes, and a rest in which the entry's node may stand. */
  lemma RefreshedChildren(was: State, done: seq<Entry>, e: Entry, before: State, refreshed: State)
      returns (rest: seq<Node>)
    requires WellFormed(was) && WellFormed(before)
    requires Progress(was, done, before) && e.id !in IdSet(done)
    requires Refreshed(before, e, refreshed)
    ensures var node := refreshed.rendered[e.id].node;
            && node !in Placed(before.rendered, done)
            && refreshed.children == Placed(before.rendered, done) + rest
            && Minus(rest, {node}) == Minus(was.children, NodesOf(was.rendered, done + [e]))
            && var left := Minus(was.children, NodesOf(was.rendered, done));
               if e.id in was.rendered && was.rendered[e.id].node in was.children
               then node in refreshed.children
                   && ((rest != [] && rest[0] == node) <==> left != [] && left[0] == was.rendered[e.id].node)
               else node !in refreshed.children
  {
    hide Minus, FollowsFrom, Attached;
    var placed, node := Placed(before.rendered, done), refreshed.rendered[e.id].node;
    rest := Minus(was.children, NodesOf(was.rendered, done));
    RestNext(was, done, e);
    MinusMembers(was.children, NodesOf(was.rendered, done));
    forall x | x in placed ensures exists d :: d in done && before.rendered[d.id].node == x {
      var i :| 0 <= i < |placed| && placed[i] == x;
      assert done[i] in done;
    }
    forall d | d in done ensures d.id in IdSet(done) { }
    assert forall x :: x in placed || x in rest ==> x in before.children;
    if e.id in was.rendered {
      var o := was.rendered[e.id].node;
      assert before.rendered[e.id].node == o;
      assert o !in placed;
      OldNodeWaits(was, done, e);
      RestRefreshed(placed, rest, o, node);
      if o in rest {
        rest := rest[IndexOf(rest, o) := node];
      } else {
        MinusNone(rest, {node});
        MinusNone(rest, {o});
      }
    } else {
      MinusNone(rest, {node});
    }
  }

  /** An entry that is not placed yet has its old node in the rest, if it is a child at all. */
  lemma OldNodeWaits(was: State, done: seq<Entry>, e: Entry)
    requires Injective(was.rendered) && e.id in was.rendered && e.id !in IdSet(done)
    ensures was.rendered[e.id].node !in NodesOf(was.rendered, done)
  {
    forall d | d in done ensures d.id in IdSet(done) { }
  }

  lemma ProgressChildren(was: State, done: seq<Entry>, e: Entry, before: State, refreshed: State, now: State)
    requires WellFormed(was) && WellFormed(before) && WellFormed(refreshed)
    requires Progress(was, done, before) && e.id !in IdSet(done)
    requires Refreshed(before, e, refreshed)
    requires PutAt(refreshed, refreshed.rendered[e.id].node,
                   Reference(refreshed.children, LastPlaced(before.rendered, done)), now)
    ensures now.children == Placed(before.rendered, done) + [now.rendered[e.id].node]
            + Minus(was.children, NodesOf(was.rendered, done + [e]))
    ensures was.moved <= now.moved
            && (now.moved == was.moved <==> Attached(was.rendered, was.children, done + [e]) <= was.children)
  {
    hide Minus, FollowsFrom, Attached, Inserted, Reference, IndexOf;
    var placed, node := Placed(before.rendered, done), refreshed.rendered[e.id].node;
    var rest := RefreshedChildren(was, done, e, before, refreshed);
    ReferenceNext(placed, rest, LastPlaced(before.rendered, done));
    PlacedNext(placed, rest, node);
    if e.id in was.rendered && was.rendered[e.id].node in was.children {
      LeadKept(was, done, e);
    } else {
      NotAttached(was, done, e);
    }
  }

  lemma NotAttached(was: State, done: seq<Entry>, e: Entry)
    requires !(e.id in was.rendered && was.rendered[e.id].node in was.children)
    ensures Attached(was.rendered, was.children, done + [e]) == Attached(was.rendered, was.children, done)
  {
    assert (done + [e])[..|done + [e]| - 1] == done;
  }

  ghost function LastPlaced(rendered: map<string, Record>, done: seq<Entry>): Option<Node>
    requires forall e :: e in done ==> e.id in rendered
  {
    if done == [] then None else Some(Placed(rendered, done)[|done| - 1])
  }

  lemma Progresses(was: State, done: seq<Entry>, e: Entry, before: State, refreshed: State, now: State)
    requires WellFormed(was) && WellFormed(before) && WellFormed(refreshed)
    requires Progress(was, done, before) && e.id !in IdSet(done)
    requires Refreshed(before, e, refreshed)
    requires PutAt(refreshed, refreshed.rendered[e.id].node,
                   Reference(refreshed.children, LastPlaced(before.rendered, done)), now)
    ensures Progress(was, done + [e], now) && WellFormed(now)
  {
    hide Minus, Attached, Inserted, Reference, IndexOf, NodesOf, FollowsFrom, Kept, IdSet;
    ProgressChildren(was, done, e, before, refreshed, now);
    ProgressRecords(was, done, e, before, now.rendered);
    PlacedSnoc(before.rendered, now.rendered, done, e);
    PutKeeps(refreshed, refreshed.rendered[e.id].node,
             Reference(refreshed.children, LastPlaced(before.rendered, done)), now);
  }

  lemma ProgressRecords(was: State, done: seq<Entry>, e: Entry, before: State, rendered: map<string, Record>)
    requires Progress(was, done, before) && e.id !in IdSet(done) && e.id in rendered
    requires rendered == before.rendered[e.id := Record(e.signature, rendered[e.id].node)]
    requires if Kept(before.rendered, e) then rendered[e.id].node == before.rendered[e.id].node
            else before.nextNode <= rendered[e.id].node
    ensures rendered.Keys == was.rendered.Keys + IdSet(done + [e])
    ensures forall d :: d in done ==> d.id in before.rendered && rendered[d.id] == before.rendered[d.id]
    ensures forall d :: d in done + [e] ==>
              d.id in rendered && FollowsFrom(was.rendered, was.nextNode, d, rendered[d.id])
    ensures forall k :: k in was.rendered && k !in IdSet(done + [e]) ==> rendered[k] == was.rendered[k]
  {
    hide Minus, Placed, Attached, NodesOf;
    forall d | d in done ensures d.id in IdSet(done) && d.id != e.id { }
    assert IdSet(done + [e]) == IdSet(done) + {e.id};
    assert forall d :: d in done + [e] ==> d in done || d == e;
  }

  lemma PutKeeps(before: State, node: Node, reference: Option<Node>, now: State)
    requires WellFormed(before) && PutAt(before, node, reference, now) && node < before.nextNode
    ensures WellFormed(now)
  {
    hide Injective;
    if reference != Some(node) {
      var rest := Minus(before.children, {node});
      MinusDistinct(before.children, {node});
      MinusMembers(before.children, {node});
      var i := if reference.Some? then IndexOf(rest, reference.value) else |rest|;
      InsertDistinct(rest, i, node);
    }
  }

  lemma InsertDistinct(s: seq<Node>, i: nat, x: Node)
    requires Distinct(s) && i <= |s| && x !in s
    ensures Distinct(s[..i] + [x] + s[i..])
    ensures forall y :: y in s[..i] + [x] + s[i..] ==> y in s || y == x
  {
  }

  lemma Finished(was: State, entries: seq<Entry>, done: State, now: State)
    requires WellFormed(was) && WellFormed(done) && Progress(was, entries, done)
    requires now.rendered == Only(done.rendered, IdSet(entries))
    requires now.children == Minus(done.children, Nodes(Only(done.rendered, done.rendered.Keys - IdSet(entries))))
    ensures now.rendered.Keys == IdSet(entries)
    ensures forall e :: e in entries ==> FollowsFrom(was.rendered, was.nextNode, e, now.rendered[e.id])
    ensures now.children == Placed(now.rendered, entries) + Minus(was.children, Nodes(was.rendered))
  {
    hide FollowsFrom, Attached;
    var placed, stale := Placed(done.rendered, entries),
        Nodes(Only(done.rendered, done.rendered.Keys - IdSet(entries)));
    var gone := NodesOf(was.rendered, entries);
    MinusAppend(placed, Minus(was.children, gone), stale);
    MinusTwice(was.children, gone, stale);
    forall x | x in placed ensures x !in stale {
      var i :| 0 <= i < |entries| && placed[i] == x;
      assert entries[i] in entries && entries[i].id in IdSet(entries);
    }
    MinusNone(placed, stale);
    StaleAndSeen(was, entries, done);
    assert Placed(now.rendered, entries) == placed;
  }

  lemma StaleAndSeen(was: State, entries: seq<Entry>, done: State)
    requires Progress(was, entries, done)
    ensures NodesOf(was.rendered, entries)
            + Nodes(Only(done.rendered, done.rendered.Keys - IdSet(entries))) == Nodes(was.rendered)
  {
    var stale := Only(done.rendered, done.rendered.Keys - IdSet(entries));
    forall x | x in Nodes(was.rendered) ensures x in NodesOf(was.rendered, entries) + Nodes(stale) {
      var k :| k in was.rendered && was.rendered[k].node == x;
      if k in IdSet(entries) {
        var e :| e in entries && e.id == k;
        assert e.id in was.rendered;
      } else {
        assert k in stale && stale[k].node == x;
      }
    }
    forall x | x in Nodes(stale) ensures x in Nodes(was.rendered) {
      var k :| k in stale && stale[k].node == x;
      assert was.rendered[k].node == x;
    }
    forall x | x in NodesOf(was.rendered, entries) ensures x in Nodes(was.rendered) {
      var e :| e in entries && e.id in was.rendered && was.rendered[e.id].node == x;
    }
  }

  // ----- When nothing is moved -----

  /** The ids that were shown before and still are, in their new order. */
  function Survivors(known: seq<string>, ids: seq<string>): seq<string> {
    if ids == [] then []
    else Survivors(known, ids[..|ids| - 1]) + if ids[|ids| - 1] in known then [ids[|ids| - 1]] else []
  }

  lemma {:induction false} AttachedAreSurvivors(rendered: map<string, Record>, shown: seq<Entry>, entries: seq<Entry>)
    requires rendered.Keys == IdSet(shown)
    ensures var a, s := Attached(rendered, Placed(rendered, shown), entries), Survivors(Ids(shown), Ids(entries));
            |a| == |s| && forall i :: 0 <= i < |s| ==> s[i] in rendered && a[i] == rendered[s[i]].node
    decreases |entries|
  {
    if entries != [] {
      var front, e := entries[..|entries| - 1], entries[|entries| - 1];
      AttachedAreSurvivors(rendered, shown, front);
      assert Ids(entries)[..|entries| - 1] == Ids(front);
      if e.id in rendered {
        var d :| d in shown && d.id == e.id;
        var j :| 0 <= j < |shown| && shown[j] == d;
        assert Ids(shown)[j] == e.id && Placed(rendered, shown)[j] == rendered[e.id].node;
      } else {
        forall j | 0 <= j < |shown| ensures Ids(shown)[j] != e.id { assert shown[j] in shown; }
      }
    }
  }

  /**
   From children that are the nodes of the entries shown before, nothing is moved exactly when the ids
   that stay come first in the old order, without a gap.
   */
  lemma UnmovedExactly(rendered: map<string, Record>, shown: seq<Entry>, entries: seq<Entry>)
    requires rendered.Keys == IdSet(shown) && Injective(rendered)
    ensures Attached(rendered, Placed(rendered, shown), entries) <= Placed(rendered, shown)
            <==> Survivors(Ids(shown), Ids(entries)) <= Ids(shown)
  {
    var a, s := Attached(rendered, Placed(rendered, shown), entries), Survivors(Ids(shown), Ids(entries));
    AttachedAreSurvivors(rendered, shown, entries);
    forall i | 0 <= i < |s| && i < |shown| ensures a[i] == Placed(rendered, shown)[i] <==> s[i] == Ids(shown)[i] {
      assert shown[i] in shown;
    }
    PrefixByIndex(a, Placed(rendered, shown));
    PrefixByIndex(s, Ids(shown));
  }

  lemma PrefixByIndex<T>(s: seq<T>, t: seq<T>)
    ensures s <= t <==> |s| <= |t| && forall i :: 0 <= i < |s| ==> s[i] == t[i]
  {
  }

  lemma {:induction false} SurvivorsAppend(known: seq<string>, s: seq<string>, t: seq<string>)
    ensures Survivors(known, s + t) == Survivors(known, s) + Survivors(known, t)
    decreases |t|
  {
    if t == [] {
      assert s + t == s;
    } else {
      assert (s + t)[..|s + t| - 1] == s + t[..|t| - 1];
      SurvivorsAppend(known, s, t[..|t| - 1]);
    }
  }

  lemma {:induction false} SurvivorsOf(known: seq<string>, s: seq<string>)
    ensures (forall x :: x in s ==> x in known) ==> Survivors(known, s) == s
    ensures (forall x :: x in s ==> x !in known) ==> Survivors(known, s) == []
    decreases |s|
  {
    if s != [] {
      assert s == s[..|s| - 1] + [s[|s| - 1]];
      SurvivorsOf(known, s[..|s| - 1]);
    }
  }

  /** Entries that are appended, changed in place or removed at the end leave every other node where it is. */
  lemma AppendingMovesNothing(known: seq<string>, keep: nat, more: seq<string>)
    requires keep <= |known| && forall x :: x in more ==> x !in known
    ensures Survivors(known, known[..keep] + more) <= known
  {
    SurvivorsAppend(known, known[..keep], more);
    SurvivorsOf(known, known[..keep]);
    SurvivorsOf(known, more);
  }

  /**
   Once the oldest entry is dropped, as the host does beyond its limit of items, attached nodes are moved,
   so "nodes are never detached" does not hold of that publish.
   */
  lemma DroppingTheOldestMoves(known: seq<string>, more: seq<string>)
    requires Distinct(known) && |known| > 1
    ensures !(Survivors(known, known[1..] + more) <= known)
  {
    SurvivorsAppend(known, known[1..], more);
    SurvivorsOf(known, known[1..]);
    var s := Survivors(known, known[1..] + more);
    assert s[0] == known[1] && known[0] != known[1];
  }
}
