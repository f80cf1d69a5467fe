/** The merge as the build script performs it, step by step, proved against `SbomMerge`. */
module SbomMergeCode {
  import opened Wrappers
  import opened StringOrder
  import opened DependencyGraph
  import opened SbomMerge

  /** A dictionary from references to the set of references they depend on, updated in place. */
  class DependencyMap {
    var entries: map<string, set<string>>

    constructor ()
      ensures entries == map[]
    {
      entries := map[];
    }

    ghost function EdgeSet(): Edges
      reads this
    {
      EdgesOf(entries)
    }

    /** Reads or creates the entry of a reference. */
    method SetDefault(ref: string)
      modifies this
      ensures entries == if ref in old(entries) then old(entries) else old(entries)[ref := {}]
    {
      if ref !in entries {
        entries := entries[ref := {}];
      }
    }

    method AddEdge(ref: string, target: string)
      requires ref in entries
      modifies this
      ensures entries == old(entries)[ref := old(entries)[ref] + {target}]
    {
      entries := entries[ref := entries[ref] + {target}];
    }
  }

  ghost function EdgesOf(g: map<string, set<string>>): Edges {
    set a, b | a in g && b in g[a] :: (a, b)
  }

  /** The worklist finds exactly the references that are reachable from the CLI. */
  method Reachable(g: map<string, set<string>>, cliRef: string) returns (reachable: set<string>)
    requires cliRef in g && forall a :: a in g ==> g[a] <= g.Keys
    ensures forall r :: r in reachable <==> Reach(EdgesOf(g), cliRef, r)
  {
    reachable := {};
    var pending := [cliRef];
    ReachSelf(EdgesOf(g), cliRef);
    while pending != []
      invariant reachable <= g.Keys && Elements(pending) <= g.Keys
      invariant cliRef in reachable || cliRef in pending
      invariant forall r :: r in reachable || r in pending ==> Reach(EdgesOf(g), cliRef, r)
      invariant forall a, b :: a in reachable && b in g[a] ==> b in reachable || b in pending
      decreases |g.Keys - reachable|, |pending|
    {
      var ref := pending[|pending| - 1];
      ghost var before := pending;
      assert ref in Elements(pending);
      pending := pending[..|pending| - 1];
      assert before == pending + [ref];
      if ref in reachable { continue; }
      assert g.Keys - (reachable + {ref}) == g.Keys - reachable - {ref};
      reachable := reachable + {ref};
      var next := Listed(g[ref]);
      forall b | b in next ensures Reach(EdgesOf(g), cliRef, b) {
        assert b in Elements(next);
        assert (ref, b) in EdgesOf(g);
        ReachStep(EdgesOf(g), cliRef, ref, b);
      }
      assert forall b :: b in g[ref] ==> b in Elements(next);
      pending := pending + next;
    }
    forall r | Reach(EdgesOf(g), cliRef, r) ensures r in reachable {
      ClosedContainsReach(EdgesOf(g), reachable, cliRef, r);
    }
  }

  lemma OrphansFound(e: Edges, cliRef: string, componentRefs: set<string>, reachable: set<string>)
    requires forall r :: r in reachable <==> Reach(e, cliRef, r)
    ensures componentRefs - reachable == Orphans(e, cliRef, componentRefs)
  {
  }

  lemma RootsFound(g: map<string, set<string>>, cliRef: string, componentRefs: set<string>, dependedOn: set<string>)
    requires forall c :: c in dependedOn <==>
               c in Orphans(EdgesOf(g), cliRef, componentRefs)
               && exists a :: a in Orphans(EdgesOf(g), cliRef, componentRefs) && a in g && c in g[a]
    ensures Orphans(EdgesOf(g), cliRef, componentRefs) - dependedOn == OrphanRoots(EdgesOf(g), cliRef, componentRefs)
  {
    var o := Orphans(EdgesOf(g), cliRef, componentRefs);
    assert forall a, c :: (a, c) in EdgesOf(g) <==> a in g && c in g[a];
  }

  lemma EdgesGrow(g: map<string, set<string>>, ref: string, more: set<string>)
    requires ref in g
    ensures EdgesOf(g[ref := g[ref] + more]) == EdgesOf(g) + set c | c in more :: (ref, c)
  {
  }

  method AttachUnreachableComponents(graph: DependencyMap, cliRef: string, componentRefs: set<string>)
    requires graph.entries.Keys == componentRefs + {cliRef} && cliRef !in componentRefs
    requires forall a :: a in graph.entries ==> graph.entries[a] <= graph.entries.Keys
    modifies graph
    ensures graph.entries == old(graph.entries)[cliRef := old(graph.entries)[cliRef]
                                                + Targets(old(graph.EdgeSet()), cliRef, componentRefs)]
    ensures graph.EdgeSet() == Attached(old(graph.EdgeSet()), cliRef, componentRefs)
  {
    hide Reach, Orphans, OrphanRoots, EdgesOf;
    var g := graph.entries;
    var reachable := Reachable(g, cliRef);
    OrphansFound(EdgesOf(g), cliRef, componentRefs, reachable);
    var unreachable := componentRefs - reachable;
    EdgesGrow(g, cliRef, Targets(EdgesOf(g), cliRef, componentRefs));
    if unreachable == {} {
      NoTargets(EdgesOf(g), cliRef, componentRefs);
      assert g[cliRef] + {} == g[cliRef];
      assert g[cliRef := g[cliRef]] == g;
      return;
    }
    var dependedOn := set ref, dependency | ref in unreachable && dependency in g[ref]
        && dependency in unreachable :: dependency;
    RootsFound(g, cliRef, componentRefs, dependedOn);
    var roots := unreachable - dependedOn;
    graph.entries := g[cliRef := g[cliRef] + (if roots != {} then roots else unreachable)];
  }

  lemma NoTargets(e: Edges, cliRef: string, componentRefs: set<string>)
    requires Orphans(e, cliRef, componentRefs) == {}
    ensures Targets(e, cliRef, componentRefs) == {}
  {
  }

  lemma ComponentsSnoc(raw: seq<RawComponent>, i: nat)
    requires i < |raw|
    ensures raw[i].Entry? ==> Components(raw[..i + 1]) == Components(raw[..i]) + {raw[i].component}
    ensures Malformed in raw[..i + 1] <==> Malformed in raw[..i] || raw[i].Malformed?
    ensures Components(raw[..i + 1]) <= Components(raw)
  {
    assert raw[..i + 1] == raw[..i] + [raw[i]];
    assert forall r :: r in raw[..i + 1] <==> r in raw[..i] || r == raw[i];
    assert forall r :: r in raw[..i + 1] ==> r in raw;
  }

  /** Fills `by_source_ref`. */
  method CollectComponents(raw: seq<RawComponent>) returns (r: Result<map<string, Component>, Error>)
    ensures r.Success? <==> GoodComponents(raw)
    ensures r.Success? ==> r.value == Index(raw) && Keyed(r.value)
  {
    var bySourceRef: map<string, Component> := map[];
    for i := 0 to |raw|
      invariant GoodComponents(raw[..i]) && bySourceRef == Index(raw[..i])
    {
      ComponentsSnoc(raw, i);
      if raw[i].Malformed? {
        return Failure(InvalidComponent);
      }
      var component := raw[i].component;
      assert component in Components(raw);
      if component.ref in bySourceRef && bySourceRef[component.ref] != component {
        assert bySourceRef[component.ref] in Components(raw);
        return Failure(ConflictingRefs);
      }
      bySourceRef := bySourceRef[component.ref := component];
    }
    assert raw[..|raw|] == raw;
    return Success(bySourceRef);
  }

  /** What `purl_refs` holds when the references in `seen` have been handled: the least reference of each package. */
  ghost predicate PackagesSeen(m: map<string, Component>, n: Names, seen: set<string>, purlRefs: map<string, string>) {
    && seen <= m.Keys
    && (forall r :: r in seen && r != n.root ==>
          && !Packaged(n, r)
          && (m[r].purl != "" ==> !Packaged(n, m[r].purl) && m[r].purl in purlRefs
                                  && purlRefs[m[r].purl] in m && m[r].body == m[purlRefs[m[r].purl]].body))
    && (forall p :: p in purlRefs ==>
          && p != "" && purlRefs[p] in seen && purlRefs[p] in Twins(m, n, p)
          && forall x :: x in seen && x in Twins(m, n, p) ==> !Less(x, purlRefs[p]))
  }

  /** And what `aliases` and `retained` hold then. */
  ghost predicate RefsSeen(m: map<string, Component>, n: Names, seen: set<string>,
                           aliases: map<string, string>, retained: map<string, Component>,
                           purlRefs: map<string, string>) {
    && (forall r :: r in aliases <==> r == n.root || (r in seen && Doubled(m, purlRefs, r)))
    && (forall r :: r in aliases ==> aliases[r] == if r == n.root then n.cli else purlRefs[m[r].purl])
    && (forall r :: r in retained <==> r in seen && r != n.root && !Doubled(m, purlRefs, r))
    && (forall r :: r in retained ==> r in m && retained[r] == m[r])
  }

  ghost predicate Resolved(m: map<string, Component>, n: Names, seen: set<string>,
                           aliases: map<string, string>, retained: map<string, Component>,
                           purlRefs: map<string, string>) {
    PackagesSeen(m, n, seen, purlRefs) && RefsSeen(m, n, seen, aliases, retained, purlRefs)
  }

  /** The reference names a package that a lesser one stands for. */
  predicate Doubled(m: map<string, Component>, purlRefs: map<string, string>, r: string) {
    r in m && m[r].purl in purlRefs && purlRefs[m[r].purl] != r
  }

  function Get(aliases: map<string, string>, r: string): string {
    if r in aliases then aliases[r] else r
  }

  lemma ResolvedAll(m: map<string, Component>, n: Names, aliases: map<string, string>,
                    retained: map<string, Component>, purlRefs: map<string, string>)
    requires Resolved(m, n, m.Keys, aliases, retained, purlRefs)
    ensures GoodIdentities(m, n)
    ensures forall r :: r in SourceRefs(m, n) ==> Get(aliases, r) == Alias(m, n, r)
    ensures retained == map r | r in Retained(m, n) :: m[r]
  {
    forall p | p in purlRefs ensures Least(Twins(m, n, p)) == purlRefs[p] {
      LeastUnique(Twins(m, n, p), purlRefs[p]);
    }
    forall r | r in SourceRefs(m, n) ensures Get(aliases, r) == Alias(m, n, r) {
    }
    assert forall r :: r in retained <==> r in Retained(m, n);
  }

  /** `ref` is in the index, beyond everything seen, and clashes with no packaged application. */
  ghost predicate Admissible(m: map<string, Component>, n: Names, seen: set<string>, ref: string) {
    && ref in m && ref !in seen && (forall x :: x in seen ==> Less(x, ref))
    && (ref != n.root ==> !Packaged(n, ref) && (m[ref].purl != "" ==> !Packaged(n, m[ref].purl)))
  }

  lemma ResolvedRoot(m: map<string, Component>, n: Names, seen: set<string>,
                     aliases: map<string, string>, retained: map<string, Component>, purlRefs: map<string, string>)
    requires Resolved(m, n, seen, aliases, retained, purlRefs) && n.root in m
    ensures Resolved(m, n, seen + {n.root}, aliases, retained, purlRefs)
  {
  }

  lemma PackagePlain(m: map<string, Component>, n: Names, seen: set<string>, ref: string, purlRefs: map<string, string>)
    requires PackagesSeen(m, n, seen, purlRefs) && Admissible(m, n, seen, ref)
    requires ref != n.root && m[ref].purl == ""
    ensures PackagesSeen(m, n, seen + {ref}, purlRefs) && !Doubled(m, purlRefs, ref)
  {
  }

  lemma ResolvedPlain(m: map<string, Component>, n: Names, seen: set<string>, ref: string,
                      aliases: map<string, string>, retained: map<string, Component>, purlRefs: map<string, string>)
    requires Resolved(m, n, seen, aliases, retained, purlRefs) && Admissible(m, n, seen, ref)
    requires ref != n.root && m[ref].purl == ""
    ensures Resolved(m, n, seen + {ref}, aliases, retained[ref := m[ref]], purlRefs)
  {
    PackagePlain(m, n, seen, ref, purlRefs);
    assert ref in m;
    hide PackagesSeen, Doubled, Admissible;
  }

  lemma PackageFirst(m: map<string, Component>, n: Names, seen: set<string>, ref: string, purlRefs: map<string, string>)
    requires PackagesSeen(m, n, seen, purlRefs) && Admissible(m, n, seen, ref)
    requires ref != n.root && m[ref].purl != "" && m[ref].purl !in purlRefs
    ensures PackagesSeen(m, n, seen + {ref}, purlRefs[m[ref].purl := ref])
  {
    LessTrichotomy(ref, ref);
    assert forall r :: r in seen && r != n.root ==> m[r].purl != m[ref].purl;
  }

  lemma ResolvedFirst(m: map<string, Component>, n: Names, seen: set<string>, ref: string,
                      aliases: map<string, string>, retained: map<string, Component>, purlRefs: map<string, string>)
    requires Resolved(m, n, seen, aliases, retained, purlRefs) && Admissible(m, n, seen, ref)
    requires ref != n.root && m[ref].purl != "" && m[ref].purl !in purlRefs
    ensures Resolved(m, n, seen + {ref}, aliases, retained[ref := m[ref]], purlRefs[m[ref].purl := ref])
  {
    PackageFirst(m, n, seen, ref, purlRefs);
    var more := purlRefs[m[ref].purl := ref];
    forall r | r in seen && r != n.root ensures Doubled(m, more, r) == Doubled(m, purlRefs, r) {
      assert m[r].purl != m[ref].purl;
    }
    assert !Doubled(m, more, ref) && ref !in aliases;
    hide PackagesSeen, Doubled, Admissible;
  }

  lemma ResolvedDouble(m: map<string, Component>, n: Names, seen: set<string>, ref: string,
                       aliases: map<string, string>, retained: map<string, Component>, purlRefs: map<string, string>)
    requires Resolved(m, n, seen, aliases, retained, purlRefs) && Admissible(m, n, seen, ref)
    requires ref != n.root && m[ref].purl in purlRefs && m[ref].body == m[purlRefs[m[ref].purl]].body
    ensures Resolved(m, n, seen + {ref}, aliases[ref := purlRefs[m[ref].purl]], retained, purlRefs)
  {
    assert purlRefs[m[ref].purl] in seen;
    assert Doubled(m, purlRefs, ref);
    forall x | x in seen ensures !Less(ref, x) { LessTrichotomy(x, ref); }
  }

  /** Fills `aliases`, `retained` and `purl_refs`, in the order of the references. */
  method ResolveAliases(m: map<string, Component>, n: Names)
    returns (r: Result<(map<string, string>, map<string, Component>), Error>)
    requires Keyed(m)
    ensures r.Success? <==> GoodIdentities(m, n)
    ensures r.Success? ==>
              && (forall x :: x in SourceRefs(m, n) ==> Get(r.value.0, x) == Alias(m, n, x))
              && r.value.1 == map x | x in Retained(m, n) :: m[x]
  {
    hide Resolved;
    var aliases := map[n.root := n.cli];
    var retained: map<string, Component> := map[];
    var purlRefs: map<string, string> := map[];
    var refs := Sort(m.Keys);
    ResolvedNone(m, n);
    assert Elements(refs[..0]) == {};
    for i := 0 to |refs|
      invariant Resolved(m, n, Elements(refs[..i]), aliases, retained, purlRefs)
    {
      var ref := refs[i];
      assert ref in Elements(refs);
      ghost var seen := Elements(refs[..i]);
      SeenNext(refs, i);
      if ref != n.root && Packaged(n, ref) {
        return Failure(RefCollides);
      }
      if ref != n.root && m[ref].purl != "" && Packaged(n, m[ref].purl) {
        return Failure(IdentityCollides);
      }
      if ref == n.root {
        ResolvedRoot(m, n, seen, aliases, retained, purlRefs);
        continue;
      }
      if m[ref].purl != "" {
        if m[ref].purl in purlRefs {
          var duplicate := purlRefs[m[ref].purl];
          ResolvedKeeps(m, n, seen, aliases, retained, purlRefs, m[ref].purl);
          if retained[duplicate].body != m[ref].body {
            return Failure(ConflictingPackages);
          }
          ResolvedDouble(m, n, seen, ref, aliases, retained, purlRefs);
          aliases := aliases[ref := duplicate];
          continue;
        }
        ResolvedFirst(m, n, seen, ref, aliases, retained, purlRefs);
        purlRefs := purlRefs[m[ref].purl := ref];
      } else {
        ResolvedPlain(m, n, seen, ref, aliases, retained, purlRefs);
      }
      retained := retained[ref := m[ref]];
    }
    assert refs[..|refs|] == refs;
    ResolvedAll(m, n, aliases, retained, purlRefs);
    return Success((aliases, retained));
  }

  lemma ResolvedNone(m: map<string, Component>, n: Names)
    ensures Resolved(m, n, {}, map[n.root := n.cli], map[], map[])
  {
  }

  lemma ResolvedKeeps(m: map<string, Component>, n: Names, seen: set<string>,
                      aliases: map<string, string>, retained: map<string, Component>, purlRefs: map<string, string>,
                      p: string)
    requires Resolved(m, n, seen, aliases, retained, purlRefs) && p in purlRefs
    ensures p != "" && purlRefs[p] in retained && purlRefs[p] in m && retained[purlRefs[p]] == m[purlRefs[p]]
    ensures m[purlRefs[p]].purl == p && purlRefs[p] != n.root
  {
  }

  lemma SeenNext(refs: seq<string>, i: nat)
    requires Sorted(refs) && i < |refs|
    ensures refs[i] !in Elements(refs[..i]) && Elements(refs[..i + 1]) == Elements(refs[..i]) + {refs[i]}
    ensures forall x :: x in Elements(refs[..i]) ==> Less(x, refs[i])
  {
    LessTrichotomy(refs[i], refs[i]);
    assert refs[..i + 1] == refs[..i] + [refs[i]];
    ElementsSnoc(refs[..i], refs[i]);
  }

  // ----- The graph -----

  /** `Image` as the code sees it: through the filled alias dictionary. */
  ghost function Mapped(aliases: map<string, string>, e: Edges): Edges {
    set p | p in e && Get(aliases, p.0) != Get(aliases, p.1) :: (Get(aliases, p.0), Get(aliases, p.1))
  }

  function To(ref: string, targets: seq<string>): Edges {
    set t | t in targets :: (ref, t)
  }

  lemma MappedSnoc(aliases: map<string, string>, ref: string, targets: seq<string>, j: nat)
    requires j < |targets|
    ensures Mapped(aliases, To(ref, targets[..j + 1])) ==
              Mapped(aliases, To(ref, targets[..j]))
              + if Get(aliases, targets[j]) != Get(aliases, ref) then {(Get(aliases, ref), Get(aliases, targets[j]))}
                  else {}
  {
    assert targets[..j + 1] == targets[..j] + [targets[j]];
    assert To(ref, targets[..j + 1]) == To(ref, targets[..j]) + {(ref, targets[j])};
    MappedUnion(aliases, To(ref, targets[..j]), {(ref, targets[j])});
    var p := (ref, targets[j]);
    assert Mapped(aliases, {p}) == if Get(aliases, p.0) != Get(aliases, p.1)
        then {(Get(aliases, p.0), Get(aliases, p.1))} else {};
  }

  lemma MappedUnion(aliases: map<string, string>, e: Edges, f: Edges)
    ensures Mapped(aliases, e + f) == Mapped(aliases, e) + Mapped(aliases, f)
  {
  }

  lemma SourceEdgesSnoc(records: seq<RawRecord>, i: nat)
    requires i < |records| && records[i].Record?
    ensures SourceEdges(records[..i + 1]) == SourceEdges(records[..i]) + To(records[i].ref, records[i].dependsOn)
  {
    var shorter, longer := records[..i], records[..i + 1];
    forall p | p in SourceEdges(longer) ensures p in SourceEdges(shorter) + To(records[i].ref, records[i].dependsOn) {
      var k, j :| 0 <= k < |longer| && longer[k].Record? && 0 <= j < |longer[k].dependsOn|
          && p == (longer[k].ref, longer[k].dependsOn[j]);
      if k < i { assert shorter[k] == longer[k]; }
    }
    forall p | p in SourceEdges(shorter) ensures p in SourceEdges(longer) {
      var k, j :| 0 <= k < |shorter| && shorter[k].Record? && 0 <= j < |shorter[k].dependsOn|
          && p == (shorter[k].ref, shorter[k].dependsOn[j]);
      assert longer[k] == shorter[k];
    }
    forall p | p in To(records[i].ref, records[i].dependsOn) ensures p in SourceEdges(longer) {
      var j :| 0 <= j < |records[i].dependsOn| && records[i].dependsOn[j] == p.1;
      assert longer[i] == records[i];
    }
  }

  function Heads(aliases: map<string, string>, records: seq<RawRecord>): set<string> {
    set r | r in records && r.Record? :: Get(aliases, r.ref)
  }

  /** Adds one dependency record to the graph, under the aliases. */
  method AddRecord(graph: DependencyMap, record: RawRecord, refs: set<string>, aliases: map<string, string>)
      returns (ok: bool)
    modifies graph
    ensures ok <==> GoodRecord(record, refs)
    ensures ok ==>
              && graph.entries.Keys == old(graph.entries.Keys) + {Get(aliases, record.ref)}
              && graph.EdgeSet() == old(graph.EdgeSet()) + Mapped(aliases, To(record.ref, record.dependsOn))
  {
    if record.BadRecord? || record.ref !in refs {
      return false;
    }
    graph.SetDefault(Get(aliases, record.ref));
    ok := AddTargets(graph, record.ref, record.dependsOn, refs, aliases);
  }

  method AddTargets(graph: DependencyMap, ref: string, dependsOn: seq<string>, refs: set<string>,
                    aliases: map<string, string>)
    returns (ok: bool)
    requires Get(aliases, ref) in graph.entries
    modifies graph
    ensures ok <==> forall k :: 0 <= k < |dependsOn| ==> dependsOn[k] in refs
    ensures ok ==> graph.entries.Keys == old(graph.entries.Keys)
    ensures ok ==> graph.EdgeSet() == old(graph.EdgeSet()) + Mapped(aliases, To(ref, dependsOn))
  {
    var target := Get(aliases, ref);
    NoTargetsMapped(aliases, ref);
    hide Mapped, To, EdgesOf, Get;
    assert dependsOn[..0] == [];
    for j := 0 to |dependsOn|
      invariant forall k :: 0 <= k < j ==> dependsOn[k] in refs
      invariant graph.entries.Keys == old(graph.entries.Keys)
      invariant graph.EdgeSet() == old(graph.EdgeSet()) + Mapped(aliases, To(ref, dependsOn[..j]))
    {
      if dependsOn[j] !in refs {
        return false;
      }
      var mapped := Get(aliases, dependsOn[j]);
      MappedSnoc(aliases, ref, dependsOn, j);
      if mapped != target {
        EdgesGrow(graph.entries, target, {mapped});
        assert (set c | c in {mapped} :: (target, c)) == {(target, mapped)};
        graph.AddEdge(target, mapped);
      }
    }
    assert dependsOn[..|dependsOn|] == dependsOn;
    return true;
  }

  lemma NoTargetsMapped(aliases: map<string, string>, ref: string)
    ensures Mapped(aliases, To(ref, [])) == {}
  {
  }

  /** Adds every dependency record: the graph holds exactly the images of the source edges. */
  method BuildGraph(graph: DependencyMap, records: seq<RawRecord>, refs: set<string>, aliases: map<string, string>)
    returns (ok: bool)
    requires graph.entries == map[]
    modifies graph
    ensures ok <==> GoodRecords(records, refs)
    ensures ok ==>
              graph.entries.Keys == Heads(aliases, records) && graph.EdgeSet() == Mapped(aliases, SourceEdges(records))
  {
    assert Mapped(aliases, SourceEdges(records[..0])) == {} && Heads(aliases, records[..0]) == {};
    for i := 0 to |records|
      invariant GoodRecords(records[..i], refs)
      invariant graph.entries.Keys == Heads(aliases, records[..i])
      invariant graph.EdgeSet() == Mapped(aliases, SourceEdges(records[..i]))
    {
      hide Mapped, To, EdgesOf, SourceEdges;
      var added := AddRecord(graph, records[i], refs, aliases);
      if !added {
        return false;
      }
      assert records[..i + 1] == records[..i] + [records[i]];
      SourceEdgesSnoc(records, i);
      MappedUnion(aliases, SourceEdges(records[..i]), To(records[i].ref, records[i].dependsOn));
      assert Heads(aliases, records[..i + 1]) == Heads(aliases, records[..i]) + {Get(aliases, records[i].ref)};
    }
    assert records[..|records|] == records;
    return true;
  }

  /** With the aliases resolved, the graph holds the image of the source, and no reference dangles. */
  lemma BuiltIsImage(m: map<string, Component>, n: Names, records: seq<RawRecord>, aliases: map<string, string>)
    requires Keyed(m) && GoodRecords(records, SourceRefs(m, n))
    requires forall x :: x in SourceRefs(m, n) ==> Get(aliases, x) == Alias(m, n, x)
    ensures Mapped(aliases, SourceEdges(records)) == Image(m, n, SourceEdges(records))
    ensures Heads(aliases, records) <= Retained(m, n) + {n.cli}
  {
    var e := SourceEdges(records);
    forall p | p in e ensures Get(aliases, p.0) == Alias(m, n, p.0) && Get(aliases, p.1) == Alias(m, n, p.1) {
      EdgeEnds(m, n, records, p);
    }
    forall p | p in Mapped(aliases, e) ensures p in Image(m, n, e) {
      var q :| q in e && Get(aliases, q.0) != Get(aliases, q.1) && p == (Get(aliases, q.0), Get(aliases, q.1));
      assert p == (Alias(m, n, q.0), Alias(m, n, q.1));
    }
    forall p | p in Image(m, n, e) ensures p in Mapped(aliases, e) {
      var q :| q in e && Alias(m, n, q.0) != Alias(m, n, q.1) && p == (Alias(m, n, q.0), Alias(m, n, q.1));
      assert p == (Get(aliases, q.0), Get(aliases, q.1));
    }
    forall r | r in records && r.Record? ensures Get(aliases, r.ref) in Retained(m, n) + {n.cli} {
      var i :| 0 <= i < |records| && records[i] == r;
      assert GoodRecord(records[i], SourceRefs(m, n));
      AliasIsFinal(m, n, r.ref);
    }
  }

  /** Gives every final reference an entry; the edges stay as they are. */
  method Complete(graph: DependencyMap, finalRefs: set<string>)
    requires graph.entries.Keys <= finalRefs
    modifies graph
    ensures graph.entries.Keys == finalRefs && graph.EdgeSet() == old(graph.EdgeSet())
  {
    var refs := Listed(finalRefs);
    assert Elements(refs[..0]) == {};
    for i := 0 to |refs|
      invariant graph.entries.Keys == old(graph.entries.Keys) + Elements(refs[..i])
      invariant graph.EdgeSet() == old(graph.EdgeSet())
    {
      assert refs[..i + 1] == refs[..i] + [refs[i]];
      ElementsSnoc(refs[..i], refs[i]);
      graph.SetDefault(refs[i]);
    }
    assert refs[..|refs|] == refs;
  }

  // ----- The documents that come out -----

  /** `components.sort(key=...)` on components with pairwise distinct references. */
  method SortComponents(byRef: map<string, Component>) returns (r: seq<Component>)
    requires Keyed(byRef)
    ensures Sorted(ComponentRefs(r)) && Elements(r) == byRef.Values
  {
    var refs := Sort(byRef.Keys);
    assert forall i :: 0 <= i < |refs| ==> refs[i] in Elements(refs);
    r := seq(|refs|, i requires 0 <= i < |refs| => byRef[refs[i]]);
    assert ComponentRefs(r) == refs;
    forall c | c in byRef.Values ensures c in Elements(r) {
      var ref :| ref in byRef && byRef[ref] == c;
      assert ref in Elements(refs);
      var i :| 0 <= i < |refs| && refs[i] == ref;
      assert r[i] == c;
    }
  }

  /** One sorted record for each reference of the graph. */
  method SortRecords(g: map<string, set<string>>) returns (r: seq<DependencyRecord>)
    ensures Sorted(RecordRefs(r)) && Elements(RecordRefs(r)) == g.Keys
    ensures forall d :: d in r ==> Sorted(d.dependsOn) && Elements(d.dependsOn) == Successors(EdgesOf(g), d.ref)
  {
    var refs := Sort(g.Keys);
    r := [];
    for i := 0 to |refs|
      invariant |r| == i && forall k :: 0 <= k < i ==> r[k].ref == refs[k]
      invariant forall d :: d in r ==> d.ref in g && Sorted(d.dependsOn) && Elements(d.dependsOn) == g[d.ref]
    {
      assert refs[i] in Elements(refs);
      var dependsOn := Sort(g[refs[i]]);
      r := r + [DependencyRecord(refs[i], dependsOn)];
    }
    assert RecordRefs(r) == refs;
    forall d | d in r ensures g[d.ref] == Successors(EdgesOf(g), d.ref) {
      SuccessorsOf(g, d.ref);
    }
  }

  lemma SuccessorsOf(g: map<string, set<string>>, ref: string)
    requires ref in g
    ensures Successors(EdgesOf(g), ref) == g[ref]
  {
    forall b | b in g[ref] ensures b in Successors(EdgesOf(g), ref) {
      assert (ref, b) in EdgesOf(g);
    }
  }

  lemma EntryAdded(g: map<string, set<string>>, ref: string, target: string)
    requires ref !in g
    ensures EdgesOf(g[ref := {target}]) == EdgesOf(g) + {(ref, target)}
  {
  }

  lemma ClosedEntries(g: map<string, set<string>>, cli: string, retained: set<string>)
    requires g.Keys == retained + {cli} && Within(EdgesOf(g), cli, retained)
    ensures forall a :: a in g ==> g[a] <= g.Keys
  {
    forall a, b | a in g && b in g[a] ensures b in g.Keys {
      assert (a, b) in EdgesOf(g);
    }
  }

  /**
   The merge succeeds on exactly the acceptable sources, and then gives the merged document. The check
   for dangling references is an assertion here: it never fires.
   */
  method Merge(source: Source, extensionRef: string, cliRef: string, managed: Component)
      returns (r: Result<Merged, Error>)
    requires extensionRef != cliRef && managed.ref == cliRef
    ensures r.Success? <==> Acceptable(source, extensionRef, cliRef)
    ensures r.Success? ==> IsMerge(source, extensionRef, cliRef, managed, r.value)
  {
    hide Reach, Image, EdgesOf, Mapped, Heads, SourceEdges, Alias, Within, Sorted, Attached, Successors,
        ComponentRefs, RecordRefs, GoodComponents, Index, Unambiguous, Components;
    if source.root.None? {
      return Failure(RootMissing);
    }
    if source.root.value == extensionRef {
      return Failure(RootCollides);
    }
    var n := Names(source.root.value, extensionRef, cliRef);
    var collected := CollectComponents(source.components);
    if collected.Failure? {
      return Failure(collected.error);
    }
    var m := collected.value;
    var resolved := ResolveAliases(m, n);
    if resolved.Failure? {
      return Failure(resolved.error);
    }
    var (aliases, retained) := resolved.value;
    var graph := new DependencyMap();
    var built := BuildGraph(graph, source.dependencies, SourceRefs(m, n), aliases);
    if !built {
      return Failure(DanglingReference);
    }
    BuiltIsImage(m, n, source.dependencies, aliases);
    ImageIsWithin(m, n, source.dependencies);
    assert graph.entries.Keys <= retained.Keys + {cliRef};
    Complete(graph, retained.Keys + {cliRef});
    ClosedEntries(graph.entries, cliRef, retained.Keys);
    assert cliRef !in retained && extensionRef !in retained;
    AttachUnreachableComponents(graph, cliRef, retained.Keys);
    EntryAdded(graph.entries, extensionRef, cliRef);
    graph.entries := graph.entries[extensionRef := {cliRef}];
    var byRef := retained[cliRef := managed];
    var components := SortComponents(byRef);
    ValuesAdded(m, retained, cliRef, managed);
    var dependencies := SortRecords(graph.entries);
    Assembled(source, n, m, managed, retained.Keys, graph.entries, Merged(components, dependencies));
    return Success(Merged(components, dependencies));
  }

  lemma Assembled(s: Source, n: Names, m: map<string, Component>, managed: Component,
                  retained: set<string>, g: map<string, set<string>>, out: Merged)
    requires Acceptable(s, n.extension, n.cli) && n.root == s.root.value
    requires m == Index(s.components) && retained == Retained(m, n)
    requires g.Keys == retained + {n.cli} + {n.extension} && EdgesOf(g) == FinalEdges(m, n, SourceEdges(s.dependencies))
    requires Sorted(ComponentRefs(out.components))
            && Elements(out.components) == {managed} + set r | r in retained :: m[r]
    requires Sorted(RecordRefs(out.dependencies)) && Elements(RecordRefs(out.dependencies)) == g.Keys
    requires forall d :: d in out.dependencies ==>
               Sorted(d.dependsOn) && Elements(d.dependsOn) == Successors(EdgesOf(g), d.ref)
    ensures IsMerge(s, n.extension, n.cli, managed, out)
  {
    hide Reach, Image, EdgesOf, SourceEdges, Alias, Sorted, Attached, Successors, ComponentRefs, RecordRefs,
        GoodComponents, Index;
    assert Names(s.root.value, n.extension, n.cli) == n;
    assert (set r | r in retained :: m[r]) == (set r | r in Retained(m, n) :: m[r]);
  }

  lemma ValuesAdded(m: map<string, Component>, retained: map<string, Component>, cliRef: string, managed: Component)
    requires cliRef !in retained && retained.Keys <= m.Keys && forall r :: r in retained ==> retained[r] == m[r]
    ensures retained[cliRef := managed].Values == {managed} + set r | r in retained.Keys :: m[r]
  {
    var byRef := retained[cliRef := managed];
    forall c | c in {managed} + (set r | r in retained.Keys :: m[r]) ensures c in byRef.Values {
      if c == managed {
        assert byRef[cliRef] == managed;
      } else {
        var r :| r in retained && m[r] == c;
        assert byRef[r] == c;
      }
    }
  }

  /**
   What the merge is for: in the merged document every component is reachable from the CLI, unless a
   cluster of orphans is held up by itself alone while another orphan stands free.
   */
  lemma MergedIsReached(s: Source, extension: string, cli: string)
    requires Acceptable(s, extension, cli)
    ensures var m, n := Index(s.components), Names(s.root.value, extension, cli);
            var image := Image(m, n, SourceEdges(s.dependencies));
            AllReached(image, cli, Retained(m, n)) <==>
              OrphanRoots(image, cli, Retained(m, n)) == {} || forall cluster ::
                  !RootlessCluster(image, cli, Retained(m, n), cluster)
    ensures var m, n := Index(s.components), Names(s.root.value, extension, cli);
            var image := Image(m, n, SourceEdges(s.dependencies));
            AcyclicOrphans(image, cli, Retained(m, n)) ==> AllReached(image, cli, Retained(m, n))
  {
    var m, n := Index(s.components), Names(s.root.value, extension, cli);
    var image := Image(m, n, SourceEdges(s.dependencies));
    ImageIsWithin(m, n, s.dependencies);
    AttachCompleteExactly(image, cli, Retained(m, n));
    if AcyclicOrphans(image, cli, Retained(m, n)) {
      AcyclicIsComplete(image, cli, Retained(m, n));
    }
  }
}
