/**
 What the merged document says, read from its lists alone: the packaged extension depends on the CLI, and
 on nothing else.
 */
module SbomOutput {
  import opened Wrappers
  import opened StringOrder
  import opened DependencyGraph
  import opened SbomMerge
  import opened SbomMergeCode

  /** The edges that the records of a document list. */
  function Listed(out: Merged): Edges {
    set i, j | 0 <= i < |out.dependencies| && 0 <= j < |out.dependencies[i].dependsOn| ::
      (out.dependencies[i].ref, out.dependencies[i].dependsOn[j])
  }

  lemma ListedIsFinal(out: Merged, final: Edges)
    requires forall d :: d in out.dependencies ==> Elements(d.dependsOn) == Successors(final, d.ref)
    requires forall a, b :: (a, b) in final ==> a in Elements(RecordRefs(out.dependencies))
    ensures Listed(out) == final
  {
    forall p | p in final ensures p in Listed(out) {
      assert (p.0, p.1) in final;
      var i :| 0 <= i < |out.dependencies| && RecordRefs(out.dependencies)[i] == p.0;
      var d := out.dependencies[i];
      assert p.1 in Successors(final, d.ref);
      assert d in out.dependencies && p.1 in Elements(d.dependsOn);
      var j :| 0 <= j < |d.dependsOn| && d.dependsOn[j] == p.1;
      assert p == (out.dependencies[i].ref, out.dependencies[i].dependsOn[j]);
    }
    forall p | p in Listed(out) ensures p in final {
      var i, j :| 0 <= i < |out.dependencies| && 0 <= j < |out.dependencies[i].dependsOn|
                  && p == (out.dependencies[i].ref, out.dependencies[i].dependsOn[j]);
      var d := out.dependencies[i];
      assert d in out.dependencies && d.dependsOn[j] in Elements(d.dependsOn);
    }
  }

  /** The final edges: those of the attached graph, which the extension is no part of, and one from the extension. */
  ghost predicate Extended(final: Edges, f: Edges, extension: string, cli: string) {
    && final == f + {(extension, cli)} && extension != cli
    && forall a, b :: (a, b) in f ==> a != extension && b != extension
  }

  /** A path that does not begin at the extension never comes there. */
  lemma PathAvoids(final: Edges, f: Edges, extension: string, cli: string, p: seq<string>)
    requires Extended(final, f, extension, cli) && IsPath(final, p) && p[0] != extension
    ensures IsPath(f, p)
  {
    forall i | 0 <= i < |p| - 1 ensures (p[i], p[i + 1]) in f {
      assert (p[i], p[i + 1]) in final;
      if i > 0 { assert (p[i - 1], p[i]) in final; }
    }
  }

  lemma ReachFromCli(final: Edges, f: Edges, extension: string, cli: string, c: string)
    requires Extended(final, f, extension, cli)
    ensures Reach(final, cli, c) <==> Reach(f, cli, c)
  {
    if Reach(final, cli, c) {
      var p :| Joins(final, p, cli, c);
      PathAvoids(final, f, extension, cli, p);
      assert Joins(f, p, cli, c);
    }
    if Reach(f, cli, c) { ReachMonotone(f, final, cli, c); }
  }

  lemma ReachFromExtension(final: Edges, f: Edges, extension: string, cli: string, c: string)
    requires Extended(final, f, extension, cli) && c != extension
    ensures Reach(final, extension, c) <==> Reach(final, cli, c)
  {
    if Reach(final, extension, c) {
      var p :| Joins(final, p, extension, c);
      assert (p[0], p[1]) in final;
      assert IsPath(final, p[1..]) by {
        forall i | 0 <= i < |p| - 2 ensures (p[1..][i],
                                             p[1..][i + 1]) in final { assert (p[i + 1], p[i + 2]) in final; }
      }
      assert Joins(final, p[1..], cli, c);
    }
    if Reach(final, cli, c) {
      var p :| Joins(final, p, cli, c);
      var q := [extension] + p;
      assert forall i :: 1 <= i < |q| ==> q[i] == p[i - 1];
      assert Joins(final, q, extension, c);
    }
  }

  /** What the packaged extension has to do with the graph of a merge. */
  lemma FinalIsExtended(s: Source, extension: string, cli: string)
    requires Acceptable(s, extension, cli) && extension != cli
    ensures var m, n := Index(s.components), Names(s.root.value, extension, cli);
            var e := SourceEdges(s.dependencies);
            && Extended(FinalEdges(m, n, e), Attached(Image(m, n, e), cli, Retained(m, n)), extension, cli)
            && (forall a, b :: (a, b) in FinalEdges(m, n, e) ==> a in Retained(m, n) + {cli, extension})
            && extension !in Retained(m, n)
  {
    hide Image, SourceEdges, GoodRecords, Index;
    var m, n := Index(s.components), Names(s.root.value, extension, cli);
    IndexIsKeyed(s.components);
    ImageIsWithin(m, n, s.dependencies);
  }

  lemma IndexIsKeyed(raw: seq<RawComponent>)
    requires GoodComponents(raw)
    ensures Keyed(Index(raw))
  {
  }

  /**
   In the merged document, by its own lists: the extension has one record, with the CLI in it and nothing
   else; nothing depends on the extension; and a component is reached from the extension exactly if it is
   reached from the CLI.
   */
  lemma ExtensionDependsOnCli(s: Source, extension: string, cli: string, managed: Component, out: Merged)
    requires Acceptable(s, extension, cli) && extension != cli && managed.ref == cli
    requires IsMerge(s, extension, cli, managed, out)
    ensures DependencyRecord(extension, [cli]) in out.dependencies
    ensures forall d :: d in out.dependencies ==>
              extension !in d.dependsOn && (d.ref == extension ==> d.dependsOn == [cli])
    ensures forall c :: c in ComponentRefs(out.components) ==>
              c != extension && (Reach(Listed(out), extension, c) <==> Reach(Listed(out), cli, c))
  {
    hide FinalEdges, GoodComponents, GoodIdentities, GoodRecords, Sorted, Reach, Retained;
    var m, n := Index(s.components), Names(s.root.value, extension, cli);
    var final := FinalEdges(m, n, SourceEdges(s.dependencies));
    var f := Attached(Image(m, n, SourceEdges(s.dependencies)), cli, Retained(m, n));
    FinalIsExtended(s, extension, cli);
    ListedIsFinal(out, final);
    hide Image, SourceEdges, Index, Attached;
    forall d | d in out.dependencies && d.ref == extension ensures d.dependsOn == [cli] {
      OnlyCli(final, f, extension, cli, d);
    }
    forall d | d in out.dependencies ensures extension !in d.dependsOn {
      assert extension !in Successors(final, d.ref);
      NotAmong(d.dependsOn, extension);
    }
    assert extension in Elements(RecordRefs(out.dependencies));
    var i :| 0 <= i < |out.dependencies| && RecordRefs(out.dependencies)[i] == extension;
    assert out.dependencies[i] == DependencyRecord(extension, [cli]);
    forall c | c in ComponentRefs(out.components)
      ensures c != extension && (Reach(Listed(out), extension, c) <==> Reach(Listed(out), cli, c))
    {
      ComponentIsListed(s, extension, cli, managed, out, c);
      ReachFromExtension(final, f, extension, cli, c);
    }
  }

  lemma NotAmong(list: seq<string>, x: string)
    requires x !in Elements(list)
    ensures x !in list
  {
  }

  lemma OnlyCli(final: Edges, f: Edges, extension: string, cli: string, d: DependencyRecord)
    requires Extended(final, f, extension, cli) && d.ref == extension
    requires Sorted(d.dependsOn) && Elements(d.dependsOn) == Successors(final, extension)
    ensures d.dependsOn == [cli]
  {
    assert Successors(final, extension) == {cli} by { assert (extension, cli) in final; }
    assert Elements([cli]) == {cli};
    SortedUnique(d.dependsOn, [cli]);
  }

  /** The components that a merged document lists. */
  lemma ComponentIsListed(s: Source, extension: string, cli: string, managed: Component, out: Merged, c: string)
    requires Acceptable(s, extension, cli) && extension != cli && managed.ref == cli
    requires IsMerge(s, extension, cli, managed, out)
    ensures var m, n := Index(s.components), Names(s.root.value, extension, cli);
            && (c in ComponentRefs(out.components) <==> c in Retained(m, n) + {cli})
            && extension !in Retained(m, n)
  {
    hide FinalEdges, Sorted, GoodRecords, GoodIdentities, GoodComponents, SourceEdges, Retained;
    var m, n := Index(s.components), Names(s.root.value, extension, cli);
    FinalIsExtended(s, extension, cli);
    IndexIsKeyed(s.components);
    RetainedAreKnown(m, n);
    RefsOf(out, m, Retained(m, n), managed, c);
  }

  lemma RetainedAreKnown(m: map<string, Component>, n: Names)
    ensures Retained(m, n) <= m.Keys
  {
  }

  lemma RefsOf(out: Merged, m: map<string, Component>, kept: set<string>, managed: Component, c: string)
    requires kept <= m.Keys && Keyed(m) && Elements(out.components) == {managed} + set r | r in kept :: m[r]
    ensures c in ComponentRefs(out.components) <==> c in kept + {managed.ref}
  {
    if c in ComponentRefs(out.components) {
      var i :| 0 <= i < |out.components| && out.components[i].ref == c;
      assert out.components[i] in Elements(out.components);
    }
    if c in kept + {managed.ref} {
      var x := if c in kept then m[c] else managed;
      assert x in Elements(out.components);
      var i :| 0 <= i < |out.components| && out.components[i] == x;
      assert ComponentRefs(out.components)[i] == c;
    }
  }

  /**
   What the merge is for, by the document's own lists: every component that it lists is reached from the
   extension, unless a cluster of orphans is held up by itself alone while another orphan stands free.
   */
  lemma EverythingIsReached(s: Source, extension: string, cli: string, managed: Component, out: Merged)
    requires Acceptable(s, extension, cli) && extension != cli && managed.ref == cli
    requires IsMerge(s, extension, cli, managed, out)
    ensures var m, n := Index(s.components), Names(s.root.value, extension, cli);
            var image := Image(m, n, SourceEdges(s.dependencies));
            && ((forall c :: c in ComponentRefs(out.components) ==> Reach(Listed(out), extension, c)) <==>
                  OrphanRoots(image, cli, Retained(m, n)) == {}
                  || forall cluster :: !RootlessCluster(image, cli, Retained(m, n), cluster))
            && (AcyclicOrphans(image, cli, Retained(m, n)) ==>
                  forall c :: c in ComponentRefs(out.components) ==> Reach(Listed(out), extension, c))
  {
    hide GoodComponents, GoodIdentities, GoodRecords, Reach, Image, SourceEdges, Index, Attached, Retained,
        OrphanRoots, RootlessCluster, Listed,
        AcyclicOrphans, Sorted, FinalEdges;
    var m, n := Index(s.components), Names(s.root.value, extension, cli);
    MergedIsReached(s, extension, cli);
    forall c | c in ComponentRefs(out.components)
      ensures Reach(Listed(out), extension, c) <==>
                c == cli || Reach(Attached(Image(m, n, SourceEdges(s.dependencies)), cli, Retained(m, n)), cli, c)
    {
      ReachInOutput(s, extension, cli, managed, out, c);
    }
    forall c | c in Retained(m, n) ensures c in ComponentRefs(out.components) {
      ComponentIsListed(s, extension, cli, managed, out, c);
    }
    forall c | c in ComponentRefs(out.components) ensures c == cli || c in Retained(m, n) {
      ComponentIsListed(s, extension, cli, managed, out, c);
    }
    ReachSelf(Attached(Image(m, n, SourceEdges(s.dependencies)), cli, Retained(m, n)), cli);
  }

  lemma ReachInOutput(s: Source, extension: string, cli: string, managed: Component, out: Merged, c: string)
    requires Acceptable(s, extension, cli) && extension != cli && managed.ref == cli
    requires IsMerge(s, extension, cli, managed, out) && c in ComponentRefs(out.components)
    ensures var m, n := Index(s.components), Names(s.root.value, extension, cli);
            Reach(Listed(out), extension, c) <==>
              c == cli || Reach(Attached(Image(m, n, SourceEdges(s.dependencies)), cli, Retained(m, n)), cli, c)
  {
    hide FinalEdges, GoodComponents, GoodIdentities, GoodRecords, Sorted, Reach, Retained, Listed;
    var m, n := Index(s.components), Names(s.root.value, extension, cli);
    var final := FinalEdges(m, n, SourceEdges(s.dependencies));
    var f := Attached(Image(m, n, SourceEdges(s.dependencies)), cli, Retained(m, n));
    ExtensionDependsOnCli(s, extension, cli, managed, out);
    FinalIsExtended(s, extension, cli);
    ListedIsFinal(out, final);
    ReachFromCli(final, f, extension, cli, c);
    ReachSelf(f, cli);
  }
}
