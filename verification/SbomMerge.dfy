/**
 Merging the dependency SBOM of the managed runtime into the SBOM of the extension package: duplicate
 packages collapse into one representative, edges follow, and orphaned components are attached.
 */
module SbomMerge {
  import opened Wrappers
  import opened StringOrder
  import opened DependencyGraph

  // ----- Documents -----

  /**
   `body` is the canonical form of every field but `bom-ref` and a nonempty `purl`; `purl` is empty when
   there is none.
   */
  datatype Component = Component(ref: string, purl: string, body: string)

  /** A component whose own fields are not as the format asks for is `Malformed`. */
  datatype RawComponent = Malformed | Entry(component: Component)
  datatype RawRecord = BadRecord | Record(ref: string, dependsOn: seq<string>)
  datatype Source = Source(root: Option<string>, components: seq<RawComponent>, dependencies: seq<RawRecord>)

  datatype DependencyRecord = DependencyRecord(ref: string, dependsOn: seq<string>)
  datatype Merged = Merged(components: seq<Component>, dependencies: seq<DependencyRecord>)

  datatype Error =
    | RootMissing | RootCollides | InvalidComponent | ConflictingRefs | RefCollides | IdentityCollides
    | ConflictingPackages | InvalidRecord | DanglingReference

  // ----- What the merge means -----

  function Components(raw: seq<RawComponent>): set<Component> {
    set r | r in raw && r.Entry? :: r.component
  }

  ghost predicate Unambiguous(components: set<Component>) {
    forall a, b :: a in components && b in components && a.ref == b.ref ==> a == b
  }

  ghost predicate GoodComponents(raw: seq<RawComponent>) {
    Malformed !in raw && Unambiguous(Components(raw))
  }

  ghost function Index(raw: seq<RawComponent>): map<string, Component>
    requires GoodComponents(raw)
  {
    map c | c in Components(raw) :: c.ref := c
  }

  /** The names under which a merge runs: the source's root and the two packaged applications. */
  datatype Names = Names(root: string, extension: string, cli: string)

  predicate Packaged(n: Names, value: string) {
    value == n.extension || value == n.cli
  }

  predicate Keyed(m: map<string, Component>) {
    forall r :: r in m ==> m[r].ref == r
  }

  /** The components other than the root that carry the package identity. */
  function Twins(m: map<string, Component>, n: Names, purl: string): set<string> {
    set r | r in m && r != n.root && m[r].purl == purl
  }

  ghost predicate GoodIdentities(m: map<string, Component>, n: Names) {
    && (forall r :: r in m && r != n.root ==> !Packaged(n, r) && (m[r].purl != "" ==> !Packaged(n, m[r].purl)))
    && (forall r, q :: r in m && q in m && r != n.root && q != n.root && m[r].purl == m[q].purl != ""
          ==> m[r].body == m[q].body)
  }

  /** The root stands for the packaged CLI, and a package for its least reference. */
  ghost function Alias(m: map<string, Component>, n: Names, ref: string): string {
    if ref == n.root then n.cli
    else if ref in m && m[ref].purl != "" then
      assert ref in Twins(m, n, m[ref].purl);
      Least(Twins(m, n, m[ref].purl))
    else ref
  }

  ghost function Retained(m: map<string, Component>, n: Names): set<string> {
    set r | r in m && r != n.root && Alias(m, n, r) == r
  }

  function SourceRefs(m: map<string, Component>, n: Names): set<string> {
    m.Keys + {n.root}
  }

  predicate GoodRecord(r: RawRecord, refs: set<string>) {
    r.Record? && r.ref in refs && forall i :: 0 <= i < |r.dependsOn| ==> r.dependsOn[i] in refs
  }

  predicate GoodRecords(records: seq<RawRecord>, refs: set<string>) {
    forall i :: 0 <= i < |records| ==> GoodRecord(records[i], refs)
  }

  function SourceEdges(records: seq<RawRecord>): Edges {
    set i, j | 0 <= i < |records| && records[i].Record? && 0 <= j < |records[i].dependsOn| ::
        (records[i].ref, records[i].dependsOn[j])
  }

  /** The image of the source edges under the aliases, without self-loops. */
  ghost function Image(m: map<string, Component>, n: Names, e: Edges): Edges {
    set p | p in e && Alias(m, n, p.0) != Alias(m, n, p.1) :: (Alias(m, n, p.0), Alias(m, n, p.1))
  }

  ghost predicate Acceptable(s: Source, extension: string, cli: string) {
    && s.root.Some? && s.root.value != extension
    && GoodComponents(s.components)
    && var m, n := Index(s.components), Names(s.root.value, extension, cli);
       GoodIdentities(m, n) && GoodRecords(s.dependencies, SourceRefs(m, n))
  }

  ghost function FinalEdges(m: map<string, Component>, n: Names, e: Edges): Edges {
    Attached(Image(m, n, e), n.cli, Retained(m, n)) + {(n.extension, n.cli)}
  }

  function Successors(e: Edges, ref: string): set<string> {
    set p | p in e && p.0 == ref :: p.1
  }

  function ComponentRefs(s: seq<Component>): seq<string> {
    seq(|s|, i requires 0 <= i < |s| => s[i].ref)
  }

  function RecordRefs(s: seq<DependencyRecord>): seq<string> {
    seq(|s|, i requires 0 <= i < |s| => s[i].ref)
  }

  /** `out` is the merge of an acceptable source: sorted, complete and with exactly the final edges. */
  ghost predicate IsMerge(s: Source, extension: string, cli: string, managed: Component, out: Merged)
    requires Acceptable(s, extension, cli)
  {
    var m, n := Index(s.components), Names(s.root.value, extension, cli);
    var final := FinalEdges(m, n, SourceEdges(s.dependencies));
    && Sorted(ComponentRefs(out.components))
    && Elements(out.components) == {managed} + (set r | r in Retained(m, n) :: m[r])
    && Sorted(RecordRefs(out.dependencies))
    && Elements(RecordRefs(out.dependencies)) == Retained(m, n) + {cli, extension}
    && forall d :: d in out.dependencies ==> Sorted(d.dependsOn) && Elements(d.dependsOn) == Successors(final, d.ref)
  }

  // ----- Representatives -----

  /**
   Every source reference has a final one: itself, its package's representative, or the CLI for the
   root. So the check for dangling references in the merged graph can never fire.
   */
  lemma AliasIsFinal(m: map<string, Component>, n: Names, ref: string)
    requires Keyed(m) && ref in SourceRefs(m, n)
    ensures Alias(m, n, ref) in Retained(m, n) + {n.cli}
    ensures ref != n.root && m[ref].purl != "" ==>
              Alias(m, n, ref) in m && m[Alias(m, n, ref)].purl == m[ref].purl
              && Alias(m, n, Alias(m, n, ref)) == Alias(m, n, ref)
  {
    if ref != n.root && m[ref].purl != "" {
      var twins := Twins(m, n, m[ref].purl);
      assert ref in twins;
      var t := Least(twins);
      assert t in twins && m[t].purl == m[ref].purl;
      assert Twins(m, n, m[t].purl) == twins;
    }
  }

  /**
   No package is kept twice, and nothing is lost: the retained package identities are pairwise distinct,
   and every component of the source equals its representative in everything but the reference.
   */
  lemma OneRepresentativeEach(m: map<string, Component>, n: Names)
    requires Keyed(m) && GoodIdentities(m, n)
    ensures forall r, q :: r in Retained(m, n) && q in Retained(m, n) && m[r].purl == m[q].purl != "" ==> r == q
    ensures forall r :: r in m && r != n.root ==>
              var t := Alias(m, n, r); t in Retained(m, n) && m[r] == m[t].(ref := r)
  {
    forall r | r in m && r != n.root
      ensures var t := Alias(m, n, r); t in Retained(m, n) && m[r] == m[t].(ref := r)
    {
      AliasIsFinal(m, n, r);
    }
    forall r, q | r in Retained(m, n) && q in Retained(m, n) && m[r].purl == m[q].purl != "" ensures r == q {
      assert r == Least(Twins(m, n, m[r].purl)) && q == Least(Twins(m, n, m[q].purl));
    }
  }

  lemma ImageIsWithin(m: map<string, Component>, n: Names, records: seq<RawRecord>)
    requires Keyed(m) && GoodRecords(records, SourceRefs(m, n))
    ensures Within(Image(m, n, SourceEdges(records)), n.cli, Retained(m, n))
  {
    var e := SourceEdges(records);
    forall a, b | (a, b) in Image(m, n, e)
      ensures a in Retained(m, n) + {n.cli} && b in Retained(m, n) + {n.cli}
    {
      var p :| p in e && (a, b) == (Alias(m, n, p.0), Alias(m, n, p.1));
      EdgeEnds(m, n, records, p);
      AliasIsFinal(m, n, p.0);
      AliasIsFinal(m, n, p.1);
    }
  }

  lemma EdgeEnds(m: map<string, Component>, n: Names, records: seq<RawRecord>, p: (string, string))
    requires GoodRecords(records, SourceRefs(m, n)) && p in SourceEdges(records)
    ensures p.0 in SourceRefs(m, n) && p.1 in SourceRefs(m, n)
  {
    var i, j :| 0 <= i < |records| && records[i].Record? && 0 <= j < |records[i].dependsOn|
        && p == (records[i].ref, records[i].dependsOn[j]);
    assert GoodRecord(records[i], SourceRefs(m, n));
  }

  // ----- The merge preserves meaning -----

  /** References that the merge identifies. */
  ghost function Same(m: map<string, Component>, n: Names): Edges {
    set a, b | a in SourceRefs(m, n) && b in SourceRefs(m, n) && Alias(m, n, a) == Alias(m, n, b) :: (a, b)
  }

  lemma {:induction false} PathMaps(m: map<string, Component>, n: Names, e: Edges, p: seq<string>)
    requires IsPath(e + Same(m, n), p)
    ensures Reach(Image(m, n, e), Alias(m, n, p[0]), Alias(m, n, p[|p| - 1]))
    decreases |p|
  {
    var image := Image(m, n, e);
    if |p| == 1 {
      ReachSelf(image, Alias(m, n, p[0]));
    } else {
      var front := p[..|p| - 1];
      var a, b := p[|p| - 2], p[|p| - 1];
      assert forall i :: 0 <= i < |front| ==> front[i] == p[i];
      PathMaps(m, n, e, front);
      assert (p[|p| - 2], p[|p| - 2 + 1]) in e + Same(m, n);
      if Alias(m, n, a) != Alias(m, n, b) {
        assert (a, b) in e;
        assert (Alias(m, n, (a, b).0), Alias(m, n, (a, b).1)) in image;
        ReachStep(image, Alias(m, n, p[0]), Alias(m, n, a), Alias(m, n, b));
      }
    }
  }

  lemma {:induction false} PathLifts(m: map<string, Component>, n: Names, e: Edges, p: seq<string>, a: string,
                                     b: string)
    requires forall x, y :: (x, y) in e ==> x in SourceRefs(m, n) && y in SourceRefs(m, n)
    requires a in SourceRefs(m, n) && b in SourceRefs(m, n)
    requires Joins(Image(m, n, e), p, Alias(m, n, a), Alias(m, n, b))
    ensures Reach(e + Same(m, n), a, b)
    decreases |p|
  {
    var all := e + Same(m, n);
    ReachSelf(all, a);
    if |p| == 1 {
      assert (a, b) in all;
      ReachStep(all, a, a, b);
    } else {
      var front := p[..|p| - 1];
      assert forall i :: 0 <= i < |front| ==> front[i] == p[i];
      assert (p[|p| - 2], p[|p| - 2 + 1]) in Image(m, n, e);
      var q :| q in e && (p[|p| - 2], p[|p| - 1]) == (Alias(m, n, q.0), Alias(m, n, q.1));
      assert (q.0, q.1) in e && (q.1, b) in all;
      hide Image, Alias, Same, Reach;
      PathLifts(m, n, e, front, a, q.0);
      ReachStep(all, a, q.0, q.1);
      ReachStep(all, a, q.1, b);
    }
  }

  /**
   The merge preserves meaning. One package reaches another in the merged graph exactly when it does in
   the source graph, read up to the references that name the same package; in particular whatever is
   reachable in the source stays reachable.
   */
  lemma MergePreservesReachability(m: map<string, Component>, n: Names, e: Edges, a: string, b: string)
    requires forall x, y :: (x, y) in e ==> x in SourceRefs(m, n) && y in SourceRefs(m, n)
    requires a in SourceRefs(m, n) && b in SourceRefs(m, n)
    ensures Reach(Image(m, n, e), Alias(m, n, a), Alias(m, n, b)) <==> Reach(e + Same(m, n), a, b)
    ensures Reach(e, a, b) ==> Reach(Image(m, n, e), Alias(m, n, a), Alias(m, n, b))
  {
    if Reach(e, a, b) {
      ReachMonotone(e, e + Same(m, n), a, b);
    }
    if Reach(e + Same(m, n), a, b) {
      var p :| Joins(e + Same(m, n), p, a, b);
      PathMaps(m, n, e, p);
    }
    if Reach(Image(m, n, e), Alias(m, n, a), Alias(m, n, b)) {
      var p :| Joins(Image(m, n, e), p, Alias(m, n, a), Alias(m, n, b));
      PathLifts(m, n, e, p, a, b);
    }
  }

  // ----- Order does not matter -----

  /** The two documents list the same components, mention the same references and draw the same edges. */
  ghost predicate SameContent(s: Source, t: Source) {
    && s.root == t.root
    && Elements(s.components) == Elements(t.components)
    && (BadRecord in s.dependencies <==> BadRecord in t.dependencies)
    && Mentioned(s.dependencies) == Mentioned(t.dependencies)
    && SourceEdges(s.dependencies) == SourceEdges(t.dependencies)
  }

  function Mentioned(records: seq<RawRecord>): set<string> {
    (set r | r in records && r.Record? :: r.ref)
        + (set i, j | 0 <= i < |records| && records[i].Record? && 0 <= j < |records[i].dependsOn| ::
           records[i].dependsOn[j])
  }

  lemma GoodRecordsByMention(records: seq<RawRecord>, refs: set<string>)
    ensures GoodRecords(records, refs) <==> BadRecord !in records && Mentioned(records) <= refs
  {
    if GoodRecords(records, refs) {
      forall i | 0 <= i < |records| ensures records[i].Record? { assert GoodRecord(records[i], refs); }
      forall x | x in Mentioned(records) ensures x in refs {
        if r :| r in records && r.Record? && r.ref == x {
          var i :| 0 <= i < |records| && records[i] == r;
          assert GoodRecord(records[i], refs);
        } else {
          var i, j :| 0 <= i < |records| && records[i].Record? && 0 <= j < |records[i].dependsOn|
              && records[i].dependsOn[j] == x;
          assert GoodRecord(records[i], refs);
        }
      }
    }
    if BadRecord !in records && Mentioned(records) <= refs {
      forall i | 0 <= i < |records| ensures GoodRecord(records[i], refs) {
        assert records[i] in records;
        assert records[i].Record?;
        assert records[i].ref in Mentioned(records);
        forall j | 0 <= j < |records[i].dependsOn| ensures records[i].dependsOn[j] in refs {
          assert records[i].dependsOn[j] in Mentioned(records);
        }
      }
    }
  }

  lemma SameContentSameMeaning(s: Source, t: Source, extension: string, cli: string)
    requires SameContent(s, t)
    ensures Acceptable(s, extension, cli) <==> Acceptable(t, extension, cli)
    ensures GoodComponents(s.components) ==> GoodComponents(t.components) && Index(s.components) == Index(t.components)
  {
    assert forall r :: r in s.components <==> r in t.components by {
      assert forall r :: r in Elements(s.components) <==> r in s.components;
      assert forall r :: r in Elements(t.components) <==> r in t.components;
    }
    assert Components(s.components) == Components(t.components);
    if s.root.Some? && GoodComponents(s.components) {
      var refs := SourceRefs(Index(s.components), Names(s.root.value, extension, cli));
      GoodRecordsByMention(s.dependencies, refs);
      GoodRecordsByMention(t.dependencies, refs);
    }
  }

  /** Sorted lists of components are determined by their members. */
  lemma SortedComponentsUnique(a: seq<Component>, b: seq<Component>)
    requires Sorted(ComponentRefs(a)) && Sorted(ComponentRefs(b)) && Elements(a) == Elements(b)
    ensures a == b
  {
    var ra, rb := ComponentRefs(a), ComponentRefs(b);
    SameRefs(a, b);
    SameRefs(b, a);
    assert Elements(ra) == Elements(rb);
    SortedUnique(ra, rb);
    forall i | 0 <= i < |a| ensures a[i] == b[i] {
      assert a[i] in Elements(b);
      var j :| 0 <= j < |b| && b[j] == a[i];
      assert ra[i] == rb[i] && rb[j] == ra[i];
      if i != j { LessTrichotomy(rb[i], rb[j]); }
    }
  }

  lemma SameRefs(a: seq<Component>, b: seq<Component>)
    requires Elements(a) == Elements(b)
    ensures forall x :: x in ComponentRefs(a) ==> x in ComponentRefs(b)
  {
    forall x | x in ComponentRefs(a) ensures x in ComponentRefs(b) {
      var i :| 0 <= i < |a| && a[i].ref == x;
      assert a[i] in Elements(b);
      var j :| 0 <= j < |b| && b[j] == a[i];
      assert ComponentRefs(b)[j] == x;
    }
  }

  /**
   The merge does not depend on order or repetition: from documents with the same content, either
   neither merge succeeds, or both give the same components and the same dependency records.
   */
  lemma MergeIsOrderIndependent(s: Source, t: Source, extension: string, cli: string, managed: Component, a: Merged,
                                b: Merged)
    requires SameContent(s, t) && Acceptable(s, extension, cli)
    ensures Acceptable(t, extension, cli)
    ensures IsMerge(s, extension, cli, managed, a) && IsMerge(t, extension, cli, managed, b) ==> a == b
  {
    SameContentSameMeaning(s, t, extension, cli);
    if IsMerge(s, extension, cli, managed, a) && IsMerge(t, extension, cli, managed, b) {
      SortedComponentsUnique(a.components, b.components);
      var ra, rb := RecordRefs(a.dependencies), RecordRefs(b.dependencies);
      SortedUnique(ra, rb);
      forall i | 0 <= i < |ra| ensures a.dependencies[i] == b.dependencies[i] {
        assert ra[i] == rb[i];
        assert a.dependencies[i] in a.dependencies && b.dependencies[i] in b.dependencies;
        SortedUnique(a.dependencies[i].dependsOn, b.dependencies[i].dependsOn);
      }
    }
  }

  /** `r` occurs in `records`, perhaps with its list of dependencies permuted or repeated. */
  ghost predicate Occurs(r: RawRecord, records: seq<RawRecord>) {
    if r.BadRecord? then r in records
    else exists i ::
      0 <= i < |records| && records[i].Record? && records[i].ref == r.ref
      && Elements(records[i].dependsOn) == Elements(r.dependsOn)
  }

  lemma OccursKeeps(a: seq<RawRecord>, b: seq<RawRecord>)
    requires forall r :: r in a ==> Occurs(r, b)
    ensures BadRecord in a ==> BadRecord in b
    ensures Mentioned(a) <= Mentioned(b) && SourceEdges(a) <= SourceEdges(b)
  {
    forall i, j | 0 <= i < |a| && a[i].Record? && 0 <= j < |a[i].dependsOn|
      ensures a[i].dependsOn[j] in Mentioned(b) && (a[i].ref, a[i].dependsOn[j]) in SourceEdges(b)
    {
      assert Occurs(a[i], b);
      var k :| 0 <= k < |b| && b[k].Record? && b[k].ref == a[i].ref
          && Elements(b[k].dependsOn) == Elements(a[i].dependsOn);
      assert a[i].dependsOn[j] in Elements(b[k].dependsOn);
      var l :| 0 <= l < |b[k].dependsOn| && b[k].dependsOn[l] == a[i].dependsOn[j];
      assert (b[k].ref, b[k].dependsOn[l]) in SourceEdges(b);
    }
    forall r | r in a && r.Record? ensures r.ref in Mentioned(b) {
      assert Occurs(r, b);
      var k :| 0 <= k < |b| && b[k].Record? && b[k].ref == r.ref && Elements(b[k].dependsOn) == Elements(r.dependsOn);
      assert b[k] in b;
    }
    if BadRecord in a { assert Occurs(BadRecord, b); }
  }

  /** Permuting or repeating components, dependency records or the lists inside them keeps the content. */
  lemma ReorderingKeepsContent(s: Source, t: Source)
    requires s.root == t.root && Elements(s.components) == Elements(t.components)
    requires forall r :: r in s.dependencies ==> Occurs(r, t.dependencies)
    requires forall r :: r in t.dependencies ==> Occurs(r, s.dependencies)
    ensures SameContent(s, t)
  {
    OccursKeeps(s.dependencies, t.dependencies);
    OccursKeeps(t.dependencies, s.dependencies);
  }

  // ----- A document in which attaching misses two components -----

  /** Two packages that depend on each other and a third that stands free. */
  const CYCLIC := Source(Some("root"),
                         [Entry(Component("x", "", "x")), Entry(Component("y", "", "y")),
                          Entry(Component("z", "", "z"))],
                         [Record("x", ["y"]), Record("y", ["x"])])

  lemma CyclicIndex()
    ensures GoodComponents(CYCLIC.components)
    ensures Index(CYCLIC.components) ==
            map["x" := Component("x", "", "x"), "y" := Component("y", "", "y"), "z" := Component("z", "", "z")]
  {
    var raw := CYCLIC.components;
    var x, y, z := Component("x", "", "x"), Component("y", "", "y"), Component("z", "", "z");
    assert raw == [Entry(x), Entry(y), Entry(z)];
    ThreeComponents(raw, x, y, z);
  }

  lemma ThreeComponents(raw: seq<RawComponent>, x: Component, y: Component, z: Component)
    requires raw == [Entry(x), Entry(y), Entry(z)] && x.ref != y.ref && y.ref != z.ref && x.ref != z.ref
    ensures GoodComponents(raw) && Index(raw) == map[x.ref := x, y.ref := y, z.ref := z]
  {
    ThreeAre(raw, x, y, z);
    ThreeAreGood(raw, x, y, z);
    hide Components, GoodComponents;
    assert (map c | c in {x, y, z} :: c.ref := c) == map[x.ref := x, y.ref := y, z.ref := z];
  }

  lemma ThreeAreGood(raw: seq<RawComponent>, x: Component, y: Component, z: Component)
    requires raw == [Entry(x), Entry(y), Entry(z)] && Components(raw) == {x, y, z}
    requires x.ref != y.ref && y.ref != z.ref && x.ref != z.ref
    ensures GoodComponents(raw)
  {
    hide Components;
  }

  lemma ThreeAre(raw: seq<RawComponent>, x: Component, y: Component, z: Component)
    requires raw == [Entry(x), Entry(y), Entry(z)]
    ensures Components(raw) == {x, y, z}
  {
    assert raw[0] in raw && raw[1] in raw && raw[2] in raw;
  }

  lemma CyclicEdges()
    ensures SourceEdges(CYCLIC.dependencies) == {("x", "y"), ("y", "x")}
  {
    var records := CYCLIC.dependencies;
    forall p | p in {("x", "y"), ("y", "x")} ensures p in SourceEdges(records) {
      var i := if p.0 == "x" then 0 else 1;
      assert p == (records[i].ref, records[i].dependsOn[0]);
    }
  }

  lemma CyclicAccepted(s: Source, m: map<string, Component>, n: Names)
    requires s.root == Some(n.root) && n.root != n.extension
    requires GoodComponents(s.components) && m == Index(s.components)
    requires n.root !in m && n.extension !in m && n.cli !in m && forall r :: r in m ==> m[r].purl == ""
    requires GoodRecords(s.dependencies, SourceRefs(m, n))
    ensures Acceptable(s, n.extension, n.cli)
  {
    hide Index, GoodComponents, GoodRecords, SourceRefs;
    assert n == Names(s.root.value, n.extension, n.cli);
  }

  lemma CyclicMerge(m: map<string, Component>, n: Names, e: Edges)
    requires m == map["x" := Component("x", "", "x"), "y" := Component("y", "", "y"), "z" := Component("z", "", "z")]
    requires n.root !in m && n.cli == "cli" && e == {("x", "y"), ("y", "x")}
    ensures Image(m, n, e) == e && Retained(m, n) == {"x", "y", "z"} && !AllReached(e, "cli", Retained(m, n))
  {
    hide Image, Retained, Alias, AllReached;
    assert "x" != "y";
    WithoutPackages(m, n, e);
    assert m.Keys == {"x", "y", "z"};
    PureCycleIsMissed();
  }

  /** The document is acceptable, and the merge leaves two of its components unreachable from the CLI. */
  lemma AcceptableCycleIsMissed()
    ensures Acceptable(CYCLIC, "extension", "cli")
    ensures var m, n := Index(CYCLIC.components), Names("root", "extension", "cli");
            var image := Image(m, n, SourceEdges(CYCLIC.dependencies));
            image == {("x", "y"), ("y", "x")} && Retained(m, n) == {"x", "y", "z"}
                && !AllReached(image, "cli", Retained(m, n))
  {
    hide Image, Retained, Index, GoodComponents, GoodRecords, SourceEdges, AllReached, Acceptable;
    CyclicIndex();
    CyclicEdges();
    var m, n := Index(CYCLIC.components), Names("root", "extension", "cli");
    assert "root"[0] == 'r' && "extension"[0] == 'e' && "cli"[0] == 'c' && "x"[0] == 'x' && "y"[0] == 'y'
        && "z"[0] == 'z';
    assert n.root !in m && n.extension !in m && n.cli !in m;
    CyclicRecords(m, n);
    CyclicAccepted(CYCLIC, m, n);
    CyclicMerge(m, n, SourceEdges(CYCLIC.dependencies));
  }

  lemma CyclicRecords(m: map<string, Component>, n: Names)
    requires m.Keys == {"x", "y", "z"}
    ensures GoodRecords(CYCLIC.dependencies, SourceRefs(m, n))
  {
  }

  /** Without package identities every component stands for itself, and only self-loops go. */
  lemma WithoutPackages(m: map<string, Component>, n: Names, e: Edges)
    requires n.root !in m && forall r :: r in m ==> m[r].purl == ""
    requires forall a, b :: (a, b) in e ==> a in m && b in m && a != b
    ensures Retained(m, n) == m.Keys && Image(m, n, e) == e
  {
    forall a, b | (a, b) in e ensures (a, b) in Image(m, n, e) {
      assert (Alias(m, n, (a, b).0), Alias(m, n, (a, b).1)) == (a, b);
    }
    forall p | p in Image(m, n, e) ensures p in e {
      var q :| q in e && Alias(m, n, q.0) != Alias(m, n, q.1) && p == (Alias(m, n, q.0), Alias(m, n, q.1));
      assert (q.0, q.1) in e;
    }
  }
}
