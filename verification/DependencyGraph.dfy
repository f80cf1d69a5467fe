/** Dependency graphs, reachability, and the attachment of components nothing reaches. */
module DependencyGraph {
  import opened StringOrder

  type Edges = set<(string, string)>

  // ----- Reachability -----

  ghost predicate IsPath(e: Edges, p: seq<string>) {
    p != [] && forall i :: 0 <= i < |p| - 1 ==> (p[i], p[i + 1]) in e
  }

  ghost predicate Joins(e: Edges, p: seq<string>, a: string, b: string) {
    IsPath(e, p) && p[0] == a && p[|p| - 1] == b
  }

  ghost predicate Reach(e: Edges, a: string, b: string) {
    exists p :: Joins(e, p, a, b)
  }

  lemma ReachSelf(e: Edges, a: string)
    ensures Reach(e, a, a)
  {
    assert Joins(e, [a], a, a);
  }

  lemma ReachStep(e: Edges, a: string, b: string, c: string)
    requires Reach(e, a, b) && (b, c) in e
    ensures Reach(e, a, c)
  {
    var p :| Joins(e, p, a, b);
    assert Joins(e, p + [c], a, c);
  }

  lemma ReachMonotone(e: Edges, f: Edges, a: string, b: string)
    requires e <= f && Reach(e, a, b)
    ensures Reach(f, a, b)
  {
    var p :| Joins(e, p, a, b);
    assert Joins(f, p, a, b);
  }

  /** A set that contains the start and is closed under the edges contains all that is reachable. */
  lemma {:induction false} ClosedUnderPath(e: Edges, s: set<string>, p: seq<string>)
    requires IsPath(e, p) && p[0] in s
    requires forall a, b :: a in s && (a, b) in e ==> b in s
    ensures p[|p| - 1] in s
    decreases |p|
  {
    if |p| > 1 {
      assert (p[0], p[1]) in e;
      assert IsPath(e, p[1..]) by {
        forall i | 0 <= i < |p| - 2 ensures (p[1..][i], p[1..][i + 1]) in e {
          assert (p[i + 1], p[i + 2]) in e;
        }
      }
      ClosedUnderPath(e, s, p[1..]);
    }
  }

  lemma ClosedContainsReach(e: Edges, s: set<string>, a: string, b: string)
    requires a in s && Reach(e, a, b)
    requires forall x, y :: x in s && (x, y) in e ==> y in s
    ensures b in s
  {
    var p :| Joins(e, p, a, b);
    ClosedUnderPath(e, s, p);
  }

  // ----- Attachment -----

  ghost function Orphans(e: Edges, root: string, components: set<string>): set<string> {
    set c | c in components && !Reach(e, root, c)
  }

  /** The orphans that no orphan depends on. */
  ghost function OrphanRoots(e: Edges, root: string, components: set<string>): set<string> {
    var o := Orphans(e, root, components);
    set c | c in o && forall a :: a in o ==> (a, c) !in e
  }

  ghost function Targets(e: Edges, root: string, components: set<string>): set<string> {
    if OrphanRoots(e, root, components) != {} then OrphanRoots(e, root, components) else Orphans(e, root, components)
  }

  ghost function Attached(e: Edges, root: string, components: set<string>): Edges {
    e + set c | c in Targets(e, root, components) :: (root, c)
  }

  /** The edges join the root and the components. */
  ghost predicate Within(e: Edges, root: string, components: set<string>) {
    forall a, b :: (a, b) in e ==> a in components + {root} && b in components + {root}
  }

  /**
   Orphans that hold each other up: with a member, every orphan that depends on it is a member too, and
   none of them is free of dependents.
   */
  ghost predicate RootlessCluster(e: Edges, root: string, components: set<string>, cluster: set<string>) {
    var o := Orphans(e, root, components);
    && cluster != {} && cluster <= o
    && (forall a, b :: a in o && b in cluster && (a, b) in e ==> a in cluster)
    && cluster !! OrphanRoots(e, root, components)
  }

  ghost predicate AllReached(e: Edges, root: string, components: set<string>) {
    forall c :: c in components ==> Reach(Attached(e, root, components), root, c)
  }

  lemma TargetsReached(e: Edges, root: string, components: set<string>, t: string)
    requires t in Targets(e, root, components)
    ensures Reach(Attached(e, root, components), root, t)
  {
    var f := Attached(e, root, components);
    ReachSelf(f, root);
    assert (root, t) in f;
    ReachStep(f, root, root, t);
  }

  /** What attaching leaves unreached is a rootless cluster. */
  lemma UnreachedIsCluster(e: Edges, root: string, components: set<string>) returns (cluster: set<string>)
    requires Within(e, root, components) && !AllReached(e, root, components)
    ensures OrphanRoots(e, root, components) != {} && RootlessCluster(e, root, components, cluster)
  {
    var f, o := Attached(e, root, components), Orphans(e, root, components);
    var roots := OrphanRoots(e, root, components);
    cluster := set c | c in o && !Reach(f, root, c);
    var lost :| lost in components && !Reach(f, root, lost);
    if Reach(e, root, lost) { ReachMonotone(e, f, root, lost); }
    assert lost in cluster;
    if roots == {} { TargetsReached(e, root, components, lost); }
    forall a, b | a in o && b in cluster && (a, b) in e ensures a in cluster {
      if Reach(f, root, a) { ReachStep(f, root, a, b); }
    }
    forall c | c in roots ensures c !in cluster {
      TargetsReached(e, root, components, c);
    }
  }

  /** Once some orphan has no dependents, a rootless cluster stays out of reach. */
  lemma ClusterStaysUnreached(e: Edges, root: string, components: set<string>, cluster: set<string>)
    requires Within(e, root, components) && OrphanRoots(e, root, components) != {}
    requires RootlessCluster(e, root, components, cluster)
    ensures !AllReached(e, root, components)
  {
    var f, o := Attached(e, root, components), Orphans(e, root, components);
    var c :| c in cluster;
    var outside := (components + {root}) - cluster;
    ReachSelf(e, root);
    forall a, b | a in outside && (a, b) in f ensures b in outside {
      if (a, b) in e && b in cluster {
        if a !in o {
          ReachSelf(e, a);
          ReachStep(e, root, a, b);
        }
      }
    }
    if Reach(f, root, c) {
      ClosedContainsReach(f, outside, root, c);
    }
  }

  /**
   When attaching reaches every component: exactly when no orphan is free of dependents (then all of
   them are attached), or no cluster of orphans is held up by itself alone.
   */
  lemma AttachCompleteExactly(e: Edges, root: string, components: set<string>)
    requires Within(e, root, components)
    ensures AllReached(e, root, components) <==>
              OrphanRoots(e, root, components) == {} || forall cluster :: !RootlessCluster(e, root, components, cluster)
  {
    if !AllReached(e, root, components) {
      var cluster := UnreachedIsCluster(e, root, components);
    } else if OrphanRoots(e, root, components) != {} {
      forall cluster ensures !RootlessCluster(e, root, components, cluster) {
        if RootlessCluster(e, root, components, cluster) { ClusterStaysUnreached(e, root, components, cluster); }
      }
    }
  }

  /** No orphan depends on itself, directly or through other orphans. */
  ghost predicate AcyclicOrphans(e: Edges, root: string, components: set<string>) {
    forall p :: IsPath(e, p) && |p| > 1 && (forall i :: 0 <= i < |p| ==> p[i] in Orphans(e, root, components)) ==>
      p[0] != p[|p| - 1]
  }

  /** In a rootless cluster one can walk backwards for as long as one likes. */
  lemma {:induction false} BackwardWalk(e: Edges, root: string, components: set<string>, cluster: set<string>, n: nat)
    returns (p: seq<string>)
    requires RootlessCluster(e, root, components, cluster)
    ensures |p| == n + 1 && IsPath(e, p) && forall i :: 0 <= i < |p| ==> p[i] in cluster
    decreases n
  {
    if n == 0 {
      var c :| c in cluster;
      p := [c];
    } else {
      var q := BackwardWalk(e, root, components, cluster, n - 1);
      assert q[0] in cluster && q[0] !in OrphanRoots(e, root, components);
      var a :| a in Orphans(e, root, components) && (a, q[0]) in e;
      p := [a] + q;
    }
  }

  lemma {:induction false} Pigeonhole(p: seq<string>, s: set<string>) returns (i: nat, j: nat)
    requires |p| > |s| && forall k :: 0 <= k < |p| ==> p[k] in s
    ensures i < j < |p| && p[i] == p[j]
    decreases |p|
  {
    var last := |p| - 1;
    if k :| 0 <= k < last && p[k] == p[last] {
      i, j := k, last;
    } else {
      i, j := Pigeonhole(p[..last], s - {p[last]});
    }
  }

  lemma SubPath(e: Edges, p: seq<string>, i: nat, j: nat)
    requires IsPath(e, p) && i <= j < |p|
    ensures IsPath(e, p[i..j + 1])
  {
    var q := p[i..j + 1];
    forall k | 0 <= k < |q| - 1 ensures (q[k], q[k + 1]) in e {
      assert (p[i + k], p[i + k + 1]) in e;
    }
  }

  lemma ClusterHasCycle(e: Edges, root: string, components: set<string>, cluster: set<string>)
      returns (cycle: seq<string>)
    requires RootlessCluster(e, root, components, cluster)
    ensures IsPath(e, cycle) && |cycle| > 1 && cycle[0] == cycle[|cycle| - 1]
    ensures forall k :: 0 <= k < |cycle| ==> cycle[k] in Orphans(e, root, components)
  {
    var p := BackwardWalk(e, root, components, cluster, |cluster|);
    var i, j := Pigeonhole(p, cluster);
    SubPath(e, p, i, j);
    cycle := p[i..j + 1];
    assert forall k :: 0 <= k < |cycle| ==> cycle[k] == p[i + k] && p[i + k] in cluster;
  }

  /** If the orphans depend on each other without a cycle, every component is reached. */
  lemma AcyclicIsComplete(e: Edges, root: string, components: set<string>)
    requires Within(e, root, components) && AcyclicOrphans(e, root, components)
    ensures AllReached(e, root, components)
  {
    if !AllReached(e, root, components) {
      var cluster := UnreachedIsCluster(e, root, components);
      var cycle := ClusterHasCycle(e, root, components, cluster);
      assert false;
    }
  }

  /** Two orphans that depend on each other are missed as soon as a third one stands free. */
  lemma PureCycleIsMissed()
    ensures !AllReached({("x", "y"), ("y", "x")}, "cli", {"x", "y", "z"})
  {
    var e, components: set<string> := {("x", "y"), ("y", "x")}, {"x", "y", "z"};
    forall c | c in components ensures !Reach(e, "cli", c) {
      if Reach(e, "cli", c) { ClosedContainsReach(e, {"cli"}, "cli", c); }
    }
    assert Orphans(e, "cli", components) == {"x", "y", "z"};
    assert "z" in OrphanRoots(e, "cli", components);
    assert ("y", "x") in e && ("x", "y") in e;
    assert RootlessCluster(e, "cli", components, {"x", "y"});
    ClusterStaysUnreached(e, "cli", components, {"x", "y"});
  }
}
