/** Resolving nested command-line apps: which command prefix each registered app ends up under. */
module AppGraph {
  import opened Wrappers

  /** One `add_typer` call: the child app is registered with the parent under a group name. */
  datatype Registration = Registration(parent: string, child: string, name: string)

  /** Where an app is defined: in the root file, or in an imported module under some name. */
  datatype ModuleRef = RootModule(app: string) | Imported(path: string, app: string)

  /** What the root file imports and which apps it defines itself. */
  datatype Scope = Scope(imports: map<string, ModuleRef>, localApps: set<string>)

  datatype Error = UnresolvedModule(child: string) | UnresolvedParents(missing: seq<Registration>)

  const ROOT := "app"

  function ModuleOf(scope: Scope, child: string): Option<ModuleRef> {
    if child in scope.imports then Some(scope.imports[child])
    else if child in scope.localApps then Some(RootModule(child))
    else None
  }

  function JoinWords(words: seq<string>): string {
    if words == [] then ""
    else if |words| == 1 then words[0]
    else JoinWords(words[..|words| - 1]) + " " + words[|words| - 1]
  }

  // ----- Walks -----

  /** The app at which a walk from the root ends. */
  function End(w: seq<Registration>): string {
    if w == [] then ROOT else w[|w| - 1].child
  }

  /** Registrations that lead from the root from parent to child. */
  ghost predicate Walk(regs: seq<Registration>, w: seq<Registration>) {
    w == [] || (var front := w[..|w| - 1]; Walk(regs, front) && w[|w| - 1] in regs && w[|w| - 1].parent == End(front))
  }

  function Names(w: seq<Registration>): (r: seq<string>)
    ensures |r| == |w|
  {
    if w == [] then [] else Names(w[..|w| - 1]) + [w[|w| - 1].name]
  }

  ghost predicate Labelled(regs: seq<Registration>, app: string, prefix: seq<string>) {
    exists w :: Walk(regs, w) && End(w) == app && Names(w) == prefix
  }

  /** The words spell a walk with some registration at its end. */
  ghost predicate SpellsWalk(regs: seq<Registration>, words: string) {
    exists reg, prefix :: reg in regs && Labelled(regs, reg.parent, prefix) && words == JoinWords(prefix + [reg.name])
  }

  ghost predicate Reached(regs: seq<Registration>, app: string) {
    exists w :: Walk(regs, w) && End(w) == app
  }

  lemma RootLabelled(regs: seq<Registration>)
    ensures Labelled(regs, ROOT, [])
  {
    assert Walk(regs, []) && End([]) == ROOT && Names([]) == [];
  }

  lemma ChildLabelled(regs: seq<Registration>, reg: Registration, prefix: seq<string>)
    requires reg in regs && Labelled(regs, reg.parent, prefix)
    ensures Labelled(regs, reg.child, prefix + [reg.name])
  {
    var w :| Walk(regs, w) && End(w) == reg.parent && Names(w) == prefix;
    var longer := w + [reg];
    assert longer[..|longer| - 1] == w;
    assert Walk(regs, longer) && End(longer) == reg.child && Names(longer) == prefix + [reg.name];
  }

  /** A set of apps that holds the root and is closed under registration holds every app that is reached. */
  lemma {:induction false} ClosedHoldsWalk(regs: seq<Registration>, apps: set<string>, w: seq<Registration>)
    requires ROOT in apps && Walk(regs, w)
    requires forall reg :: reg in regs && reg.parent in apps ==> reg.child in apps
    ensures End(w) in apps
    decreases |w|
  {
    if w != [] {
      ClosedHoldsWalk(regs, apps, w[..|w| - 1]);
    }
  }

  // ----- What a resolution is -----

  datatype Resolution = Resolution(prefixes: map<string, seq<string>>, modules: map<string, ModuleRef>,
                                   groups: set<string>)

  /** Every registration hangs off the root, and every child has a module. */
  ghost predicate Resolvable(regs: seq<Registration>, scope: Scope) {
    forall reg :: reg in regs ==> Reached(regs, reg.parent) && ModuleOf(scope, reg.child).Some?
  }

  /**
   `r` resolves the registrations: exactly the reached apps have a prefix, it spells a walk to the app,
   the modules are theirs, and the groups are spelled-out walks, among them every final prefix.
   */
  ghost predicate Resolves(regs: seq<Registration>, scope: Scope, r: Resolution) {
    && (forall app :: app in r.prefixes <==> Reached(regs, app))
    && (forall app :: app in r.prefixes ==> Labelled(regs, app, r.prefixes[app]))
    && r.modules.Keys == r.prefixes.Keys
    && (forall app :: app in r.modules && app != ROOT ==> ModuleOf(scope, app) == Some(r.modules[app]))
    && (Unambiguous(regs) ==> ROOT in r.modules && r.modules[ROOT] == RootModule(ROOT))
    && (forall app :: app in r.prefixes && app != ROOT ==> JoinWords(r.prefixes[app]) in r.groups)
    && (forall g :: g in r.groups ==> SpellsWalk(regs, g))
  }

  /** All walks to an app spell the same prefix. */
  ghost predicate Unambiguous(regs: seq<Registration>) {
    forall app, p, q :: Labelled(regs, app, p) && Labelled(regs, app, q) ==> p == q
  }

  /** No app is registered twice, and the root not at all. */
  ghost predicate Unshared(regs: seq<Registration>) {
    forall a, b :: a in regs && b in regs ==> a.child != ROOT && (a.child == b.child ==> a == b)
  }

  /** Without shared children there is at most one walk to each app. */
  lemma {:induction false} WalkIsUnique(regs: seq<Registration>, v: seq<Registration>, w: seq<Registration>)
    requires Unshared(regs) && Walk(regs, v) && Walk(regs, w) && End(v) == End(w)
    ensures v == w
    decreases |v|
  {
    if v != [] && w != [] {
      var a, b := v[|v| - 1], w[|w| - 1];
      assert a in regs && b in regs && a == b;
      WalkIsUnique(regs, v[..|v| - 1], w[..|w| - 1]);
      assert v == v[..|v| - 1] + [a] && w == w[..|w| - 1] + [b];
    }
  }

  /** So without shared children nothing is ambiguous. */
  lemma UnsharedIsUnambiguous(regs: seq<Registration>)
    requires Unshared(regs)
    ensures Unambiguous(regs)
  {
    forall app, p, q | Labelled(regs, app, p) && Labelled(regs, app, q) ensures p == q {
      var v :| Walk(regs, v) && End(v) == app && Names(v) == p;
      var w :| Walk(regs, w) && End(w) == app && Names(w) == q;
      WalkIsUnique(regs, v, w);
    }
  }

  // ----- Order does not matter -----

  ghost predicate SameRegistrations(regs: seq<Registration>, other: seq<Registration>) {
    forall reg :: reg in regs <==> reg in other
  }

  lemma {:induction false} SameWalks(regs: seq<Registration>, other: seq<Registration>, w: seq<Registration>)
    requires SameRegistrations(regs, other)
    ensures Walk(regs, w) <==> Walk(other, w)
    decreases |w|
  {
    if w != [] {
      SameWalks(regs, other, w[..|w| - 1]);
    }
  }

  lemma SameMeaning(regs: seq<Registration>, other: seq<Registration>)
    requires SameRegistrations(regs, other)
    ensures forall app :: Reached(regs, app) <==> Reached(other, app)
    ensures forall app, prefix :: Labelled(regs, app, prefix) <==> Labelled(other, app, prefix)
  {
    forall w ensures Walk(regs, w) <==> Walk(other, w) {
      SameWalks(regs, other, w);
    }
    forall app ensures Reached(regs, app) <==> Reached(other, app) {
      if Reached(regs, app) { var w :| Walk(regs, w) && End(w) == app; assert Walk(other, w); }
      if Reached(other, app) { var w :| Walk(other, w) && End(w) == app; assert Walk(regs, w); }
    }
    forall app, prefix ensures Labelled(regs, app, prefix) <==> Labelled(other, app, prefix) {
      if Labelled(regs, app, prefix) {
        var w :| Walk(regs, w) && End(w) == app && Names(w) == prefix;
        assert Walk(other, w);
      }
      if Labelled(other, app, prefix) {
        var w :| Walk(other, w) && End(w) == app && Names(w) == prefix;
        assert Walk(regs, w);
      }
    }
  }

  /**
   Whether the registrations can be resolved does not depend on their order, and if all walks to an app spell
   one prefix, neither does the resolution. So it is without shared children, and with children that are
   shared under one prefix.
   */
  lemma ResolutionIsUnique(regs: seq<Registration>, other: seq<Registration>, scope: Scope, r: Resolution,
                           q: Resolution)
    requires SameRegistrations(regs, other)
    ensures Resolvable(regs, scope) <==> Resolvable(other, scope)
    ensures Unambiguous(regs) && Resolves(regs, scope, r) && Resolves(other, scope, q) ==> r == q
    ensures Unshared(regs) ==> Unambiguous(regs)
  {
    SameMeaning(regs, other);
    if Unshared(regs) { UnsharedIsUnambiguous(regs); }
    if Unambiguous(regs) && Resolves(regs, scope, r) && Resolves(other, scope, q) {
      SameResolution(regs, other, scope, r, q);
    }
  }

  lemma SameResolution(regs: seq<Registration>, other: seq<Registration>, scope: Scope, r: Resolution, q: Resolution)
    requires SameRegistrations(regs, other) && Unambiguous(regs)
    requires Resolves(regs, scope, r) && Resolves(other, scope, q)
    ensures r == q
  {
    hide Walk, Labelled, Reached, SpellsWalk, JoinWords;
    SameMeaning(regs, other);
    hide SameRegistrations;
    assert r.prefixes.Keys == q.prefixes.Keys;
    forall app | app in r.prefixes ensures r.prefixes[app] == q.prefixes[app] {
      assert Labelled(regs, app, r.prefixes[app]) && Labelled(regs, app, q.prefixes[app]);
    }
    assert Unambiguous(other);
    SameModules(regs, other, scope, r, q);
    GroupsWithin(regs, scope, r, r.prefixes);
    GroupsWithin(other, scope, q, q.prefixes);
  }

  lemma SameModules(regs: seq<Registration>, other: seq<Registration>, scope: Scope, r: Resolution, q: Resolution)
    requires Unambiguous(regs) && Unambiguous(other) && Resolves(regs, scope, r) && Resolves(other, scope, q)
    requires r.prefixes.Keys == q.prefixes.Keys
    ensures r.modules == q.modules
  {
    hide Walk, Labelled, Reached, SpellsWalk, JoinWords, Unambiguous;
    forall app | app in r.modules ensures r.modules[app] == q.modules[app] {
    }
  }

  lemma GroupsWithin(regs: seq<Registration>, scope: Scope, r: Resolution, prefixes: map<string, seq<string>>)
    requires Unambiguous(regs) && Resolves(regs, scope, r) && prefixes == r.prefixes
    ensures r.groups == set app | app in prefixes && app != ROOT :: JoinWords(prefixes[app])
  {
    hide Walk, JoinWords;
    forall g | g in r.groups ensures exists app :: app in prefixes && app != ROOT && JoinWords(prefixes[app]) == g {
      var reg, prefix :| reg in regs && Labelled(regs, reg.parent, prefix) && g == JoinWords(prefix + [reg.name]);
      ChildLabelled(regs, reg, prefix);
      RootLabelled(regs);
      PrefixesAreReached(regs, reg.child, map[reg.child := prefix + [reg.name]]);
      assert reg.child in prefixes && prefixes[reg.child] == prefix + [reg.name];
    }
  }

  // ----- The worklist -----

  /** The registrations that are not in `left` have been resolved. */
  ghost predicate Handled(regs: seq<Registration>, scope: Scope, left: seq<Registration>, apps: set<string>) {
    && (forall reg :: reg in left ==> reg in regs)
    && (forall reg :: reg in regs && reg !in left
          ==> reg.parent in apps && reg.child in apps && ModuleOf(scope, reg.child).Some?)
  }

  /** What has been resolved so far is sound. */
  ghost predicate Sound(regs: seq<Registration>, scope: Scope, r: Resolution) {
    && ROOT in r.prefixes && (forall app :: app in r.prefixes ==> Labelled(regs, app, r.prefixes[app]))
    && r.modules.Keys == r.prefixes.Keys
    && (forall app :: app in r.modules && app != ROOT ==> ModuleOf(scope, app) == Some(r.modules[app]))
    && (Unambiguous(regs) ==> r.modules[ROOT] == RootModule(ROOT))
    && (forall app :: app in r.prefixes && app != ROOT ==> JoinWords(r.prefixes[app]) in r.groups)
    && (forall g :: g in r.groups ==> SpellsWalk(regs, g))
  }

  /** What holds between two steps of the worklist, with the registrations in `left` still to be resolved. */
  ghost predicate Underway(regs: seq<Registration>, scope: Scope, left: seq<Registration>, r: Resolution) {
    Handled(regs, scope, left, r.prefixes.Keys) && Sound(regs, scope, r)
  }

  function Added(r: Resolution, reg: Registration, ref: ModuleRef): Resolution
    requires reg.parent in r.prefixes
  {
    var prefix := r.prefixes[reg.parent] + [reg.name];
    Resolution(r.prefixes[reg.child := prefix], r.modules[reg.child := ref], r.groups + {JoinWords(prefix)})
  }

  /** What one pass leaves: the registrations put off and the resolution so far, or a child without a module. */
  datatype Passed = Passed(next: seq<Registration>, r: Resolution) | Missing(child: string)

  function PassOf(scope: Scope, left: seq<Registration>, next: seq<Registration>, r: Resolution): Passed {
    if left == [] then Passed(next, r)
    else if left[0].parent !in r.prefixes then PassOf(scope, left[1..], next + [left[0]], r)
    else match ModuleOf(scope, left[0].child)
      case None => Missing(left[0].child)
      case Some(ref) => PassOf(scope, left[1..], next, Added(r, left[0], ref))
  }

  const START := Resolution(map[ROOT := []], map[ROOT := RootModule(ROOT)], {})

  /** The passes, until nothing is left or nothing moves. */
  function Rounds(scope: Scope, unresolved: seq<Registration>, r: Resolution): Result<Resolution, Error>
    decreases |unresolved|
  {
    if unresolved == [] then Success(r)
    else match PassOf(scope, unresolved, [], r)
      case Missing(child) => Failure(UnresolvedModule(child))
      case Passed(next, passed) =>
        if |next| < |unresolved| then Rounds(scope, next, passed) else Failure(UnresolvedParents(next))
  }

  lemma AddedIsSound(regs: seq<Registration>, scope: Scope, reg: Registration, r: Resolution)
    requires Sound(regs, scope, r) && reg in regs && reg.parent in r.prefixes && ModuleOf(scope, reg.child).Some?
    ensures Sound(regs, scope, Added(r, reg, ModuleOf(scope, reg.child).value))
  {
    var prefix := r.prefixes[reg.parent] + [reg.name];
    ChildLabelled(regs, reg, r.prefixes[reg.parent]);
    assert SpellsWalk(regs, JoinWords(prefix));
    RootLabelled(regs);
    assert Unambiguous(regs) ==> reg.child != ROOT;
    hide Unambiguous, SpellsWalk, Labelled, JoinWords, Walk;
  }

  lemma AddedKeeps(regs: seq<Registration>, scope: Scope, reg: Registration, next: seq<Registration>,
                   more: seq<Registration>, r: Resolution)
    requires Underway(regs, scope, next + ([reg] + more), r) && reg.parent in r.prefixes
            && ModuleOf(scope, reg.child).Some?
    ensures Underway(regs, scope, next + more, Added(r, reg, ModuleOf(scope, reg.child).value))
  {
    InRegistrations(regs, scope, next, reg, more, r);
    AddedIsSound(regs, scope, reg, r);
    hide Sound;
    forall x | x in regs && x !in next + more && x != reg ensures x !in next + ([reg] + more) { }
  }

  lemma AllResolved(regs: seq<Registration>, scope: Scope, r: Resolution)
    requires Underway(regs, scope, [], r)
    ensures Resolvable(regs, scope) && Resolves(regs, scope, r)
  {
    hide Walk, Labelled, Reached, SpellsWalk, JoinWords, Unambiguous;
    forall app ensures app in r.prefixes <==> Reached(regs, app) {
      PrefixesAreReached(regs, app, r.prefixes);
      ReachedIsHeld(regs, r.prefixes.Keys, app);
    }
  }

  lemma ReachedIsHeld(regs: seq<Registration>, apps: set<string>, app: string)
    requires ROOT in apps && forall reg :: reg in regs && reg.parent in apps ==> reg.child in apps
    ensures Reached(regs, app) ==> app in apps
  {
    if Reached(regs, app) {
      var w :| Walk(regs, w) && End(w) == app;
      ClosedHoldsWalk(regs, apps, w);
    }
  }

  lemma PrefixesAreReached(regs: seq<Registration>, app: string, prefixes: map<string, seq<string>>)
    requires app in prefixes ==> Labelled(regs, app, prefixes[app])
    ensures app in prefixes ==> Reached(regs, app)
  {
    if app in prefixes {
      var w :| Walk(regs, w) && End(w) == app && Names(w) == prefixes[app];
    }
  }

  lemma NothingProgressed(regs: seq<Registration>, scope: Scope, left: seq<Registration>, r: Resolution)
    requires Underway(regs, scope, left, r) && left != []
    requires PutOff(left, r)
    ensures !Resolvable(regs, scope)
  {
    ReachedIsHeld(regs, r.prefixes.Keys, left[0].parent);
  }

  /** One pass over the unresolved registrations; those whose parent has no prefix yet are put off. */
  method Pass(regs: seq<Registration>, scope: Scope, unresolved: seq<Registration>, before: Resolution)
    returns (next: seq<Registration>, r: Resolution, error: Option<Error>)
    requires Underway(regs, scope, unresolved, before)
    ensures error.Some? ==> error.value.UnresolvedModule? && !Resolvable(regs, scope)
    ensures match PassOf(scope, unresolved, [], before)
            case Missing(child) => error == Some(UnresolvedModule(child))
            case Passed(left, passed) => error.None? && next == left && r == passed
    ensures error.None? ==>
              && |next| <= |unresolved| && Underway(regs, scope, next, r)
              && (|next| == |unresolved| ==> PutOff(next, r))
  {
    hide Underway, Resolvable, Added;
    next, r := [], before;
    assert [] + unresolved[0..] == unresolved && unresolved[0..] == unresolved;
    for i := 0 to |unresolved|
      invariant |next| <= i && Underway(regs, scope, next + unresolved[i..], r)
      invariant |next| == i ==> PutOff(next, r)
      invariant PassOf(scope, unresolved[i..], next, r) == PassOf(scope, unresolved, [], before)
    {
      var reg := unresolved[i];
      ghost var more := unresolved[i + 1..];
      assert unresolved[i..] == [reg] + more && unresolved[i..][1..] == more;
      if reg.parent !in r.prefixes {
        Regroup(next, reg, more);
        PutOffMore(next, reg, r);
        next := next + [reg];
        continue;
      }
      var ref := ModuleOf(scope, reg.child);
      if ref.None? {
        MissingModule(regs, scope, next, reg, more, r);
        return next, r, Some(UnresolvedModule(reg.child));
      }
      AddedKeeps(regs, scope, reg, next, more, r);
      r := Added(r, reg, ref.value);
    }
    assert next + unresolved[|unresolved|..] == next;
    return next, r, None;
  }

  predicate PutOff(next: seq<Registration>, r: Resolution) {
    forall reg :: reg in next ==> reg.parent !in r.prefixes
  }

  lemma PutOffMore(next: seq<Registration>, reg: Registration, r: Resolution)
    requires reg.parent !in r.prefixes
    ensures PutOff(next, r) ==> PutOff(next + [reg], r)
  {
  }

  lemma Regroup(next: seq<Registration>, reg: Registration, more: seq<Registration>)
    ensures next + ([reg] + more) == (next + [reg]) + more
  {
  }

  lemma InRegistrations(regs: seq<Registration>, scope: Scope, next: seq<Registration>, reg: Registration,
                        more: seq<Registration>, r: Resolution)
    requires Underway(regs, scope, next + ([reg] + more), r)
    ensures reg in regs && forall x :: x in next + more ==> x in regs
  {
    assert reg in next + ([reg] + more);
    assert forall x :: x in next + more ==> x in next + ([reg] + more);
  }

  lemma MissingModule(regs: seq<Registration>, scope: Scope, next: seq<Registration>, reg: Registration,
                      more: seq<Registration>, r: Resolution)
    requires Underway(regs, scope, next + ([reg] + more), r) && ModuleOf(scope, reg.child).None?
    ensures !Resolvable(regs, scope)
  {
    InRegistrations(regs, scope, next, reg, more, r);
  }

  /**
   `_cli_registration_graph`: passes until nothing is left. It ends, and succeeds exactly when every
   parent is reached from the root and every child has a module.
   */
  method RegistrationGraph(regs: seq<Registration>, scope: Scope) returns (result: Result<Resolution, Error>)
    ensures result == Rounds(scope, regs, START)
    ensures result.Success? <==> Resolvable(regs, scope)
    ensures result.Success? ==> Resolves(regs, scope, result.value)
  {
    hide Resolvable, Resolves, Underway;
    var r := START;
    var unresolved := regs;
    Initially(regs, scope, r);
    while unresolved != []
      invariant Underway(regs, scope, unresolved, r)
      invariant Rounds(scope, unresolved, r) == Rounds(scope, regs, START)
      decreases |unresolved|
    {
      var next, passed, error := Pass(regs, scope, unresolved, r);
      if error.Some? {
        return Failure(error.value);
      }
      var progressed := |next| < |unresolved|;
      if !progressed {
        NothingProgressed(regs, scope, next, passed);
        return Failure(UnresolvedParents(next));
      }
      unresolved, r := next, passed;
    }
    AllResolved(regs, scope, r);
    return Success(r);
  }

  lemma Initially(regs: seq<Registration>, scope: Scope, r: Resolution)
    requires r == START
    ensures Underway(regs, scope, regs, r)
  {
    RootLabelled(regs);
  }

  // ----- When the order matters -----

  /** The prefix a registration gives its child. */
  function PrefixOf(r: Resolution, reg: Registration): seq<string>
    requires reg.parent in r.prefixes
  {
    r.prefixes[reg.parent] + [reg.name]
  }

  /**
   Two registrations of different children may be swapped unless one child is the other's parent and
   changes its prefix; two of one child only if they give it the same prefix, and both or neither hang off
   that child itself.
   */
  predicate Swappable(r: Resolution, a: Registration, b: Registration)
    requires a.parent in r.prefixes && b.parent in r.prefixes
  {
    if a.child == b.child then PrefixOf(r, a) == PrefixOf(r, b) && (a.parent == a.child <==> b.parent == b.child)
    else
      && (a.child == b.parent ==> PrefixOf(r, a) == r.prefixes[b.parent])
      && (b.child == a.parent ==> PrefixOf(r, b) == r.prefixes[a.parent])
  }

  /** Handling two registrations in either order gives the same resolution if and only if they are swappable. */
  lemma SwapExactly(scope: Scope, r: Resolution, a: Registration, b: Registration)
    requires a.parent in r.prefixes && b.parent in r.prefixes
    requires ModuleOf(scope, a.child).Some? && ModuleOf(scope, b.child).Some?
    ensures var ma, mb := ModuleOf(scope, a.child).value, ModuleOf(scope, b.child).value;
            Added(Added(r, a, ma), b, mb) == Added(Added(r, b, mb), a, ma) <==> Swappable(r, a, b)
  {
    hide JoinWords;
    var ma, mb := ModuleOf(scope, a.child).value, ModuleOf(scope, b.child).value;
    var ab, ba := Added(Added(r, a, ma), b, mb), Added(Added(r, b, mb), a, ma);
    LastsDiffer(r.prefixes[a.parent], a.name, b.name);
    LastsDiffer(r.prefixes[b.parent], b.name, a.name);
    if a.child != b.child {
      assert ab.prefixes[a.child] == PrefixOf(r, a) && ba.prefixes[b.child] == PrefixOf(r, b);
      assert ab.modules == ba.modules;
      if Swappable(r, a, b) { assert ab.prefixes == ba.prefixes; }
      if ab == ba {
        assert ba.prefixes[a.child] == PrefixOf(r, a) && ab.prefixes[b.child] == PrefixOf(r, b);
        SamePrefixes(ba.prefixes[a.child], if a.parent == b.child then PrefixOf(r, b) else r.prefixes[a.parent],
                     r.prefixes[a.parent], a.name);
        SamePrefixes(ab.prefixes[b.child], if b.parent == a.child then PrefixOf(r, a) else r.prefixes[b.parent],
                     r.prefixes[b.parent], b.name);
      }
    } else {
      assert ab.prefixes[a.child] == (if b.parent == a.child then PrefixOf(r, a) else r.prefixes[b.parent]) + [b.name];
      assert ba.prefixes[a.child] == (if a.parent == b.child then PrefixOf(r, b) else r.prefixes[a.parent]) + [a.name];
      assert ab.modules == ba.modules;
      if Swappable(r, a, b) { assert ab.prefixes == ba.prefixes; }
    }
  }

  lemma LastsDiffer(p: seq<string>, x: string, y: string)
    ensures |p + [x]| == |p| + 1 && (p + [x])[|p|] == x && |p + [x] + [y]| == |p| + 2
    ensures p + [x] + [y] == p + [y] + [x] ==> x == y
  {
    assert (p + [x] + [y])[|p|] == x && (p + [y] + [x])[|p|] == y;
  }

  lemma SamePrefixes(whole: seq<string>, p: seq<string>, q: seq<string>, x: string)
    requires whole == p + [x] == q + [x]
    ensures p == q
  {
    assert whole[..|whole| - 1] == p && whole[..|whole| - 1] == q;
  }

  /** So a pass may swap them in its list. */
  lemma SwapInPass(scope: Scope, a: Registration, b: Registration, left: seq<Registration>, next: seq<Registration>,
                   r: Resolution)
    requires a.parent in r.prefixes && b.parent in r.prefixes && Swappable(r, a, b)
    requires ModuleOf(scope, a.child).Some? && ModuleOf(scope, b.child).Some?
    ensures PassOf(scope, [a, b] + left, next, r) == PassOf(scope, [b, a] + left, next, r)
  {
    hide Added, Swappable;
    SwapExactly(scope, r, a, b);
    HandledFirst(scope, a, b, left, next, r);
    HandledFirst(scope, b, a, left, next, r);
  }

  lemma HandledFirst(scope: Scope, a: Registration, b: Registration, left: seq<Registration>,
                     next: seq<Registration>, r: Resolution)
    requires a.parent in r.prefixes && b.parent in r.prefixes
    requires ModuleOf(scope, a.child).Some? && ModuleOf(scope, b.child).Some?
    ensures var ra := Added(r, a, ModuleOf(scope, a.child).value);
            PassOf(scope, [a, b] + left, next, r) ==
                PassOf(scope, left, next, Added(ra, b, ModuleOf(scope, b.child).value))
  {
    hide JoinWords;
    assert ([a, b] + left)[1..] == [b] + left && ([b] + left)[1..] == left;
  }

  // ----- Two names for one child -----

  /** `reg`, with the two registrations exchanged. */
  function Exchanged(reg: Registration, a: Registration, b: Registration): Registration {
    if reg == a then b else if reg == b then a else reg
  }

  /** A list in which the two registrations have changed places. */
  function Exchange(regs: seq<Registration>, a: Registration, b: Registration): (r: seq<Registration>)
    ensures |r| == |regs| && forall i :: 0 <= i < |r| ==> r[i] == Exchanged(regs[i], a, b)
  {
    seq(|regs|, i requires 0 <= i < |regs| => Exchanged(regs[i], a, b))
  }

  /** Two names for one child under one parent. */
  predicate Rivals(a: Registration, b: Registration) {
    a.parent == b.parent && a.child == b.child && a.name != b.name
  }

  /** No third registration names the child of the two. */
  predicate NoThird(regs: seq<Registration>, a: Registration, b: Registration) {
    forall i :: 0 <= i < |regs| && regs[i].child == a.child ==> regs[i] == a || regs[i] == b
  }

  predicate EndsIn(p: seq<string>, name: string) {
    p != [] && p[|p| - 1] == name
  }

  /** The child has got one name in one resolution and the other name in the other. */
  predicate Decided(r: Resolution, q: Resolution, a: Registration, b: Registration) {
    && a.child in r.prefixes && a.child in q.prefixes
    && ((EndsIn(r.prefixes[a.child], a.name) && EndsIn(q.prefixes[a.child], b.name))
        || (EndsIn(r.prefixes[a.child], b.name) && EndsIn(q.prefixes[a.child], a.name)))
  }

  /** Two resolutions that know the same apps, and have decided once one of the two names was handled. */
  predicate Alongside(r: Resolution, q: Resolution, left: seq<Registration>, a: Registration, b: Registration) {
    r.prefixes.Keys == q.prefixes.Keys && (a in left || Decided(r, q, a, b))
  }

  lemma AddedAlongside(r: Resolution, q: Resolution, reg: Registration, ref: ModuleRef, a: Registration,
                       b: Registration, left: seq<Registration>)
    requires Rivals(a, b) && (reg.child == a.child ==> reg == a || reg == b)
    requires reg.parent in r.prefixes && r.prefixes.Keys == q.prefixes.Keys
    requires a in left || reg == a || Decided(r, q, a, b)
    ensures Alongside(Added(r, reg, ref), Added(q, Exchanged(reg, a, b), ref), left, a, b)
  {
    hide JoinWords;
  }

  lemma {:induction false} PassAlongside(scope: Scope, left: seq<Registration>, next: seq<Registration>,
                                         r: Resolution, q: Resolution, a: Registration, b: Registration)
    requires Rivals(a, b) && NoThird(left, a, b) && NoThird(next, a, b) && Alongside(r, q, next + left, a, b)
    requires PassOf(scope, left, next, r).Passed?
    ensures var p, o := PassOf(scope, left, next, r), PassOf(scope, Exchange(left, a, b), Exchange(next, a, b), q);
            && o.Passed? && o.next == Exchange(p.next, a, b) && Alongside(p.r, o.r, p.next, a, b)
                && NoThird(p.next, a, b)
    decreases |left|
  {
    hide Added, Decided;
    if left == [] {
      assert next + left == next;
    } else {
      var reg, rest := left[0], left[1..];
      assert Exchange(left, a, b)[1..] == Exchange(rest, a, b);
      assert NoThird(rest, a, b);
      if reg.parent !in r.prefixes {
        assert next + left == next + [reg] + rest;
        assert Exchange(next, a, b) + [Exchanged(reg, a, b)] == Exchange(next + [reg], a, b);
        PassAlongside(scope, rest, next + [reg], r, q, a, b);
      } else {
        var ref := ModuleOf(scope, reg.child).value;
        assert a in next + left ==> a in next + rest || reg == a;
        AddedAlongside(r, q, reg, ref, a, b, next + rest);
        PassAlongside(scope, rest, next, Added(r, reg, ref), Added(q, Exchanged(reg, a, b), ref), a, b);
      }
    }
  }

  lemma {:induction false} RoundsAlongside(scope: Scope, unresolved: seq<Registration>, r: Resolution, q: Resolution,
                                           a: Registration, b: Registration)
    requires Rivals(a, b) && NoThird(unresolved, a, b) && Alongside(r, q, unresolved, a, b)
    requires Rounds(scope, unresolved, r).Success?
    ensures var o := Rounds(scope, Exchange(unresolved, a, b), q);
            o.Success? && Decided(Rounds(scope, unresolved, r).value, o.value, a, b)
    decreases |unresolved|
  {
    hide Decided, Added;
    if unresolved != [] {
      assert [] + unresolved == unresolved && Exchange([], a, b) == [];
      PassAlongside(scope, unresolved, [], r, q, a, b);
      var p := PassOf(scope, unresolved, [], r);
      var o := PassOf(scope, Exchange(unresolved, a, b), [], q);
      hide PassOf;
      RoundsAlongside(scope, p.next, p.r, o.r, a, b);
    }
  }

  /**
   With two names for one child under one parent and no third, the order decides: whatever else is
   registered, exchanging the two gives the child another prefix.
   */
  lemma SwappedNamesDiffer(scope: Scope, regs: seq<Registration>, a: Registration, b: Registration)
    requires a in regs && Rivals(a, b) && NoThird(regs, a, b)
    requires Rounds(scope, regs, START).Success?
    ensures var r, q := Rounds(scope, regs, START), Rounds(scope, Exchange(regs, a, b), START);
            && q.Success? && a.child in r.value.prefixes && a.child in q.value.prefixes
            && r.value.prefixes[a.child] != q.value.prefixes[a.child]
  {
    hide Rounds;
    RoundsAlongside(scope, regs, START, START, a, b);
  }
}
