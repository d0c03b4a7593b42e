/** The stack of packages being rendered on a thread, and the `pkg.render` handler that
    recurses through it. */
module RenderStack {
  import opened Text

  // ----- frames -----

  /** Wall-clock deadline and cap on the depth of the stack. */
  datatype Budget = Budget(deadline: Option<int>, maxDepth: nat)

  const DEFAULT_MAX_DEPTH: nat := 16
  const UNBOUNDED := Budget(None, DEFAULT_MAX_DEPTH)

  /** The security posture dependencies are resolved under. */
  datatype Resolver = Resolver(
    offline: bool,
    cacheRoot: Option<string>,
    rejectReplace: bool,
    cosignKey: Option<string>,
    auth: Option<map<string, string>>)

  const DEFAULT_RESOLVER := Resolver(false, None, false, None, None)

  /** A resolved dependency: its directory, and whether that holds a `package.k`. */
  datatype Dep = Dep(absPath: string, hasPackage: bool)

  type Charts = map<string, Dep>

  datatype Frame = Frame(
    package: string,
    allowedRoots: set<string>,
    strict: bool,
    budget: Budget,
    resolvedPkgs: map<string, string>,
    resolver: Resolver)

  function Roots(charts: Charts): set<string> { set a | a in charts :: charts[a].absPath }

  function Pkgs(charts: Charts): map<string, string> {
    map a | a in charts && charts[a].hasPackage :: charts[a].absPath
  }

  function TopBudget(frames: seq<Frame>): Budget {
    if frames == [] then UNBOUNDED else frames[|frames| - 1].budget
  }

  function TopResolver(frames: seq<Frame>): Resolver {
    if frames == [] then DEFAULT_RESOLVER else frames[|frames| - 1].resolver
  }

  predicate OnStack(frames: seq<Frame>, package: string) {
    exists i :: 0 <= i < |frames| && frames[i].package == package
  }

  function Nested(frames: seq<Frame>, package: string, charts: Charts): Frame {
    Frame(package, Roots(charts), false, TopBudget(frames), Pkgs(charts), TopResolver(frames))
  }

  // ----- one step of rendering -----

  /** What a render sees of its surroundings: canonical paths, and the dependencies of a
      package under a posture (none when loading or resolving fails). */
  datatype World = World(
    canon: string -> string,
    child: (string, Resolver) -> Option<Charts>,
    program: string -> seq<string>)

  datatype RenderError = UnknownAlias | Cycle | DepthExceeded | DeadlinePassed | ChildFailed

  datatype Outcome = Rendered | Failed(error: RenderError)

  function PackageFile(dir: string): string { dir + "/package.k" }

  /** The checks made before anything is loaded, in their order. */
  function Guard(frames: seq<Frame>, target: string, now: int): Option<RenderError> {
    if OnStack(frames, target) then Some(Cycle)
    else if |frames| >= TopBudget(frames).maxDepth then Some(DepthExceeded)
    else if TopBudget(frames).deadline.Some? && now >= TopBudget(frames).deadline.value then Some(DeadlinePassed)
    else None
  }

  function Target(frames: seq<Frame>, alias: string): Option<string> {
    if frames != [] && alias in frames[|frames| - 1].resolvedPkgs
    then Some(PackageFile(frames[|frames| - 1].resolvedPkgs[alias]))
    else None
  }

  datatype Step =
    | Root(path: string, charts: Charts, strict: bool, budget: Budget, resolver: Resolver)
    | Call(alias: string, now: int)
    | Return

  /** The stack after a step; a refused call leaves it as it was. */
  function Next(w: World, frames: seq<Frame>, step: Step): seq<Frame> {
    match step
    case Root(path, charts, strict, budget, resolver) =>
      if frames != [] then frames
      else [Frame(w.canon(path), Roots(charts), strict, budget, Pkgs(charts), resolver)]
    case Call(alias, now) =>
      var target := Target(frames, alias);
      if target.None? || Guard(frames, target.value, now).Some? then frames
      else
        var charts := w.child(target.value, TopResolver(frames));
        if charts.None? then frames
        else frames + [Nested(frames, w.canon(target.value), charts.value)]
    case Return => if frames == [] then [] else frames[..|frames| - 1]
  }

  function Run(w: World, steps: seq<Step>): seq<Frame> {
    if steps == [] then [] else Next(w, Run(w, steps[..|steps| - 1]), steps[|steps| - 1])
  }

  // ----- the thread's stack -----

  class RenderStack {
    var frames: seq<Frame>

    constructor ()
      ensures frames == []
    {
      frames := [];
    }

    method EnterFull(package: string, allowedRoots: set<string>, strict: bool, budget: Budget,
        resolvedPkgs: map<string, string>, resolver: Resolver)
      modifies this
      ensures frames == old(frames) + [Frame(package, allowedRoots, strict, budget, resolvedPkgs, resolver)]
    {
      frames := frames + [Frame(package, allowedRoots, strict, budget, resolvedPkgs, resolver)];
    }

    method EnterWith(package: string, allowedRoots: set<string>, strict: bool)
      modifies this
      ensures frames == old(frames) +
        [Frame(package, allowedRoots, strict, TopBudget(old(frames)), map[], TopResolver(old(frames)))]
    {
      EnterFull(package, allowedRoots, strict, TopBudget(frames), map[], TopResolver(frames));
    }

    method EnterWithBudget(package: string, budget: Budget)
      modifies this
      ensures frames == old(frames) + [Frame(package, {}, false, budget, map[], TopResolver(old(frames)))]
    {
      EnterFull(package, {}, false, budget, map[], TopResolver(frames));
    }

    method EnterForRender(package: string, charts: Charts, strict: bool)
      modifies this
      ensures frames == old(frames) + [Nested(old(frames), package, charts).(strict := strict)]
    {
      EnterFull(package, Roots(charts), strict, TopBudget(frames), Pkgs(charts), TopResolver(frames));
    }

    method EnterForRenderWithBudget(package: string, charts: Charts, strict: bool, budget: Budget, resolver: Resolver)
      modifies this
      ensures frames == old(frames) + [Frame(package, Roots(charts), strict, budget, Pkgs(charts), resolver)]
    {
      EnterFull(package, Roots(charts), strict, budget, Pkgs(charts), resolver);
    }

    /** The scope's destructor. */
    method Drop()
      modifies this
      ensures frames == if old(frames) == [] then [] else old(frames)[..|old(frames)| - 1]
    {
      if frames != [] {
        frames := frames[..|frames| - 1];
      }
    }

    method PreCheck(target: string) returns (cycle: bool, depth: nat, budget: Budget)
      ensures cycle == OnStack(frames, target) && depth == |frames| && budget == TopBudget(frames)
    {
      cycle := false;
      var i := 0;
      while i < |frames| && !cycle
        invariant i <= |frames|
        invariant cycle ==> OnStack(frames, target)
        invariant !cycle ==> forall j :: 0 <= j < i ==> frames[j].package != target
      {
        cycle := frames[i].package == target;
        i := i + 1;
      }
      depth := |frames|;
      budget := TopBudget(frames);
    }
  }

  /** How many more frames the top of the stack allows. */
  function Room(frames: seq<Frame>): nat {
    if frames == [] || |frames| >= TopBudget(frames).maxDepth then 0 else TopBudget(frames).maxDepth - |frames|
  }

  /** What the clock showed a call, and what it showed the calls of the package it renders. */
  datatype Trace = Trace(now: int, inner: seq<Trace>)

  /** How a call ends that sees these clock readings: the first check that fails decides, and
      behind them the calls of the package. */
  predicate Ends(w: World, frames: seq<Frame>, alias: string, t: Trace, r: Outcome)
    decreases t
  {
    if frames == [] || alias !in frames[|frames| - 1].resolvedPkgs then r == Failed(UnknownAlias)
    else
      var top := frames[|frames| - 1];
      var target := top.resolvedPkgs[alias] + "/package.k";
      if exists i :: 0 <= i < |frames| && frames[i].package == target then r == Failed(Cycle)
      else if |frames| >= top.budget.maxDepth then r == Failed(DepthExceeded)
      else if top.budget.deadline.Some? && t.now >= top.budget.deadline.value then r == Failed(DeadlinePassed)
      else match w.child(target, top.resolver)
        case None => r == Failed(ChildFailed)
        case Some(charts) =>
          CallsEnd(w, frames + [Nested(frames, w.canon(target), charts)], w.program(w.canon(target)), t.inner, r)
  }

  /** The calls of a package one after another, up to the first that fails. */
  predicate CallsEnd(w: World, frames: seq<Frame>, calls: seq<string>, ts: seq<Trace>, r: Outcome)
    decreases ts
  {
    && |ts| <= |calls|
    && (r.Rendered? ==> |ts| == |calls|)
    && (r.Failed? ==> ts != [])
    && forall i :: 0 <= i < |ts| ==> Ends(w, frames, calls[i], ts[i], if i == |ts| - 1 then r else Rendered)
  }

  lemma {:induction false} RefusedEnds(w: World, frames: seq<Frame>, alias: string, t: Trace, e: RenderError)
    requires Target(frames, alias).Some? && Guard(frames, Target(frames, alias).value, t.now) == Some(e)
    ensures Ends(w, frames, alias, t, Failed(e))
  {
  }

  lemma {:induction false} EnteredEnds(w: World, frames: seq<Frame>, alias: string, t: Trace, r: Outcome)
    requires Target(frames, alias).Some? && Guard(frames, Target(frames, alias).value, t.now).None?
    requires
      var target := Target(frames, alias).value;
      match w.child(target, TopResolver(frames))
      case None => r == Failed(ChildFailed)
      case Some(charts) =>
        CallsEnd(w, frames + [Nested(frames, w.canon(target), charts)], w.program(w.canon(target)), t.inner, r)
    ensures Ends(w, frames, alias, t, r)
  {
  }

  /** The plugin handler: it ends as the checks say, and whatever the inner package does, and
      however it fails, the stack is handed back as it was, after a run of the steps above. */
  method PkgRender(stack: RenderStack, w: World, alias: string, ghost before: seq<Step>)
      returns (r: Outcome, ghost after: seq<Step>, ghost t: Trace)
    requires stack.frames == Run(w, before)
    modifies stack
    ensures stack.frames == old(stack.frames)
    ensures before <= after && stack.frames == Run(w, after)
    ensures Ends(w, old(stack.frames), alias, t, r)
    ensures Target(old(stack.frames), alias).None? ==> r == Failed(UnknownAlias)
    ensures && Target(old(stack.frames), alias).Some?
            && OnStack(old(stack.frames), Target(old(stack.frames), alias).value) ==>
      r == Failed(Cycle)
    ensures |old(stack.frames)| >= TopBudget(old(stack.frames)).maxDepth ==> r.Failed?
    decreases Room(stack.frames), 0
  {
    after, t := before, Trace(0, []);
    var target := Target(stack.frames, alias);
    if target.None? {
      return Failed(UnknownAlias), after, t;
    }
    var cycle, depth, budget := stack.PreCheck(target.value);
    if cycle {
      RefusedEnds(w, stack.frames, alias, t, Cycle);
      return Failed(Cycle), after, t;
    }
    if depth >= budget.maxDepth {
      RefusedEnds(w, stack.frames, alias, t, DepthExceeded);
      return Failed(DepthExceeded), after, t;
    }
    var now: int := *;
    t := Trace(now, []);
    if budget.deadline.Some? && now >= budget.deadline.value {
      RefusedEnds(w, stack.frames, alias, t, DeadlinePassed);
      return Failed(DeadlinePassed), after, t;
    }
    var charts := w.child(target.value, TopResolver(stack.frames));
    if charts.None? {
      EnteredEnds(w, stack.frames, alias, t, Failed(ChildFailed));
      return Failed(ChildFailed), after, t;
    }
    ghost var entered := before + [Call(alias, now)];
    assert entered[..|entered| - 1] == before;
    stack.EnterForRender(w.canon(target.value), charts.value, false);
    ghost var inner;
    r, after, inner := Evaluate(stack, w, w.program(w.canon(target.value)), entered);
    stack.Drop();
    t := Trace(now, inner);
    EnteredEnds(w, stack.frames, alias, t, r);
    ghost var done := after;
    after := done + [Return];
    assert after[..|after| - 1] == done;
  }

  /** The evaluation of a package, as far as the stack is concerned: its `pkg.render` calls
      one after another, up to the first that fails. */
  method Evaluate(stack: RenderStack, w: World, calls: seq<string>, ghost before: seq<Step>)
      returns (r: Outcome, ghost after: seq<Step>, ghost ts: seq<Trace>)
    requires stack.frames == Run(w, before)
    modifies stack
    ensures stack.frames == old(stack.frames)
    ensures before <= after && stack.frames == Run(w, after)
    ensures CallsEnd(w, old(stack.frames), calls, ts, r)
    decreases Room(stack.frames), 1, |calls|
  {
    after, ts := before, [];
    r := Rendered;
    var i := 0;
    while i < |calls| && r.Rendered?
      invariant i == |ts| <= |calls| && (r.Failed? ==> ts != [])
      invariant stack.frames == old(stack.frames)
      invariant before <= after && stack.frames == Run(w, after)
      invariant forall j :: 0 <= j < i ==>
        Ends(w, stack.frames, calls[j], ts[j], if j == i - 1 then r else Rendered)
    {
      ghost var t;
      r, after, t := PkgRender(stack, w, calls[i], after);
      ts := ts + [t];
      i := i + 1;
    }
  }

  /** The outermost entry, which no guard precedes. */
  method RenderInWorker(stack: RenderStack, w: World, path: string, charts: Charts, strict: bool, budget: Budget,
      resolver: Resolver) returns (r: Outcome, ghost ts: seq<Trace>)
    requires stack.frames == []
    modifies stack
    ensures stack.frames == []
    ensures CallsEnd(w, [Frame(w.canon(path), Roots(charts), strict, budget, Pkgs(charts), resolver)],
                     w.program(w.canon(path)), ts, r)
  {
    ghost var before := [Root(path, charts, strict, budget, resolver)];
    assert before[..0] == [] && Run(w, []) == [];
    stack.EnterForRenderWithBudget(w.canon(path), charts, strict, budget, resolver);
    ghost var after;
    r, after, ts := Evaluate(stack, w, w.program(w.canon(path)), before);
    stack.Drop();
  }

  // ----- how calls end -----

  /** Every check passes, at this call and at all the calls its package makes. */
  predicate Succeeds(w: World, frames: seq<Frame>, alias: string, t: Trace)
    decreases t
  {
    && frames != [] && alias in frames[|frames| - 1].resolvedPkgs
    && var top := frames[|frames| - 1];
       var target := top.resolvedPkgs[alias] + "/package.k";
       && (forall i :: 0 <= i < |frames| ==> frames[i].package != target)
       && |frames| < top.budget.maxDepth
       && (top.budget.deadline.Some? ==> t.now < top.budget.deadline.value)
       && w.child(target, top.resolver).Some?
       && AllSucceed(w, Entered(w, frames, target), w.program(w.canon(target)), t.inner)
  }

  predicate AllSucceed(w: World, frames: seq<Frame>, calls: seq<string>, ts: seq<Trace>)
    decreases ts
  {
    |ts| == |calls| && forall i :: 0 <= i < |ts| ==> Succeeds(w, frames, calls[i], ts[i])
  }

  /** The stack the package at `target` is evaluated on. */
  function Entered(w: World, frames: seq<Frame>, target: string): seq<Frame>
    requires frames != [] && w.child(target, frames[|frames| - 1].resolver).Some?
  {
    var top := frames[|frames| - 1];
    var charts := w.child(target, top.resolver).value;
    frames + [Frame(w.canon(target), Roots(charts), false, top.budget, Pkgs(charts), top.resolver)]
  }

  /** A call renders if and only if every check passes, all the way down. */
  lemma {:induction false} RendersExactly(w: World, frames: seq<Frame>, alias: string, t: Trace)
    ensures Ends(w, frames, alias, t, Rendered) <==> Succeeds(w, frames, alias, t)
    decreases t
  {
    if Target(frames, alias).Some? {
      var target := Target(frames, alias).value;
      if w.child(target, TopResolver(frames)).Some? {
        var entered := Entered(w, frames, target);
        assert entered == frames + [Nested(frames, w.canon(target), w.child(target, TopResolver(frames)).value)];
        var calls := w.program(w.canon(target));
        forall i | 0 <= i < |t.inner| && i < |calls|
          ensures Ends(w, entered, calls[i], t.inner[i], Rendered) <==> Succeeds(w, entered, calls[i], t.inner[i])
        {
          RendersExactly(w, entered, calls[i], t.inner[i]);
        }
      }
    }
  }

  /** The clock readings determine how a call ends. */
  lemma {:induction false} OneOutcome(w: World, frames: seq<Frame>, alias: string, t: Trace, r: Outcome, q: Outcome)
    requires Ends(w, frames, alias, t, r) && Ends(w, frames, alias, t, q)
    ensures r == q
    decreases t
  {
    if r != q {
      var target := Target(frames, alias).value;
      var charts := w.child(target, TopResolver(frames)).value;
      var inner := frames + [Nested(frames, w.canon(target), charts)];
      var n := |t.inner| - 1;
      assert t.inner != [];
      OneOutcome(w, inner, w.program(w.canon(target))[n], t.inner[n], r, q);
    }
  }

  /** A step goes in if and only if the checks in front of the package pass, and then with the
      package's own charts under what the caller was entered with. */
  lemma {:induction false} CallEntersExactly(w: World, frames: seq<Frame>, alias: string, now: int)
    ensures Next(w, frames, Call(alias, now)) != frames <==>
      && frames != [] && alias in frames[|frames| - 1].resolvedPkgs
      && var top := frames[|frames| - 1];
         var target := top.resolvedPkgs[alias] + "/package.k";
         && (forall i :: 0 <= i < |frames| ==> frames[i].package != target)
         && |frames| < top.budget.maxDepth
         && (top.budget.deadline.Some? ==> now < top.budget.deadline.value)
         && w.child(target, top.resolver).Some?
    ensures Next(w, frames, Call(alias, now)) != frames ==>
      Next(w, frames, Call(alias, now)) == Entered(w, frames, frames[|frames| - 1].resolvedPkgs[alias] + "/package.k")
  {
    if Next(w, frames, Call(alias, now)) == frames && frames != [] && alias in frames[|frames| - 1].resolvedPkgs {
      assert Target(frames, alias).Some?;
    }
  }

  /** The roots of a package are the directories of all its dependencies; its aliases those
      that hold a package. */
  lemma {:induction false} RootsAndAliases(charts: Charts)
    ensures forall dir :: dir in Roots(charts) <==> exists a :: a in charts && charts[a].absPath == dir
    ensures forall a :: a in Pkgs(charts) <==> a in charts && charts[a].hasPackage
    ensures forall a :: a in Pkgs(charts) ==> Pkgs(charts)[a] == charts[a].absPath
  {
  }

  /** A frame inherits from the one under it; the bottom one has no deadline, a depth of 16 and
      the network. */
  lemma {:induction false} TopDecides(frames: seq<Frame>, top: Frame, package: string, charts: Charts)
    ensures Nested(frames + [top], package, charts)
         == Frame(package, Roots(charts), false, top.budget, Pkgs(charts), top.resolver)
    ensures Nested([], package, charts)
         == Frame(package, Roots(charts), false, Budget(None, 16), Pkgs(charts),
                  Resolver(false, None, false, None, None))
  {
    assert (frames + [top])[|frames + [top]| - 1] == top;
  }

  // ----- renders that cannot fail -----

  /** Programs call what their package declares, it loads, and ranks fall along calls. */
  ghost predicate WellDeclared(w: World, posture: Resolver, rank: string -> nat) {
    forall t, i :: w.child(t, posture).Some? && 0 <= i < |w.program(w.canon(t))| ==>
      Declared(w, posture, rank, t, w.program(w.canon(t))[i])
  }

  predicate Declared(w: World, posture: Resolver, rank: string -> nat, t: string, alias: string)
    requires w.child(t, posture).Some?
  {
    && alias in Pkgs(w.child(t, posture).value)
    && var u := PackageFile(Pkgs(w.child(t, posture).value)[alias]);
       w.child(u, posture).Some? && rank(w.canon(u)) < rank(w.canon(t))
  }

  /** The package at `t` is on top, those below rank no lower, and its rank fits the depth. */
  ghost predicate Fits(w: World, rank: string -> nat, frames: seq<Frame>, t: string) {
    && frames != []
    && var top := frames[|frames| - 1];
       && w.child(t, top.resolver).Some? && top.resolvedPkgs == Pkgs(w.child(t, top.resolver).value)
       && (forall i :: 0 <= i < |frames| ==>
             w.canon(frames[i].package) == frames[i].package && rank(w.canon(t)) <= rank(frames[i].package))
       && top.budget.deadline.None? && |frames| + rank(w.canon(t)) <= top.budget.maxDepth
  }

  lemma {:induction false} FittingCallsRender(w: World, rank: string -> nat, frames: seq<Frame>, p: string,
                                              alias: string, t: Trace, r: Outcome)
    requires (forall x :: w.canon(w.canon(x)) == w.canon(x)) && Fits(w, rank, frames, p)
    requires WellDeclared(w, frames[|frames| - 1].resolver, rank) && alias in w.program(w.canon(p))
    requires Ends(w, frames, alias, t, r)
    ensures r == Rendered
    decreases t
  {
    var top := frames[|frames| - 1];
    assert Declared(w, top.resolver, rank, p, alias);
    var u := PackageFile(top.resolvedPkgs[alias]);
    var charts := w.child(u, top.resolver).value;
    var inner := frames + [Nested(frames, w.canon(u), charts)];
    assert Fits(w, rank, inner, u);
    assert CallsEnd(w, inner, w.program(w.canon(u)), t.inner, r);
    if r.Failed? {
      var n := |t.inner| - 1;
      FittingCallsRender(w, rank, inner, u, w.program(w.canon(u))[n], t.inner[n], r);
    }
  }

  /** A render without a deadline whose packages call only what they declare, without cycles and
      no deeper than the cap, always succeeds. */
  lemma {:induction false} GraphsWithinDepthRender(w: World, rank: string -> nat, path: string, strict: bool,
                                                   budget: Budget, resolver: Resolver, ts: seq<Trace>, r: Outcome)
    requires (forall x :: w.canon(w.canon(x)) == w.canon(x)) && WellDeclared(w, resolver, rank)
    requires w.child(path, resolver).Some? && budget.deadline.None? && rank(w.canon(path)) < budget.maxDepth
    requires
      var charts := w.child(path, resolver).value;
      CallsEnd(w, [Frame(w.canon(path), Roots(charts), strict, budget, Pkgs(charts), resolver)],
               w.program(w.canon(path)), ts, r)
    ensures r == Rendered
  {
    var charts := w.child(path, resolver).value;
    var frames := [Frame(w.canon(path), Roots(charts), strict, budget, Pkgs(charts), resolver)];
    if r.Failed? {
      var n := |ts| - 1;
      FittingCallsRender(w, rank, frames, path, w.program(w.canon(path))[n], ts[n], r);
    }
  }

  // ----- every reachable stack -----

  /** Each frame carries the root's budget and posture, the depth stays within the root's
      cap, and only the root can be strict. */
  predicate Inherits(frames: seq<Frame>) {
    frames != [] ==>
      && (forall i :: 0 <= i < |frames| ==>
            frames[i].budget == frames[0].budget && frames[i].resolver == frames[0].resolver)
      && (forall i :: 1 <= i < |frames| ==> !frames[i].strict)
      && (|frames| == 1 || |frames| <= frames[0].budget.maxDepth)
  }

  predicate ResolvedUnder(w: World, posture: Resolver, frame: Frame, target: string) {
    && frame.package == w.canon(target)
    && w.child(target, posture).Some?
    && frame.allowedRoots == Roots(w.child(target, posture).value)
    && frame.resolvedPkgs == Pkgs(w.child(target, posture).value)
  }

  /** The frame's roots and aliases are what some target resolves to under the posture. */
  ghost predicate Legitimate(w: World, posture: Resolver, frame: Frame) {
    exists target :: ResolvedUnder(w, posture, frame, target)
  }

  /** Nested frames got their dependencies under the root's posture. */
  ghost predicate Composed(w: World, frames: seq<Frame>) {
    forall i :: 1 <= i < |frames| ==> Legitimate(w, frames[0].resolver, frames[i])
  }

  lemma {:induction false} EveryRunInherits(w: World, steps: seq<Step>)
    ensures Inherits(Run(w, steps)) && Composed(w, Run(w, steps))
    decreases |steps|
  {
    if steps != [] {
      var init := steps[..|steps| - 1];
      EveryRunInherits(w, init);
      StepInherits(w, Run(w, init), steps[|steps| - 1]);
    }
  }

  lemma {:induction false} StepInherits(w: World, frames: seq<Frame>, step: Step)
    requires Inherits(frames) && Composed(w, frames)
    ensures Inherits(Next(w, frames, step)) && Composed(w, Next(w, frames, step))
  {
    var next := Next(w, frames, step);
    if step.Call? && next != frames {
      var target := Target(frames, step.alias).value;
      assert next == frames + [Nested(frames, w.canon(target), w.child(target, TopResolver(frames)).value)];
      assert ResolvedUnder(w, frames[0].resolver, next[|frames|], target);
    }
  }

  /** A call that went in and everything it did, once returned from, leaves the stack it
      found: entering and leaving cancel. */
  lemma {:induction false} ReturnUndoesCall(w: World, frames: seq<Frame>, alias: string, now: int)
    ensures Next(w, frames, Call(alias, now)) == frames ||
            Next(w, Next(w, frames, Call(alias, now)), Return) == frames
  {
    var next := Next(w, frames, Call(alias, now));
    if next != frames {
      assert next[..|next| - 1] == frames;
    }
  }

  // ----- distinct packages -----

  predicate Distinct(frames: seq<Frame>) {
    forall i, j :: 0 <= i < j < |frames| ==> frames[i].package != frames[j].package
  }

  /** A canonical path is its own; and packages with one canonical path, being one file, have
      the same dependencies. */
  ghost predicate Coherent(w: World) {
    && (forall t :: w.canon(w.canon(t)) == w.canon(t))
    && (forall t, r :: w.child(t, r) == w.child(w.canon(t), r))
  }

  /** A render starts at a package with the dependencies resolved for it. */
  predicate ResolvedRoot(w: World, step: Step) {
    step.Root? ==> w.child(step.path, step.resolver) == Some(step.charts)
  }

  ghost predicate ResolvedRoots(w: World, steps: seq<Step>) {
    forall k :: 0 <= k < |steps| ==> ResolvedRoot(w, steps[k])
  }

  /** `u` is what an alias of `t` is resolved to, and it loads. */
  ghost predicate Calls(w: World, posture: Resolver, t: string, u: string) {
    && w.child(t, posture).Some? && w.child(u, posture).Some?
    && exists a :: a in Pkgs(w.child(t, posture).value) && PackageFile(Pkgs(w.child(t, posture).value)[a]) == u
  }

  /** A chain of dependencies, each package by the path its caller resolved it to. */
  ghost predicate Chain(w: World, posture: Resolver, ts: seq<string>) {
    ts != [] && (forall i :: 0 <= i < |ts| ==> w.child(ts[i], posture).Some?)
    && forall i :: 1 <= i < |ts| ==> Calls(w, posture, ts[i - 1], ts[i])
  }

  /** The chain comes back to the package it starts from, under a path that is not that
      package's canonical one. */
  ghost predicate ReturnsAliased(w: World, posture: Resolver, ts: seq<string>) {
    && Chain(w, posture, ts) && |ts| >= 2
    && w.canon(ts[|ts| - 1]) == w.canon(ts[0]) && w.canon(ts[|ts| - 1]) != ts[|ts| - 1]
  }

  /** No path that is not canonical lies on a dependency cycle. */
  ghost predicate NoAliasOnCycle(w: World) {
    forall posture, ts :: !ReturnsAliased(w, posture, ts)
  }

  /** The frames of a stack are those of a chain. */
  ghost predicate Follows(w: World, frames: seq<Frame>, ts: seq<string>) {
    |ts| == |frames| && (frames != [] ==> Chain(w, frames[0].resolver, ts)) &&
    forall i :: 0 <= i < |frames| ==>
      && frames[i].package == w.canon(ts[i]) && frames[i].resolver == frames[0].resolver
      && w.child(ts[i], frames[0].resolver).Some?
      && frames[i].resolvedPkgs == Pkgs(w.child(ts[i], frames[0].resolver).value)
  }

  lemma {:induction false} StepFollows(w: World, frames: seq<Frame>, ts: seq<string>, step: Step)
    returns (next: seq<string>)
    requires Follows(w, frames, ts) && ResolvedRoot(w, step)
    ensures Follows(w, Next(w, frames, step), next)
    ensures step.Call? && Next(w, frames, step) != frames ==>
      next == ts + [Target(frames, step.alias).value] && Guard(frames, Target(frames, step.alias).value, step.now).None?
  {
    next := ts;
    if step.Root? && frames == [] {
      next := [step.path];
    } else if step.Return? && frames != [] {
      next := ts[..|ts| - 1];
    } else if step.Call? && Next(w, frames, step) != frames {
      var target := Target(frames, step.alias).value;
      next := ts + [target];
      ChainGrows(w, frames[0].resolver, ts, target, step.alias);
    }
  }

  lemma {:induction false} ChainGrows(w: World, posture: Resolver, ts: seq<string>, t: string, alias: string)
    requires Chain(w, posture, ts) && w.child(t, posture).Some?
    requires alias in Pkgs(w.child(ts[|ts| - 1], posture).value)
    requires PackageFile(Pkgs(w.child(ts[|ts| - 1], posture).value)[alias]) == t
    ensures Chain(w, posture, ts + [t])
  {
    assert Calls(w, posture, ts[|ts| - 1], t);
    var us := ts + [t];
    forall i | 1 <= i < |us| ensures Calls(w, posture, us[i - 1], us[i]) {
      if i < |ts| {
        assert Calls(w, posture, ts[i - 1], ts[i]);
      }
    }
  }

  /** Without such a path the cycle check stops every re-entry. */
  lemma {:induction false} StacksStayDistinct(w: World, steps: seq<Step>) returns (ts: seq<string>)
    requires NoAliasOnCycle(w) && ResolvedRoots(w, steps)
    ensures Distinct(Run(w, steps)) && Follows(w, Run(w, steps), ts)
    decreases |steps|
  {
    if steps == [] {
      ts := [];
    } else {
      var init, last := steps[..|steps| - 1], steps[|steps| - 1];
      assert forall k :: 0 <= k < |init| ==> init[k] == steps[k];
      assert ResolvedRoot(w, last);
      var before := StacksStayDistinct(w, init);
      ts := StepFollows(w, Run(w, init), before, last);
      StepStaysDistinct(w, Run(w, init), before, last, ts);
    }
  }

  lemma {:induction false} StepStaysDistinct(w: World, frames: seq<Frame>, before: seq<string>, step: Step,
                                             ts: seq<string>)
    requires NoAliasOnCycle(w) && Distinct(frames) && Follows(w, frames, before)
    requires Follows(w, Next(w, frames, step), ts)
    requires step.Call? && Next(w, frames, step) != frames ==>
      && ts == before + [Target(frames, step.alias).value]
      && Guard(frames, Target(frames, step.alias).value, step.now).None?
    ensures Distinct(Next(w, frames, step))
  {
    var next := Next(w, frames, step);
    if step.Call? && next != frames {
      var target := Target(frames, step.alias).value;
      assert next == frames + [Nested(frames, w.canon(target), w.child(target, TopResolver(frames)).value)];
      forall i | 0 <= i < |frames| ensures frames[i].package != w.canon(target) {
        ReentryIsAliased(w, frames[0].resolver, ts, i);
        assert frames[i].package != target;
      }
    }
  }

  lemma {:induction false} ReentryIsAliased(w: World, posture: Resolver, ts: seq<string>, i: nat)
    requires NoAliasOnCycle(w) && Chain(w, posture, ts) && i < |ts| - 1
    ensures w.canon(ts[i]) == w.canon(ts[|ts| - 1]) ==> w.canon(ts[|ts| - 1]) == ts[|ts| - 1]
  {
    var us := ts[i..];
    forall k | 1 <= k < |us| ensures Calls(w, posture, us[k - 1], us[k]) {
      assert Calls(w, posture, ts[i + k - 1], ts[i + k]);
    }
    assert !ReturnsAliased(w, posture, us);
  }

  // ----- and with one, some render enters a package twice -----

  /** No package of the chain is resolved to the canonical path of one before it. */
  ghost predicate Unguarded(w: World, ts: seq<string>) {
    forall l, m :: 0 <= l < m < |ts| ==> ts[m] != w.canon(ts[l])
  }

  /** A chain can be cut short where the guard would stop it. */
  lemma {:induction false} ShortCut(w: World, posture: Resolver, ts: seq<string>) returns (us: seq<string>)
    requires Coherent(w) && ReturnsAliased(w, posture, ts)
    ensures ReturnsAliased(w, posture, us) && Unguarded(w, us)
    decreases |ts|
  {
    us := ts;
    if l, m :| 0 <= l < m < |ts| && ts[m] == w.canon(ts[l]) {
      assert m < |ts| - 1 by {
        assert w.canon(ts[m]) == ts[m];
      }
      CutChain(w, posture, ts, l, m);
      us := ShortCut(w, posture, ts[..l + 1] + ts[m + 1..]);
    }
  }

  lemma {:induction false} CutChain(w: World, posture: Resolver, ts: seq<string>, l: nat, m: nat)
    requires Coherent(w) && Chain(w, posture, ts) && l < m < |ts| - 1 && ts[m] == w.canon(ts[l])
    ensures Chain(w, posture, ts[..l + 1] + ts[m + 1..])
  {
    var us := ts[..l + 1] + ts[m + 1..];
    assert Calls(w, posture, ts[m], ts[m + 1]);
    assert w.child(ts[l], posture) == w.child(ts[m], posture);
    forall i | 1 <= i < |us| ensures Calls(w, posture, us[i - 1], us[i]) {
      if i <= l {
        assert Calls(w, posture, ts[i - 1], ts[i]);
      } else if i == l + 1 {
        assert us[i - 1] == ts[l] && us[i] == ts[m + 1];
        assert Calls(w, posture, ts[l], ts[m + 1]);
      } else {
        assert us[i - 1] == ts[m + i - l - 1] && us[i] == ts[m + i - l];
        assert Calls(w, posture, ts[m + i - l - 1], ts[m + i - l]);
      }
    }
    forall i | 0 <= i < |us| ensures w.child(us[i], posture).Some? {
      assert us[i] == if i <= l then ts[i] else ts[m + i - l];
    }
  }

  /** A chain the guard lets through is entered, package by package. */
  lemma {:induction false} ChainIsEntered(w: World, posture: Resolver, ts: seq<string>, n: nat)
    returns (steps: seq<Step>)
    requires Coherent(w) && Chain(w, posture, ts) && Unguarded(w, ts) && 0 < n <= |ts|
    ensures ResolvedRoots(w, steps) && Follows(w, Run(w, steps), ts[..n])
    ensures Run(w, steps) != [] && Run(w, steps)[0].resolver == posture
    ensures Inherits(Run(w, steps)) && Run(w, steps)[0].budget == Budget(None, |ts|)
  {
    if n == 1 {
      steps := [Root(ts[0], w.child(ts[0], posture).value, false, Budget(None, |ts|), posture)];
      assert steps[..0] == [] && Run(w, []) == [];
      assert ts[..1] == [ts[0]];
    } else {
      var before := ChainIsEntered(w, posture, ts, n - 1);
      assert Calls(w, posture, ts[n - 2], ts[n - 1]);
      var pkgs := Pkgs(w.child(ts[n - 2], posture).value);
      var a :| a in pkgs && PackageFile(pkgs[a]) == ts[n - 1];
      steps := before + [Call(a, 0)];
      assert steps[..|steps| - 1] == before;
      NextIsEntered(w, posture, ts, n, Run(w, before), a);
    }
  }

  lemma {:induction false} NextIsEntered(w: World, posture: Resolver, ts: seq<string>, n: nat,
                                         frames: seq<Frame>, a: string)
    requires Chain(w, posture, ts) && Unguarded(w, ts) && 1 < n <= |ts|
    requires Follows(w, frames, ts[..n - 1]) && frames != [] && frames[0].resolver == posture
    requires Inherits(frames) && frames[0].budget == Budget(None, |ts|)
    requires var pkgs := Pkgs(w.child(ts[n - 2], posture).value);
      a in pkgs && PackageFile(pkgs[a]) == ts[n - 1]
    ensures
      var next := Next(w, frames, Call(a, 0));
      Follows(w, next, ts[..n]) && next != [] && next[0] == frames[0] && Inherits(next)
  {
    var next := Next(w, frames, Call(a, 0));
    assert ts[..n - 1][n - 2] == ts[n - 2];
    assert Target(frames, a) == Some(ts[n - 1]);
    forall i | 0 <= i < |frames| ensures frames[i].package != ts[n - 1] {
      assert frames[i].package == w.canon(ts[..n - 1][i]) == w.canon(ts[i]);
    }
    assert Guard(frames, ts[n - 1], 0).None?;
    assert next == frames + [Nested(frames, w.canon(ts[n - 1]), w.child(ts[n - 1], posture).value)];
    assert ts[..n] == ts[..n - 1] + [ts[n - 1]];
    ChainGrows(w, posture, ts[..n - 1], ts[n - 1], a);
  }

  /** Over all runs from all roots, under every budget: no package is ever on the stack twice
      if and only if no path that is not canonical lies on a dependency cycle. */
  lemma {:induction false} GuardStopsReentryExactly(w: World)
    requires Coherent(w)
    ensures NoAliasOnCycle(w) <==> forall steps :: ResolvedRoots(w, steps) ==> Distinct(Run(w, steps))
  {
    if NoAliasOnCycle(w) {
      forall steps | ResolvedRoots(w, steps) ensures Distinct(Run(w, steps)) {
        var _ := StacksStayDistinct(w, steps);
      }
    } else {
      var posture, ts :| ReturnsAliased(w, posture, ts);
      var us := ShortCut(w, posture, ts);
      var steps := ChainIsEntered(w, posture, us, |us|);
      assert us[..|us|] == us;
      var frames := Run(w, steps);
      assert frames[0].package == frames[|us| - 1].package;
    }
  }

  /** Canonical paths throughout meet the condition, */
  lemma {:induction false} CanonicalPathsSuffice(w: World)
    requires forall posture, t, u :: Calls(w, posture, t, u) ==> w.canon(u) == u
    ensures NoAliasOnCycle(w)
  {
    forall posture, ts ensures !ReturnsAliased(w, posture, ts) {
      if Chain(w, posture, ts) && |ts| >= 2 {
        assert Calls(w, posture, ts[|ts| - 2], ts[|ts| - 1]);
      }
    }
  }

  /** and so do dependencies without cycles, whatever their paths. */
  lemma {:induction false} AcyclicGraphsSuffice(w: World, rank: string -> nat)
    requires forall posture, t, u :: Calls(w, posture, t, u) ==> rank(w.canon(u)) < rank(w.canon(t))
    ensures NoAliasOnCycle(w)
  {
    forall posture, ts ensures !ReturnsAliased(w, posture, ts) {
      if Chain(w, posture, ts) && |ts| >= 2 {
        RanksFall(w, posture, ts, rank, |ts| - 1);
      }
    }
  }

  lemma {:induction false} RanksFall(w: World, posture: Resolver, ts: seq<string>, rank: string -> nat, n: nat)
    requires forall posture, t, u :: Calls(w, posture, t, u) ==> rank(w.canon(u)) < rank(w.canon(t))
    requires Chain(w, posture, ts) && 0 < n < |ts|
    ensures rank(w.canon(ts[n])) < rank(w.canon(ts[0]))
  {
    assert Calls(w, posture, ts[n - 1], ts[n]);
    if n > 1 {
      RanksFall(w, posture, ts, rank, n - 1);
    }
  }

  /** Packages by canonical path, closed under dependencies. */
  ghost predicate FiniteGraph(w: World, universe: set<string>) {
    forall t, u, posture :: w.canon(t) in universe && Calls(w, posture, t, u) ==> w.canon(u) in universe
  }

  predicate RootWithin(w: World, step: Step, universe: set<string>) {
    step.Root? ==> w.canon(step.path) in universe
  }

  /** Over a finite graph of packages without such a path the stack is never deeper than the
      graph is large. */
  lemma {:induction false} PackagesStayDistinct(w: World, universe: set<string>, steps: seq<Step>)
    requires NoAliasOnCycle(w) && FiniteGraph(w, universe) && ResolvedRoots(w, steps)
    requires forall k :: 0 <= k < |steps| ==> RootWithin(w, steps[k], universe)
    ensures Distinct(Run(w, steps)) && |Run(w, steps)| <= |universe|
  {
    var ts := StacksStayDistinct(w, steps);
    BottomIsWithin(w, universe, steps);
    var frames := Run(w, steps);
    if frames != [] {
      ChainStaysWithin(w, frames[0].resolver, universe, ts);
    }
    DistinctFits(frames, universe);
  }

  lemma {:induction false} BottomIsWithin(w: World, universe: set<string>, steps: seq<Step>)
    requires forall k :: 0 <= k < |steps| ==> RootWithin(w, steps[k], universe)
    ensures Run(w, steps) != [] ==> Run(w, steps)[0].package in universe
    decreases |steps|
  {
    if steps != [] {
      var init := steps[..|steps| - 1];
      assert forall k :: 0 <= k < |init| ==> init[k] == steps[k];
      assert RootWithin(w, steps[|steps| - 1], universe);
      BottomIsWithin(w, universe, init);
    }
  }

  lemma {:induction false} ChainStaysWithin(w: World, posture: Resolver, universe: set<string>, ts: seq<string>)
    requires FiniteGraph(w, universe) && Chain(w, posture, ts) && w.canon(ts[0]) in universe
    ensures forall i :: 0 <= i < |ts| ==> w.canon(ts[i]) in universe
  {
    if |ts| > 1 {
      var init := ts[..|ts| - 1];
      forall i | 1 <= i < |init| ensures Calls(w, posture, init[i - 1], init[i]) {
        assert Calls(w, posture, ts[i - 1], ts[i]);
      }
      ChainStaysWithin(w, posture, universe, init);
      assert init[|ts| - 2] == ts[|ts| - 2] && Calls(w, posture, ts[|ts| - 2], ts[|ts| - 1]);
      forall i | 0 <= i < |ts| ensures w.canon(ts[i]) in universe {
        if i < |init| { assert w.canon(init[i]) in universe; }
      }
    }
  }

  lemma {:induction false} DistinctFits(frames: seq<Frame>, universe: set<string>)
    requires Distinct(frames) && forall i :: 0 <= i < |frames| ==> frames[i].package in universe
    ensures |frames| <= |universe|
  {
    if frames != [] {
      var init := frames[..|frames| - 1];
      var last := frames[|frames| - 1].package;
      assert forall i :: 0 <= i < |init| ==> init[i] == frames[i] && init[i].package != last;
      DistinctFits(init, universe - {last});
    }
  }

  /** A package that depends on itself through a path that is not canonical is entered a
      second time. */
  lemma {:induction false} AliasedPathReenters(w: World, dir: string, alias: string, budget: Budget, now: int)
    requires w.canon(w.canon(PackageFile(dir))) == w.canon(PackageFile(dir)) != PackageFile(dir)
    requires budget.maxDepth >= 2 && budget.deadline.None?
    requires w.child(PackageFile(dir), DEFAULT_RESOLVER) == Some(map[alias := Dep(dir, true)])
    ensures var root := Root(PackageFile(dir), map[alias := Dep(dir, true)], false, budget, DEFAULT_RESOLVER);
      !Distinct(Run(w, [root, Call(alias, now)]))
  {
    var charts := map[alias := Dep(dir, true)];
    var root := Root(PackageFile(dir), charts, false, budget, DEFAULT_RESOLVER);
    var steps := [root, Call(alias, now)];
    assert steps[..1] == [root] && [root][..0] == [];
    assert Run(w, []) == [];
    var one := Run(w, [root]);
    assert one == [Frame(w.canon(PackageFile(dir)), Roots(charts), false, budget, Pkgs(charts), DEFAULT_RESOLVER)];
    assert Pkgs(charts)[alias] == dir;
    var two := Run(w, steps);
    assert two == one + [Nested(one, w.canon(PackageFile(dir)), charts)];
    assert two[0].package == two[1].package;
  }
}
